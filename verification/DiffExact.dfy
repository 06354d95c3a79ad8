/** The condition on the places is exact: on every list of edits that breaks it,
    some session of undos and redos leaves the list of versions. */
module DiffExact {
  import opened Common
  import opened Dom
  import opened Shared
  import opened XQuery
  import opened XQueryRoundTrip
  import opened DiffStack
  import opened DiffRefinement

  // Sessions ---------------------------------------------------------------------------

  datatype Move = Back | Forth

  function Go(g: Grammar, s: Stack, m: Move): (r: Stack)
  {
    if m.Back? then (if s.curr < |s.diffs| then Undo(g, s) else s)
    else (if s.curr + 1 < |s.diffs| then Redo(g, s) else s)
  }

  function Mover(g: Grammar): (go: (Stack, Move) -> Stack)
  {
    (s: Stack, m: Move) => Go(g, s, m)
  }

  function Walk<S>(go: (S, Move) -> S, s: S, ms: seq<Move>): (r: S)
    decreases |ms|
  {
    if ms == [] then s else Walk(go, go(s, ms[0]), ms[1..])
  }

  function SpecGo(h: History, m: Move): (r: History)
  {
    if m.Back? then (if h.cur == 0 then h else h.(cur := h.cur - 1))
    else (if h.cur + 1 < |h.versions| then h.(cur := h.cur + 1) else h)
  }

  function SpecWalk(h: History, ms: seq<Move>): (r: History)
    decreases |ms|
  {
    if ms == [] then h else SpecWalk(SpecGo(h, ms[0]), ms[1..])
  }

  lemma {:induction false} WalkAppend<S>(go: (S, Move) -> S, s: S, a: seq<Move>, b: seq<Move>)
    ensures Walk(go, s, a + b) == Walk(go, Walk(go, s, a), b)
    decreases |a|
  {
    if a == [] {
      assert a + b == b;
    } else {
      assert (a + b)[1..] == a[1..] + b;
      WalkAppend(go, go(s, a[0]), a[1..], b);
    }
  }

  lemma OneBack<S>(go: (S, Move) -> S, s: S)
    ensures Walk(go, s, [Back]) == go(s, Back)
  {
    assert [Back][1..] == [];
    assert Walk(go, go(s, Back), []) == go(s, Back);
  }

  lemma {:induction false} SpecWalkAppend(h: History, a: seq<Move>, b: seq<Move>)
    ensures SpecWalk(h, a + b) == SpecWalk(SpecWalk(h, a), b)
    decreases |a|
  {
    if a == [] {
      assert a + b == b;
    } else {
      assert (a + b)[1..] == a[1..] + b;
      SpecWalkAppend(SpecGo(h, a[0]), a[1..], b);
    }
  }

  function Times(m: Move, n: nat): (r: seq<Move>)
    ensures |r| == n && forall i :: 0 <= i < n ==> r[i] == m
  {
    seq(n, _ => m)
  }

  lemma TimesStep(m: Move, n: nat)
    requires n > 0
    ensures Times(m, n)[0] == m && Times(m, n)[1..] == Times(m, n - 1)
  {
  }

  lemma {:induction false} SpecBack(h: History, n: nat)
    requires n <= h.cur
    ensures SpecWalk(h, Times(Back, n)) == h.(cur := h.cur - n)
    decreases n
  {
    if n > 0 {
      TimesStep(Back, n);
      SpecBack(h.(cur := h.cur - 1), n - 1);
    }
  }

  lemma {:induction false} SpecForth(h: History, n: nat)
    requires h.cur + n < |h.versions|
    ensures SpecWalk(h, Times(Forth, n)) == h.(cur := h.cur + n)
    decreases n
  {
    if n > 0 {
      TimesStep(Forth, n);
      SpecForth(h.(cur := h.cur + 1), n - 1);
    }
  }

  /** What one move keeps, a walk keeps. */
  lemma {:induction false} WalkKeeps<S(!new)>(go: (S, Move) -> S, s: S, m: Move, n: nat, ok: (S, nat) -> bool)
    requires ok(s, 0) && forall t, i: nat :: i < n && ok(t, i) ==> ok(go(t, m), i + 1)
    ensures ok(Walk(go, s, Times(m, n)), n)
    decreases n
  {
    if n > 0 {
      TimesStep(m, n);
      var next := (t: S, i: nat) => ok(t, i + 1);
      forall t, i: nat | i < n - 1 && next(t, i) ensures next(go(t, m), i + 1) {
        assert ok(go(t, m), i + 1 + 1);
      }
      WalkKeeps(go, go(s, m), m, n - 1, next);
    }
  }

  /** One more step back. */
  lemma OneMore<S(!new)>(go: (S, Move) -> S, s: S, n: nat, before: S -> bool, after: S -> bool)
    requires before(Walk(go, s, Times(Back, n))) && forall t :: before(t) ==> after(go(t, Back))
    ensures after(Walk(go, s, Times(Back, n + 1)))
  {
    assert Times(Back, n + 1) == Times(Back, n) + [Back];
    WalkAppend(go, s, Times(Back, n), [Back]);
    OneBack(go, Walk(go, s, Times(Back, n)));
  }

  /** Two walks in a row. */
  lemma Onwards<S(!new)>(go: (S, Move) -> S, s: S, a: seq<Move>, b: seq<Move>, low: S -> bool, after: S -> bool)
    requires low(Walk(go, s, a)) && forall t :: low(t) ==> after(Walk(go, t, b))
    ensures after(Walk(go, s, a + b))
  {
    WalkAppend(go, s, a, b);
  }

  /** Up, and one back. */
  lemma UpBack<S(!new)>(go: (S, Move) -> S, t: S, up: nat, high: S -> bool, after: S -> bool)
    requires high(Walk(go, t, Times(Forth, up))) && forall u :: high(u) ==> after(go(u, Back))
    ensures after(Walk(go, t, Times(Forth, up) + [Back]))
  {
    WalkAppend(go, t, Times(Forth, up), [Back]);
    OneBack(go, Walk(go, t, Times(Forth, up)));
  }

  // Going down -----------------------------------------------------------------------------

  /** A reference in the document sits only at its entry's place. */
  ghost predicate Placed(s: Stack, h: History, e: int)
    requires Real(s, h, e)
  {
    forall q :: MarkAt(s.tree, q, Id(s, e)) ==> q == h.places[e].value
  }

  /** The state while entries are undone for the first time, whatever the
      places: those still to be undone stand alone. */
  ghost predicate Descending(g: Grammar, s: Stack, h: History)
  {
    && Base(g, s, h) && Numbered(s) && DistinctIds(s, h) && IdsGiven(s, h)
    && BelowStored(s, h) && AbovePlaced(s, h) && AboveElsewhere(s, h)
  }

  ghost predicate BelowStored(s: Stack, h: History)
  {
    forall i :: Real(s, h, i) && i <= h.cur ==> Stored(s, h, i)
  }

  ghost predicate AbovePlaced(s: Stack, h: History)
  {
    forall e :: Real(s, h, e) && e > h.cur ==> Placed(s, h, e)
  }

  ghost predicate ApartFrom(s: Stack, i: int, e: int)
    requires 0 <= i < |s.diffs| && 0 <= e < |s.diffs| && s.diffs[i].before.Some? && s.diffs[e].before.Some?
  {
    Id(s, i) in s.loose && Absent(s.loose[Id(s, i)], Id(s, e))
  }

  ghost predicate AboveElsewhere(s: Stack, h: History)
  {
    forall i, e :: Real(s, h, i) && Real(s, h, e) && i <= h.cur < e ==> ApartFrom(s, i, e)
  }

  lemma KeptDescends(g: Grammar, s: Stack, h: History)
    requires Kept(g, s, h) && h.cur + 1 == |h.versions|
    ensures Descending(g, s, h)
  {
    HomesGiven(s, h);
    forall i | Real(s, h, i) ensures i <= h.cur && Stored(s, h, i) {
      assert i < |h.places|;
    }
  }

  ghost predicate AllReal(s: Stack, h: History)
  {
    forall i :: 1 <= i < |h.places| ==> Real(s, h, i)
  }

  lemma DescendPlaced(g: Grammar, s: Stack, h: History, t: Stack, e: nat)
    requires Descending(g, s, h) && Real(s, h, s.curr) && UndoShape(s, h, t) && Real(s, h, e) && e > h.cur
    ensures Id(t, e) == Id(s, e) && Placed(t, h, e)
  {
    var (p, c) := (h.places[s.curr].value, s.curr);
    assert ApartFrom(s, c, e);
    InstalledAbsent(s, h, Id(s, e));
    forall q | MarkAt(t.tree, q, Id(s, e)) ensures q == h.places[e].value {
      PutMark(s.tree, p, Marked(s.loose[Id(s, c)], s.next), q, Id(s, e));
    }
  }

  lemma DescendStored(g: Grammar, s: Stack, h: History, t: Stack, i: nat)
    requires Descending(g, s, h) && Real(s, h, s.curr) && UndoShape(s, h, t) && Real(s, h, i) && i < h.cur
    ensures Id(t, i) == Id(s, i) && Stored(t, h.(cur := h.cur - 1), i) && t.loose[Id(s, i)] == s.loose[Id(s, i)]
  {
    UndoKeepsAlone(s, h, t, Id(s, i));
  }

  lemma DescendBelow(g: Grammar, s: Stack, h: History, t: Stack, k: History)
    requires Descending(g, s, h) && Real(s, h, s.curr) && UndoShape(s, h, t) && h.cur > 0 && k == h.(cur := h.cur - 1)
    ensures BelowStored(t, k)
  {
    forall i | Real(t, k, i) && i <= k.cur ensures Stored(t, k, i) {
      assert Real(s, h, i);
      DescendStored(g, s, h, t, i);
    }
  }

  lemma DescendAbove(g: Grammar, s: Stack, h: History, t: Stack, k: History)
    requires Descending(g, s, h) && Real(s, h, s.curr) && UndoShape(s, h, t) && h.cur > 0 && k == h.(cur := h.cur - 1)
    ensures AbovePlaced(t, k)
  {
    assert Stored(s, h, s.curr);
    UndoInstalls(s, h, t);
    forall e | Real(t, k, e) && e > k.cur ensures Placed(t, k, e) {
      assert Real(s, h, e);
      if e != s.curr {
        DescendPlaced(g, s, h, t, e);
      }
    }
  }

  lemma DescendElsewhere(g: Grammar, s: Stack, h: History, t: Stack, k: History)
    requires Descending(g, s, h) && Real(s, h, s.curr) && UndoShape(s, h, t) && h.cur > 0 && k == h.(cur := h.cur - 1)
    ensures AboveElsewhere(t, k)
  {
    forall i, e | Real(t, k, i) && Real(t, k, e) && i <= k.cur < e ensures ApartFrom(t, i, e) {
      assert Real(s, h, i) && Real(s, h, e);
      DescendStored(g, s, h, t, i);
      if e == s.curr {
        assert NotLoose(s, s.next);
      } else {
        assert ApartFrom(s, i, e);
      }
    }
  }

  lemma DescendOne(g: Grammar, s: Stack, h: History)
    requires GrammarOk(g) && Descending(g, s, h) && AllReal(s, h) && s.curr > 0
    ensures var (t, k) := (Undo(g, s), h.(cur := h.cur - 1)); UndoShape(s, h, t) && Descending(g, t, k) && AllReal(t, k)
  {
    var (t, k) := (Undo(g, s), h.(cur := h.cur - 1));
    assert Real(s, h, s.curr) && Stored(s, h, s.curr);
    UndoForm(g, s, h);
    UndoVersion(g, s, h, t);
    UndoMovesBack(g, s, h, t);
    UndoBase(g, s, h, t);
    UndoNumbered(s, h, t);
    UndoDistinct(s, h, t, k);
    DescendBelow(g, s, h, t, k);
    DescendAbove(g, s, h, t, k);
    DescendElsewhere(g, s, h, t, k);
    DescendGiven(s, h, t, k);
  }

  lemma DescendGiven(s: Stack, h: History, t: Stack, k: History)
    requires IdsGiven(s, h) && Real(s, h, s.curr) && UndoShape(s, h, t) && k == h.(cur := k.cur) && AllReal(s, h)
    ensures IdsGiven(t, k) && AllReal(t, k)
  {
    forall i | 1 <= i < |k.places| ensures Real(t, k, i) && Id(t, i) < t.next {
      assert Real(s, h, i);
    }
  }

  /** The node of an undone entry is part of the document and nowhere else. */
  ghost predicate Pinned(s: Stack, h: History, k: int)
    requires Real(s, h, k)
  {
    Only(s.tree, Id(s, k), h.places[k].value) && NotLoose(s, Id(s, k))
  }

  lemma PinnedStays(g: Grammar, s: Stack, h: History, t: Stack, k: nat)
    requires Descending(g, s, h) && Real(s, h, s.curr) && UndoShape(s, h, t) && Real(s, h, k) && k > h.cur
    requires Pinned(s, h, k) && !Covers(h.places, s.curr, k)
    ensures Id(t, k) == Id(s, k) && Pinned(t, h, k)
  {
    UndoKeepsOnly(s, h, t, Id(s, k), h.places[k].value);
  }

  /** On the way down, with the node of entry k in the document once undone. */
  ghost predicate OnTheWay(g: Grammar, s: Stack, h: History, k: int)
  {
    && Descending(g, s, h) && AllReal(s, h) && Real(s, h, k)
    && (k > h.cur ==> Pinned(s, h, k))
  }

  /** Undoing entries that do not cover k leaves its node in the document. */
  lemma DescendTo(g: Grammar, s: Stack, h: History, n: nat, k: nat)
    requires GrammarOk(g) && OnTheWay(g, s, h, k) && n <= h.cur
    requires forall m :: h.cur - n < m < k ==> !Covers(h.places, m, k)
    ensures OnTheWay(g, Walk(Mover(g), s, Times(Back, n)), h.(cur := h.cur - n), k)
  {
    DescendAlways(g, h, n, k);
    assert h.(cur := h.cur - 0) == h;
    WalkKeeps(Mover(g), s, Back, n, Way(g, h, n, k));
  }

  ghost function Way(g: Grammar, h: History, n: nat, k: nat): (ok: (Stack, nat) -> bool)
    requires n <= h.cur
  {
    (t: Stack, i: nat) => i <= n && OnTheWay(g, t, h.(cur := h.cur - i), k)
  }

  lemma DescendAlways(g: Grammar, h: History, n: nat, k: nat)
    requires GrammarOk(g) && n <= h.cur && forall m :: h.cur - n < m < k ==> !Covers(h.places, m, k)
    ensures forall t, i: nat :: i < n && Way(g, h, n, k)(t, i) ==> Way(g, h, n, k)(Mover(g)(t, Back), i + 1)
  {
    var ok := Way(g, h, n, k);
    forall t, i: nat | i < n && ok(t, i) ensures ok(Mover(g)(t, Back), i + 1) {
      DescendStep(g, t, h.(cur := h.cur - i), k);
    }
  }

  lemma DescendStep(g: Grammar, s: Stack, h: History, k: nat)
    requires GrammarOk(g) && OnTheWay(g, s, h, k) && h.cur > 0 && (k > h.cur ==> !Covers(h.places, h.cur, k))
    ensures OnTheWay(g, Go(g, s, Back), h.(cur := h.cur - 1), k)
  {
    PinnedNext(g, s, h, k);
  }

  lemma PinnedNext(g: Grammar, s: Stack, h: History, k: nat)
    requires GrammarOk(g) && OnTheWay(g, s, h, k) && h.cur > 0 && (k > h.cur ==> !Covers(h.places, h.cur, k))
    ensures OnTheWay(g, Undo(g, s), h.(cur := h.cur - 1), k)
  {
    var (t, f) := (Undo(g, s), h.(cur := h.cur - 1));
    DescendOne(g, s, h);
    assert Real(s, h, h.cur) && Stored(s, h, h.cur);
    if k > h.cur {
      PinnedStays(g, s, h, t, k);
    } else if k == h.cur {
      UndoInstalls(s, h, t);
    }
  }

  // The last edit's node leaves the document -----------------------------------------------------

  /** The node of entry k stands alone and is x. */
  ghost predicate Aside(s: Stack, h: History, k: int, x: SNode)
  {
    Real(s, h, k) && Alone(s, Id(s, k)) && s.loose[Id(s, k)] == x
  }

  /** The node of entry j is inside that of entry k, and nowhere else. */
  ghost predicate Inside(s: Stack, h: History, j: int, k: int)
  {
    && Real(s, h, j) && Real(s, h, k) && Id(s, k) in s.loose && Id(s, j) !in s.loose && Absent(s.tree, Id(s, j))
    && Within(h.places, j, k)
    && Only(s.loose[Id(s, k)], Id(s, j), h.places[j].value[|h.places[k].value|..])
    && forall m :: m in s.loose && m != Id(s, k) ==> Absent(s.loose[m], Id(s, j))
  }

  /** Edit l is the last one before the last edit k to cover its place. */
  ghost predicate LastCover(ps: seq<Option<Path>>, l: int, k: int)
  {
    1 <= l < k == |ps| - 1 && Covers(ps, l, k) && forall m :: l < m < k ==> !Covers(ps, m, k)
  }

  lemma NothingAbove(g: Grammar, s: Stack, h: History, k: nat, r: Path, other: nat)
    requires Descending(g, s, h) && LastCover(h.places, h.cur, k) && Real(s, h, k)
    requires h.places[h.cur].value <= r < h.places[k].value && MarkAt(s.tree, r, other)
    ensures other !in Held(s.diffs)
  {
    if other in Held(s.diffs) {
      var e := HeldIs(g, s, h, other);
      if e > h.cur {
        assert Covers(h.places, e, k);
      }
      assert false;
    }
  }

  lemma DetachLast(g: Grammar, s: Stack, h: History, k: nat)
    requires GrammarOk(g) && OnTheWay(g, s, h, k) && LastCover(h.places, h.cur, k)
    ensures var (t, f) := (Undo(g, s), h.(cur := h.cur - 1));
            && Base(g, t, f) && Numbered(t) && AllReal(t, f)
            && Id(t, k) == Id(s, k) && Aside(t, f, k, SAt(s.tree, h.places[k].value))
  {
    var t := Undo(g, s);
    DescendOne(g, s, h);
    assert Real(s, h, h.cur) && Stored(s, h, h.cur);
    RealIsHeld(g, s, h, k);
    forall r, other | h.places[h.cur].value <= r < h.places[k].value && MarkAt(s.tree, r, other)
      ensures other !in Held(s.diffs)
    {
      NothingAbove(g, s, h, k, r, other);
    }
    UndoDetaches(s, h, t, Id(s, k), h.places[k].value);
  }

  /** Within the node that leaves, an inner node stays in its place. */
  lemma SubOnlyAt(n: SNode, id: nat, q: Path, p: Path)
    requires Only(n, id, p) && q <= p
    ensures SValid(n, q) && Only(SAt(n, q), id, p[|q|..])
  {
    assert q + p[|q|..] == p;
    ValidAbove(n, q, p);
    forall v ensures MarkAt(SAt(n, q), v, id) <==> v == p[|q|..] {
      SubMark(n, q, v, id);
    }
  }

  lemma {:induction false} ValidAbove(n: SNode, q: Path, p: Path)
    requires SValid(n, p) && q <= p
    ensures SValid(n, q)
  {
    if q != [] {
      ValidAbove(n.Kids()[p[0]], q[1..], p[1..]);
    }
  }

  /** No other piece takes the inner node along. */
  lemma InnerStaysInside(g: Grammar, s: Stack, h: History, k: nat, j: nat, m: nat)
    requires GrammarOk(g) && OnTheWay(g, s, h, k) && OnTheWay(g, s, h, j) && LastCover(h.places, h.cur, k)
    requires Within(h.places, j, k)
    requires SValid(s.tree, h.places[h.cur].value) && j > h.cur
    requires m in Pieces(SAt(s.tree, h.places[h.cur].value), Held(s.diffs)) && m != Id(s, k)
    ensures m != Id(s, j) && Absent(Pieces(SAt(s.tree, h.places[h.cur].value), Held(s.diffs))[m], Id(s, j))
  {
    var (p, held, idj) := (h.places[h.cur].value, Held(s.diffs), Id(s, j));
    var n := SAt(s.tree, p);
    var v := PieceOf(n, held, m);
    SubMark(s.tree, p, v, m);
    forall w ensures !MarkAt(SAt(n, v), w, idj) {
      SubMark(n, v, w, idj);
      SubMark(s.tree, p, v + w, idj);
      assert p + (v + w) == (p + v) + w;
      if MarkAt(SAt(n, v), w, idj) {
        PieceAtPlace(g, s, h, k, j, m, v);
      }
    }
    assert MarkAt(SAt(n, v), [], m);
  }

  lemma PieceAtPlace(g: Grammar, s: Stack, h: History, k: nat, j: nat, m: nat, v: Path)
    requires GrammarOk(g) && OnTheWay(g, s, h, k) && LastCover(h.places, h.cur, k) && Within(h.places, j, k)
    requires SValid(s.tree, h.places[h.cur].value) && k > h.cur && m in Held(s.diffs)
    requires MarkAt(s.tree, h.places[h.cur].value + v, m) && h.places[h.cur].value + v <= h.places[j].value
    requires Outermost(SAt(s.tree, h.places[h.cur].value), Held(s.diffs), v)
    ensures m == Id(s, k)
  {
    var (p, pk) := (h.places[h.cur].value, h.places[k].value);
    RealIsHeld(g, s, h, k);
    var rk := pk[|p|..];
    assert p + rk == pk;
    SubMark(s.tree, p, rk, Id(s, k));
    assert pk < p + v ==> rk < v;
    assert p + v < pk || p + v == pk || pk < p + v;
    if p + v < pk {
      NothingAbove(g, s, h, k, p + v, m);
    }
  }

  /** The inner node has left the document with the other. */
  lemma InnerLeaves(g: Grammar, s: Stack, h: History, t: Stack, j: nat)
    requires Descending(g, s, h) && Real(s, h, s.curr) && UndoShape(s, h, t) && Real(s, h, j) && j > h.cur
    requires Pinned(s, h, j) && Covers(h.places, h.cur, j)
    ensures Absent(t.tree, Id(s, j))
  {
    var (p, idj) := (h.places[h.cur].value, Id(s, j));
    assert ApartFrom(s, h.cur, j);
    InstalledAbsent(s, h, idj);
    forall q ensures !MarkAt(t.tree, q, idj) {
      PutMark(s.tree, p, Marked(s.loose[Id(s, h.cur)], s.next), q, idj);
    }
  }

  lemma InnerElsewhere(g: Grammar, s: Stack, h: History, t: Stack, k: nat, j: nat, m: nat)
    requires GrammarOk(g) && OnTheWay(g, s, h, k) && OnTheWay(g, s, h, j) && LastCover(h.places, h.cur, k)
    requires Within(h.places, j, k) && h.cur < j < k && Real(s, h, s.curr) && UndoShape(s, h, t)
    requires m in t.loose && m != Id(s, k)
    ensures m != Id(s, j) && Absent(t.loose[m], Id(s, j))
  {
    assert Pinned(s, h, j);
    if m in Pieces(SAt(s.tree, h.places[h.cur].value), Held(s.diffs)) {
      InnerStaysInside(g, s, h, k, j, m);
    }
  }

  lemma DetachInner(g: Grammar, s: Stack, h: History, k: nat, j: nat)
    requires GrammarOk(g) && OnTheWay(g, s, h, k) && OnTheWay(g, s, h, j) && LastCover(h.places, h.cur, k)
    requires Within(h.places, j, k) && h.cur < j < k
    ensures var (t, f) := (Undo(g, s), h.(cur := h.cur - 1)); Id(t, j) == Id(s, j) && Inside(t, f, j, k)
  {
    var t := Undo(g, s);
    DetachLast(g, s, h, k);
    DescendOne(g, s, h);
    assert Real(s, h, h.cur) && Real(s, h, j) && Real(s, h, k) && Pinned(s, h, j);
    SubOnlyAt(s.tree, Id(s, j), h.places[k].value, h.places[j].value);
    InnerLeaves(g, s, h, t, j);
    forall m | m in t.loose && m != Id(s, k) ensures m != Id(s, j) && Absent(t.loose[m], Id(s, j)) {
      InnerElsewhere(g, s, h, t, k, j, m);
    }
  }

  // Going up again -----------------------------------------------------------------------------------

  /** A redo leaves alone what is not in the document. */
  lemma ClimbOne(g: Grammar, s: Stack, h: History, k: nat, x: SNode)
    requires GrammarOk(g) && Base(g, s, h) && Numbered(s) && AllReal(s, h) && Aside(s, h, k, x)
    requires h.cur + 1 < |h.versions|
    ensures var (t, f) := (Redo(g, s), h.(cur := h.cur + 1));
            && Base(g, t, f) && Numbered(t) && AllReal(t, f) && Aside(t, f, k, x) && Id(t, k) == Id(s, k)
            && forall j :: Inside(s, h, j, k) ==> Inside(t, f, j, k)
  {
    var (t, f) := (Redo(g, s), h.(cur := h.cur + 1));
    assert Real(s, h, s.curr + 1);
    RedoForm(g, s, h);
    RedoBase(g, s, h, t);
    RedoNumbered(s, h, t);
    RedoKeeps(s, h, t, Id(s, k));
    forall i | 1 <= i < |f.places| ensures Real(t, f, i) {
      assert Real(s, h, i);
    }
    forall j | Inside(s, h, j, k) ensures Inside(t, f, j, k) {
      RedoKeeps(s, h, t, Id(s, j));
    }
  }

  /** On the way up, with the node of entry k set aside and, if any, that of
      entry j inside it. */
  ghost predicate Climbing(g: Grammar, s: Stack, h: History, k: int, x: SNode, j: int)
  {
    && Base(g, s, h) && Numbered(s) && AllReal(s, h) && Aside(s, h, k, x)
    && (j > 0 ==> Inside(s, h, j, k))
  }

  lemma ClimbTo(g: Grammar, s: Stack, h: History, n: nat, k: nat, x: SNode, j: nat)
    requires GrammarOk(g) && Climbing(g, s, h, k, x, j) && h.cur + n < |h.versions|
    ensures Climbing(g, Walk(Mover(g), s, Times(Forth, n)), h.(cur := h.cur + n), k, x, j)
  {
    ClimbAlways(g, h, n, k, x, j);
    assert h.(cur := h.cur + 0) == h;
    WalkKeeps(Mover(g), s, Forth, n, Climb(g, h, k, x, j));
  }

  ghost function Climb(g: Grammar, h: History, k: nat, x: SNode, j: nat): (ok: (Stack, nat) -> bool)
  {
    (t: Stack, i: nat) => Climbing(g, t, h.(cur := h.cur + i), k, x, j)
  }

  lemma ClimbAlways(g: Grammar, h: History, n: nat, k: nat, x: SNode, j: nat)
    requires GrammarOk(g) && h.cur + n < |h.versions|
    ensures forall t, i: nat :: i < n && Climb(g, h, k, x, j)(t, i) ==> Climb(g, h, k, x, j)(Mover(g)(t, Forth), i + 1)
  {
    var ok := Climb(g, h, k, x, j);
    forall t, i: nat | i < n && ok(t, i) ensures ok(Mover(g)(t, Forth), i + 1) {
      ClimbStep(g, t, h.(cur := h.cur + i), k, x, j);
    }
  }

  lemma ClimbFrom(g: Grammar, s: Stack, h: History, c: nat, d: nat, k: nat, x: SNode, j: nat)
    requires GrammarOk(g) && c <= d < |h.versions| && Climbing(g, s, h.(cur := c), k, x, j)
    ensures Climbing(g, Walk(Mover(g), s, Times(Forth, d - c)), h.(cur := d), k, x, j)
  {
    ClimbTo(g, s, h.(cur := c), d - c, k, x, j);
  }

  lemma ClimbStep(g: Grammar, s: Stack, h: History, k: nat, x: SNode, j: nat)
    requires GrammarOk(g) && Climbing(g, s, h, k, x, j) && h.cur + 1 < |h.versions|
    ensures Climbing(g, Go(g, s, Forth), h.(cur := h.cur + 1), k, x, j)
  {
    ClimbOne(g, s, h, k, x);
  }

  /** The last undo puts in place whatever the node has become. */
  lemma LastUndo(g: Grammar, s: Stack, h: History, k: nat, x: SNode)
    requires GrammarOk(g) && Climbing(g, s, h, k, x, 0) && h.cur == k
    ensures Valid(h.versions[k], h.places[k].value)
    ensures Go(g, s, Back).Doc() == Put(h.versions[k], h.places[k].value, Erase(x))
  {
    UndoForm(g, s, h);
    UndoDoc(s, h, Undo(g, s));
  }

  // Sessions that fail -------------------------------------------------------------------------------

  /** The history just after its last edit. */
  ghost predicate AtTop(g: Grammar, s: Stack, h: History, k: nat)
  {
    GrammarOk(g) && Descending(g, s, h) && AllReal(s, h) && h.cur == k == |h.versions| - 1
  }

  lemma TopOnTheWay(g: Grammar, s: Stack, h: History, k: nat, i: nat)
    requires AtTop(g, s, h, k) && 1 <= i <= k
    ensures OnTheWay(g, s, h, i)
  {
  }

  lemma DescendFromTop(g: Grammar, s: Stack, h: History, l: nat, k: nat, i: nat)
    requires AtTop(g, s, h, k) && 1 <= l < i <= k && forall m :: l < m < i ==> !Covers(h.places, m, i)
    ensures OnTheWay(g, Walk(Mover(g), s, Times(Back, k - l)), h.(cur := l), i)
  {
    TopOnTheWay(g, s, h, k, i);
    DescendTo(g, s, h, k - l, i);
  }

  /** At the bottom: the last edit's node is aside, with what its place held
      after edit l, and, if any, with the node of edit j inside. */
  ghost predicate AtBottom(g: Grammar, t: Stack, h: History, l: int, j: int, k: int)
  {
    && 1 <= l <= k < |h.versions| == |h.places| && Real(t, h, k) && Id(t, k) in t.loose
    && Climbing(g, t, h.(cur := l - 1), k, t.loose[Id(t, k)], j)
    && Valid(h.versions[l], h.places[k].value)
    && Erase(t.loose[Id(t, k)]) == At(h.versions[l], h.places[k].value)
  }

  ghost function Bottom(g: Grammar, h: History, l: nat, j: nat, k: nat): (ok: Stack -> bool)
  {
    (t: Stack) => AtBottom(g, t, h, l, j, k)
  }

  ghost function Before(g: Grammar, h: History, l: nat, j: nat, k: nat): (ok: Stack -> bool)
  {
    (t: Stack) => OnTheWay(g, t, h.(cur := l), k) && (j > 0 ==> OnTheWay(g, t, h.(cur := l), j))
  }

  /** The step that takes the last edit's node out of the document. */
  lemma LeavesAlways(g: Grammar, h: History, l: nat, j: nat, k: nat)
    requires GrammarOk(g) && LastCover(h.places, l, k) && (j > 0 ==> Within(h.places, j, k) && l < j < k)
    ensures forall t :: Before(g, h, l, j, k)(t) ==> Bottom(g, h, l, j, k)(Mover(g)(t, Back))
  {
    var (before, after) := (Before(g, h, l, j, k), Bottom(g, h, l, j, k));
    forall t | before(t) ensures after(Mover(g)(t, Back)) {
      LeavesLast(g, t, h.(cur := l), k);
      if j > 0 {
        LeavesWithInner(g, t, h.(cur := l), k, j);
      }
    }
  }

  lemma BeforeTop(g: Grammar, s: Stack, h: History, l: nat, j: nat, k: nat)
    requires AtTop(g, s, h, k) && LastCover(h.places, l, k) && (j > 0 ==> FirstInside(h.places, l, j, k))
    ensures Before(g, h, l, j, k)(Walk(Mover(g), s, Times(Back, k - l)))
  {
    DescendFromTop(g, s, h, l, k, k);
    if j > 0 {
      forall m | l < m < j ensures !Covers(h.places, m, j) {
        InnerNotCovered(h.places, l, j, k, m);
      }
      DescendFromTop(g, s, h, l, k, j);
    }
  }

  /** Undoing everything down to and including edit l. */
  lemma DownFinish(g: Grammar, s: Stack, h: History, l: nat, j: nat, k: nat)
    requires GrammarOk(g) && LastCover(h.places, l, k) && (j > 0 ==> Within(h.places, j, k) && l < j < k)
    requires Before(g, h, l, j, k)(Walk(Mover(g), s, Times(Back, k - l)))
    ensures Bottom(g, h, l, j, k)(Walk(Mover(g), s, Times(Back, k - l + 1)))
  {
    var (before, after) := (Before(g, h, l, j, k), Bottom(g, h, l, j, k));
    assert forall t :: before(t) ==> after(Mover(g)(t, Back)) by {
      LeavesAlways(g, h, l, j, k);
    }
    OneMore(Mover(g), s, k - l, before, after);
  }

  lemma WhatItHolds(g: Grammar, s: Stack, h: History, k: nat)
    requires OnTheWay(g, s, h, k) && k > h.cur
    ensures SValid(s.tree, h.places[k].value) && h.cur < |h.versions| && Valid(h.versions[h.cur], h.places[k].value)
    ensures Erase(SAt(s.tree, h.places[k].value)) == At(h.versions[h.cur], h.places[k].value)
  {
    assert Pinned(s, h, k);
    EraseAt(s.tree, h.places[k].value);
  }

  lemma LeavesLast(g: Grammar, s: Stack, h: History, k: nat)
    requires GrammarOk(g) && OnTheWay(g, s, h, k) && LastCover(h.places, h.cur, k)
    ensures AtBottom(g, Go(g, s, Back), h, h.cur, 0, k)
  {
    WhatItHolds(g, s, h, k);
    DetachLast(g, s, h, k);
  }

  lemma LeavesWithInner(g: Grammar, s: Stack, h: History, k: nat, j: nat)
    requires GrammarOk(g) && OnTheWay(g, s, h, k) && OnTheWay(g, s, h, j) && LastCover(h.places, h.cur, k)
    requires Within(h.places, j, k) && h.cur < j < k
    ensures Inside(Go(g, s, Back), h.(cur := h.cur - 1), j, k)
  {
    DetachInner(g, s, h, k, j);
  }

  /** All the way down to l, up again, and one back. */
  function ShortSession(l: nat, k: nat): (ms: seq<Move>)
    requires l <= k
  {
    Times(Back, k - l + 1) + (Times(Forth, k - l + 1) + [Back])
  }

  /** The document shows the version before edit k, except that its place holds
      something else. */
  ghost predicate Ends(h: History, k: int, t: Stack, x: Node)
  {
    0 <= k < |h.versions| == |h.places| && h.places[k].Some? && Valid(h.versions[k], h.places[k].value)
    && t.Doc() == Put(h.versions[k], h.places[k].value, x)
  }

  lemma ToHigh(g: Grammar, t: Stack, h: History, l: nat, k: nat)
    requires GrammarOk(g) && AtBottom(g, t, h, l, 0, k)
    ensures HighAgain(g, Walk(Mover(g), t, Times(Forth, k - l + 1)), h, k, At(h.versions[l], h.places[k].value))
  {
    ClimbFrom(g, t, h, l - 1, k, k, t.loose[Id(t, k)], 0);
  }

  lemma HighEnd(g: Grammar, t: Stack, h: History, k: nat, x: Node)
    requires GrammarOk(g) && HighAgain(g, t, h, k, x) && 1 <= k
    ensures Ends(h, k, Go(g, t, Back), x)
  {
    LastUndo(g, t, h.(cur := k), k, t.loose[Id(t, k)]);
  }

  lemma ShortUp(g: Grammar, t: Stack, h: History, l: nat, k: nat)
    requires GrammarOk(g) && AtBottom(g, t, h, l, 0, k)
    ensures Ends(h, k, Walk(Mover(g), t, Times(Forth, k - l + 1) + [Back]), At(h.versions[l], h.places[k].value))
  {
    var x := At(h.versions[l], h.places[k].value);
    var high := (u: Stack) => HighAgain(g, u, h, k, x);
    var after := (u: Stack) => Ends(h, k, u, x);
    ToHigh(g, t, h, l, k);
    forall u | high(u) ensures after(Mover(g)(u, Back)) {
      HighEnd(g, u, h, k, x);
    }
    UpBack(Mover(g), t, k - l + 1, high, after);
  }

  ghost function Ending(h: History, k: nat, x: Node): (ok: Stack -> bool)
  {
    (t: Stack) => Ends(h, k, t, x)
  }

  lemma ShortAlways(g: Grammar, h: History, l: nat, k: nat, x: Node)
    requires GrammarOk(g) && 1 <= l <= k < |h.versions| == |h.places| && h.places[k].Some?
    requires Valid(h.versions[l], h.places[k].value) && x == At(h.versions[l], h.places[k].value)
    ensures forall t :: Bottom(g, h, l, 0, k)(t) ==>
              Ending(h, k, x)(Walk(Mover(g), t, Times(Forth, k - l + 1) + [Back]))
  {
    var (low, after) := (Bottom(g, h, l, 0, k), Ending(h, k, x));
    forall t | low(t) ensures after(Walk(Mover(g), t, Times(Forth, k - l + 1) + [Back])) {
      ShortUp(g, t, h, l, k);
    }
  }

  lemma BottomValid(g: Grammar, t: Stack, h: History, l: nat, j: nat, k: nat)
    requires Bottom(g, h, l, j, k)(t)
    ensures 1 <= l <= k < |h.versions| == |h.places| && h.places[k].Some? && Valid(h.versions[l], h.places[k].value)
  {
  }

  /** It shows the last edit's place as it was after edit l. */
  lemma ShortOutcome(g: Grammar, s: Stack, h: History, l: nat, k: nat)
    requires GrammarOk(g) && LastCover(h.places, l, k) && Before(g, h, l, 0, k)(Walk(Mover(g), s, Times(Back, k - l)))
    ensures l < |h.versions| && Valid(h.versions[l], h.places[k].value)
    ensures Ending(h, k, At(h.versions[l], h.places[k].value))(Walk(Mover(g), s, ShortSession(l, k)))
  {
    DownFinish(g, s, h, l, 0, k);
    ShortFinish(g, s, h, l, k, Times(Back, k - l + 1));
  }

  lemma ShortFinish(g: Grammar, s: Stack, h: History, l: nat, k: nat, a: seq<Move>)
    requires GrammarOk(g) && Bottom(g, h, l, 0, k)(Walk(Mover(g), s, a)) && 1 <= l <= k
    ensures l < |h.versions| && k < |h.places| && h.places[k].Some? && Valid(h.versions[l], h.places[k].value)
    ensures var x := At(h.versions[l], h.places[k].value);
            Ending(h, k, x)(Walk(Mover(g), s, a + (Times(Forth, k - l + 1) + [Back])))
  {
    BottomValid(g, Walk(Mover(g), s, a), h, l, 0, k);
    var x := At(h.versions[l], h.places[k].value);
    ShortAlways(g, h, l, k, x);
    Onwards(Mover(g), s, a, Times(Forth, k - l + 1) + [Back], Bottom(g, h, l, 0, k), Ending(h, k, x));
  }

  /** Up again at the last edit, whose node is aside and says x. */
  ghost predicate HighAgain(g: Grammar, t: Stack, h: History, k: int, x: Node)
  {
    && 0 <= k < |h.versions| && Real(t, h, k) && Id(t, k) in t.loose
    && Climbing(g, t, h.(cur := k), k, t.loose[Id(t, k)], 0) && Erase(t.loose[Id(t, k)]) == x
  }

  // Taking the inner node out ------------------------------------------------------------------------

  lemma {:induction false} FindLooseIs(loose: map<nat, SNode>, id: nat, k: nat, p: Path, n: nat)
    requires k in loose && Only(loose[k], id, p) && k < n
    requires forall m :: m in loose && m != k ==> Absent(loose[m], id)
    ensures FindLoose(loose, id, n) == Some(SAt(loose[k], p))
  {
    if n - 1 == k {
      FindOnly(loose[k], id, p);
    } else {
      if n - 1 in loose {
        FindAbsent(loose[n-1], id);
      }
      FindLooseIs(loose, id, k, p, n - 1);
    }
  }

  lemma FetchInner(s: Stack, h: History, j: nat, k: nat)
    requires Inside(s, h, j, k) && Id(s, k) < s.next
    ensures var r := h.places[j].value[|h.places[k].value|..];
            SValid(s.loose[Id(s, k)], r) && Fetch(s, Id(s, j)) == Some(SAt(s.loose[Id(s, k)], r))
  {
    FindAbsent(s.tree, Id(s, j));
    FindLooseIs(s.loose, Id(s, j), Id(s, k), h.places[j].value[|h.places[k].value|..], s.next);
  }

  /** The document once the inner node has been moved from x to its place. */
  ghost predicate Moved(s: Stack, h: History, j: int, k: int, x: SNode, t: Stack)
    requires Real(s, h, j) && Real(s, h, k) && Within(h.places, j, k)
  {
    var (p, r) := (h.places[j].value, h.places[j].value[|h.places[k].value|..]);
    && SValid(s.tree, p) && SValid(x, r)
    && t.tree == SPut(s.tree, p, Marked(SAt(x, r), s.next)) && t.next == s.next + 1
    && t.loose == RemoveLoose(Replace(s, p, Marked(SAt(x, r), s.next)).loose, Id(s, j))
  }

  lemma UndoInnerForm(g: Grammar, s: Stack, h: History, j: nat, k: nat, x: SNode)
    requires GrammarOk(g) && Climbing(g, s, h, k, x, j) && h.cur == j >= 1 && Id(s, k) < s.next && Id(s, j) < s.next
    ensures Moved(s, h, j, k, x, Undo(g, s)) && MovedBack(s, h, Undo(g, s))
  {
    var (p, idj) := (h.places[j].value, Id(s, j));
    assert EntryOk(g, s, h, j);
    var was := h.versions[j-1];
    QuerySurvivesEdit(g, was, p, At(s.Doc(), p));
    PrintNotEmpty(g, was, p);
    SeekFinds(g, s, p);
    FetchInner(s, h, j, k);
    assert !MarkAt(s.tree, p, idj);
    EraseAt(s.tree, p);
    var r := p[|h.places[k].value|..];
    SubOnly(x, idj, r);
    InnerElem(x, r, idj);
    RenumberedAbsent(SAt(x, r), idj, s.next);
    ReplaceKeeps(s, p, Marked(SAt(x, r), s.next), idj);
    RemoveAbsent(SPut(s.tree, p, Marked(SAt(x, r), s.next)), idj);
  }

  lemma InnerElem(x: SNode, r: Path, id: nat)
    requires MarkAt(x, r, id)
    ensures SAt(x, r).SElem?
  {
  }

  lemma {:induction false} RemoveKeepsAbsent(n: SNode, id: nat, other: nat)
    requires Absent(n, other)
    ensures Absent(Remove(n, id), other)
    decreases n, 1
  {
    if n.SElem? {
      forall i | 0 <= i < |n.kids| ensures Absent(n.kids[i], other) {
        forall p ensures !MarkAt(n.kids[i], p, other) {
          KidMark(n, i, p, other);
        }
      }
      RemoveAllKeepsAbsent(n.kids, id, other);
      assert !MarkAt(n, [], other);
      var m := Remove(n, id);
      assert m.kids == RemoveAll(n.kids, id);
      KidsAbsent(m, other);
    }
  }

  lemma {:induction false} RemoveAllKeepsAbsent(kids: seq<SNode>, id: nat, other: nat)
    requires forall i :: 0 <= i < |kids| ==> Absent(kids[i], other)
    ensures forall i :: 0 <= i < |RemoveAll(kids, id)| ==> Absent(RemoveAll(kids, id)[i], other)
    decreases kids, 0
  {
    if kids != [] {
      RemoveKeepsAbsent(kids[0], id, other);
      RemoveAllKeepsAbsent(kids[1..], id, other);
    }
  }

  lemma KidsAbsent(n: SNode, other: nat)
    requires n.SElem? && forall i :: 0 <= i < |n.kids| ==> Absent(n.kids[i], other)
    ensures forall p :: p != [] ==> !MarkAt(n, p, other)
    ensures n.mark != Some(other) ==> Absent(n, other)
  {
    forall p | p != [] ensures !MarkAt(n, p, other) {
      if MarkAt(n, p, other) {
        assert MarkAt(n.kids[p[0]], p[1..], other);
      }
    }
  }

  lemma RemoveKeepsRoot(n: SNode, id: nat, own: nat)
    requires Only(n, own, []) && n.SElem?
    ensures Only(Remove(n, id), own, [])
  {
    forall i | 0 <= i < |n.kids| ensures Absent(n.kids[i], own) {
      forall p ensures !MarkAt(n.kids[i], p, own) {
        KidMark(n, i, p, own);
      }
    }
    assert MarkAt(n, [], own) && n.SElem?;
    RemoveAllKeepsAbsent(n.kids, id, own);
    var m := Remove(n, id);
    assert m.kids == RemoveAll(n.kids, id);
    KidsAbsent(m, own);
    assert MarkAt(m, [], own);
  }

  /** Entry k's node is still aside, without its inner node. */
  lemma MovedAside(g: Grammar, s: Stack, h: History, j: nat, k: nat, x: SNode, t: Stack)
    requires Climbing(g, s, h, k, x, j) && j >= 1 && Moved(s, h, j, k, x, t)
    requires |t.diffs| == |s.diffs| && t.diffs[k] == s.diffs[k] && Id(s, k) < s.next && Id(s, k) != Id(s, j)
    ensures Real(t, h, k) && Aside(t, h, k, Remove(x, Id(s, j))) && Size(Remove(x, Id(s, j))) < Size(x)
  {
    var (p, r, idj, idk) := (h.places[j].value, h.places[j].value[|h.places[k].value|..], Id(s, j), Id(s, k));
    var y := Marked(SAt(x, r), s.next);
    InnerElem(x, r, idj);
    forall q ensures !MarkAt(SAt(x, r), q, idk) {
      SubMark(x, r, q, idk);
      assert r + q != [];
    }
    MarkedAbsent(SAt(x, r), s.next, idk);
    ReplaceKeeps(s, p, y, idk);
    assert MarkAt(x, [], idk);
    RemoveKeepsRoot(x, idj, idk);
    RemoveInside(x, idj, r);
    forall m | m in t.loose && m != idk ensures Absent(t.loose[m], idk) {
      RemoveKeepsAbsent(Replace(s, p, y).loose[m], idj, idk);
    }
  }

  lemma MovedNumbered(g: Grammar, s: Stack, h: History, j: nat, k: nat, x: SNode, t: Stack)
    requires Climbing(g, s, h, k, x, j) && j >= 1 && Moved(s, h, j, k, x, t)
    ensures Numbered(t)
  {
    var (p, r, idj) := (h.places[j].value, h.places[j].value[|h.places[k].value|..], Id(s, j));
    var y := Marked(SAt(x, r), s.next);
    InnerElem(x, r, idj);
    forall id | id >= t.next ensures Absent(t.tree, id) && NotLoose(t, id) {
      assert Absent(s.tree, id) && NotLoose(s, id) && Absent(x, id);
      forall q ensures !MarkAt(SAt(x, r), q, id) {
        SubMark(x, r, q, id);
      }
      MarkedAbsent(SAt(x, r), s.next, id);
      ReplaceKeeps(s, p, y, id);
      forall m | m in t.loose ensures Absent(t.loose[m], id) {
        RemoveKeepsAbsent(Replace(s, p, y).loose[m], idj, id);
      }
    }
  }

  lemma {:induction false} AtAppend(n: Node, p: Path, q: Path)
    requires Valid(n, p + q)
    ensures Valid(n, p) && Valid(At(n, p), q) && At(At(n, p), q) == At(n, p + q)
  {
    if p == [] {
      assert p + q == q;
    } else {
      assert (p + q)[1..] == p[1..] + q;
      AtAppend(n.Kids()[p[0]], p[1..], q);
    }
  }

  /** No edit between l and j touches the place of edit k. */
  ghost predicate ApartBetween(ps: seq<Option<Path>>, l: int, j: int, k: int)
  {
    forall m :: l < m < j ==> !Covers(ps, m, k) && !Within(ps, m, k)
  }

  /** The inner node is what its place held before edit j. */
  lemma InnerHolds(g: Grammar, s: Stack, h: History, l: nat, j: nat, k: nat, x: SNode)
    requires Base(g, s, h) && Real(s, h, j) && Real(s, h, k) && Within(h.places, j, k) && 1 <= l < j < k < |h.versions|
    requires SValid(x, h.places[j].value[|h.places[k].value|..])
    requires Valid(h.versions[l], h.places[k].value) && Erase(x) == At(h.versions[l], h.places[k].value)
    requires ApartBetween(h.places, l, j, k)
    ensures Valid(h.versions[j-1], h.places[j].value)
    ensures Erase(SAt(x, h.places[j].value[|h.places[k].value|..])) == At(h.versions[j-1], h.places[j].value)
  {
    var (p, pk) := (h.places[j].value, h.places[k].value);
    var r := p[|pk|..];
    assert p == pk + r;
    assert EntryOk(g, s, h, j);
    AtAppend(h.versions[j-1], pk, r);
    Undisturbed(g, s, h, l, j - 1, k);
    EraseAt(x, r);
  }

  /** A node that says what was there before gives the version before. */
  lemma PutsBack(tree: SNode, p: Path, y: SNode, was: Node)
    requires SValid(tree, p) && Valid(was, p) && Erase(y) == At(was, p)
    requires Valid(Erase(tree), p) && Erase(tree) == Put(was, p, At(Erase(tree), p))
    ensures Erase(SPut(tree, p, y)) == was
  {
    ErasePut(tree, p, y);
    Restored(was, Erase(tree), p);
  }

  lemma MovedDoc(g: Grammar, s: Stack, h: History, l: nat, j: nat, k: nat, x: SNode, t: Stack)
    requires Base(g, s, h) && Real(s, h, j) && Real(s, h, k) && Within(h.places, j, k)
    requires h.cur == j && 1 <= l < j < k < |h.versions| && Moved(s, h, j, k, x, t) && ApartBetween(h.places, l, j, k)
    requires Valid(h.versions[l], h.places[k].value) && Erase(x) == At(h.versions[l], h.places[k].value)
    ensures t.Doc() == h.versions[j-1]
  {
    InnerHolds(g, s, h, l, j, k, x);
    var (p, r) := (h.places[j].value, h.places[j].value[|h.places[k].value|..]);
    assert EntryOk(g, s, h, j);
    PutsBack(s.tree, p, Marked(SAt(x, r), s.next), h.versions[j-1]);
  }

  /** The state after the inner node has been moved. */
  lemma MovedClimbs(g: Grammar, s: Stack, h: History, l: nat, j: nat, k: nat, x: SNode, t: Stack)
    requires Climbing(g, s, h, k, x, j) && h.cur == j && 1 <= l < j < k < |h.versions|
    requires Moved(s, h, j, k, x, t) && MovedBack(s, h, t) && ApartBetween(h.places, l, j, k)
    requires Valid(h.versions[l], h.places[k].value) && Erase(x) == At(h.versions[l], h.places[k].value)
    ensures Climbing(g, t, h.(cur := j - 1), k, Remove(x, Id(s, j)), 0) && Size(Remove(x, Id(s, j))) < Size(x)
  {
    GivenInside(g, s, h, j, k, x);
    MovedDoc(g, s, h, l, j, k, x, t);
    UndoBase(g, s, h, t);
    MovedNumbered(g, s, h, j, k, x, t);
    MovedAside(g, s, h, j, k, x, t);
    var f := h.(cur := j - 1);
    forall i | 1 <= i < |f.places| ensures Real(t, f, i) {
      assert Real(s, h, i);
    }
  }

  /** The turn of the long session: edit j is undone once more. */
  lemma TurnAtInner(g: Grammar, s: Stack, h: History, l: nat, j: nat, k: nat, x: SNode)
    requires GrammarOk(g) && Climbing(g, s, h, k, x, j) && h.cur == j && 1 <= l < j < k < |h.versions|
    requires ApartBetween(h.places, l, j, k)
    requires Valid(h.versions[l], h.places[k].value) && Erase(x) == At(h.versions[l], h.places[k].value)
    ensures Climbing(g, Undo(g, s), h.(cur := j - 1), k, Remove(x, Id(s, j)), 0) && Size(Remove(x, Id(s, j))) < Size(x)
  {
    GivenInside(g, s, h, j, k, x);
    UndoInnerForm(g, s, h, j, k, x);
    MovedClimbs(g, s, h, l, j, k, x, Undo(g, s));
  }

  lemma GivenInside(g: Grammar, s: Stack, h: History, j: nat, k: nat, x: SNode)
    requires Climbing(g, s, h, k, x, j) && j >= 1
    ensures Real(s, h, j) && Real(s, h, k) && Id(s, k) < s.next && Id(s, j) < s.next && Id(s, j) != Id(s, k)
  {
    assert !NotLoose(s, Id(s, k)) && !NotLoose(s, Id(s, j));
  }

  /** Down to l, up to j, edit j undone once more, up to k, and one back. */
  function LongSession(l: nat, j: nat, k: nat): (ms: seq<Move>)
    requires l <= j <= k
  {
    Times(Back, k - l + 1) + ((Times(Forth, j - l + 1) + [Back]) + (Times(Forth, k - j + 1) + [Back]))
  }

  /** Edit j is the first one after l inside the place of the last edit k. */
  ghost predicate FirstInside(ps: seq<Option<Path>>, l: int, j: int, k: int)
  {
    l < j < k && Within(ps, j, k) && forall m :: l < m < j ==> !Within(ps, m, k)
  }

  lemma InnerNotCovered(ps: seq<Option<Path>>, l: nat, j: nat, k: nat, m: nat)
    requires LastCover(ps, l, k) && FirstInside(ps, l, j, k) && l < m < j
    ensures !Covers(ps, m, j)
  {
    assert !Covers(ps, m, k) && !Within(ps, m, k);
    if ps[m].Some? && ps[m].value <= ps[j].value {
      PrefixChain(ps[m].value, ps[k].value, ps[j].value);
    }
  }

  lemma PrefixChain(a: Path, b: Path, c: Path)
    requires a <= c && b <= c
    ensures a <= b || b < a
  {
    assert a == c[..|a|] && b == c[..|b|];
  }

  /** Edit j's node has been moved out, so the last edit's node is smaller. */
  ghost predicate Smaller(g: Grammar, t: Stack, h: History, c: int, k: int, x: Node)
  {
    && 0 <= c < |h.versions| && Real(t, h, k) && Id(t, k) in t.loose
    && Climbing(g, t, h.(cur := c), k, t.loose[Id(t, k)], 0) && Size(t.loose[Id(t, k)]) < Size(Copy(x))
  }

  /** Edit j is reached again with its node still inside. */
  ghost predicate AtTurn(g: Grammar, t: Stack, h: History, j: int, k: int, x: Node)
  {
    && 1 <= j < |h.versions| && Real(t, h, k) && Id(t, k) in t.loose
    && Climbing(g, t, h.(cur := j), k, t.loose[Id(t, k)], j) && Erase(t.loose[Id(t, k)]) == x
  }

  ghost predicate EndsSmaller(h: History, k: int, t: Stack, x: Node)
  {
    exists y :: Size(y) < Size(Copy(x)) && Ends(h, k, t, Erase(y))
  }

  lemma TurnsSmaller(g: Grammar, t: Stack, h: History, l: nat, j: nat, k: nat, x: Node)
    requires GrammarOk(g) && AtTurn(g, t, h, j, k, x) && 1 <= l < j < k < |h.versions|
    requires h.places[k].Some? && Valid(h.versions[l], h.places[k].value) && x == At(h.versions[l], h.places[k].value)
    requires ApartBetween(h.places, l, j, k)
    ensures Smaller(g, Go(g, t, Back), h, j - 1, k, x)
  {
    var y := t.loose[Id(t, k)];
    EraseCopy(x);
    SameSize(y, Copy(x));
    TurnAtInner(g, t, h.(cur := j), l, j, k, y);
  }

  lemma ToTheTurn(g: Grammar, t: Stack, h: History, l: nat, j: nat, k: nat)
    requires GrammarOk(g) && l < j < k && AtBottom(g, t, h, l, j, k)
    ensures AtTurn(g, Walk(Mover(g), t, Times(Forth, j - l + 1)), h, j, k, At(h.versions[l], h.places[k].value))
  {
    ClimbFrom(g, t, h, l - 1, j, k, t.loose[Id(t, k)], j);
  }

  lemma ToTheTop(g: Grammar, t: Stack, h: History, j: nat, k: nat, x: Node)
    requires GrammarOk(g) && 1 <= j < k < |h.versions| && Smaller(g, t, h, j - 1, k, x)
    ensures Smaller(g, Walk(Mover(g), t, Times(Forth, k - j + 1)), h, k, k, x)
  {
    ClimbFrom(g, t, h, j - 1, k, k, t.loose[Id(t, k)], 0);
  }

  lemma SmallerEnd(g: Grammar, t: Stack, h: History, k: nat, x: Node)
    requires GrammarOk(g) && Smaller(g, t, h, k, k, x) && 1 <= k
    ensures EndsSmaller(h, k, Go(g, t, Back), x)
  {
    LastUndo(g, t, h.(cur := k), k, t.loose[Id(t, k)]);
    assert Ends(h, k, Go(g, t, Back), Erase(t.loose[Id(t, k)]));
  }

  /** Up to the inner edit, and one back. */
  lemma LongFirst(g: Grammar, t: Stack, h: History, l: nat, j: nat, k: nat)
    requires GrammarOk(g) && l < j < k && AtBottom(g, t, h, l, j, k)
    requires ApartBetween(h.places, l, j, k)
    ensures Smaller(g, Walk(Mover(g), t, Times(Forth, j - l + 1) + [Back]), h, j - 1, k,
            At(h.versions[l], h.places[k].value))
  {
    var x := At(h.versions[l], h.places[k].value);
    var turn := (u: Stack) => AtTurn(g, u, h, j, k, x);
    var again := (u: Stack) => Smaller(g, u, h, j - 1, k, x);
    ToTheTurn(g, t, h, l, j, k);
    forall u | turn(u) ensures again(Mover(g)(u, Back)) {
      TurnsSmaller(g, u, h, l, j, k, x);
    }
    UpBack(Mover(g), t, j - l + 1, turn, again);
  }

  /** Up to the last edit, and one back. */
  lemma LongSecond(g: Grammar, t: Stack, h: History, j: nat, k: nat, x: Node)
    requires GrammarOk(g) && 1 <= j < k < |h.versions| && Smaller(g, t, h, j - 1, k, x)
    ensures EndsSmaller(h, k, Walk(Mover(g), t, Times(Forth, k - j + 1) + [Back]), x)
  {
    var high := (u: Stack) => Smaller(g, u, h, k, k, x);
    var after := (u: Stack) => EndsSmaller(h, k, u, x);
    ToTheTop(g, t, h, j, k, x);
    forall u | high(u) ensures after(Mover(g)(u, Back)) {
      SmallerEnd(g, u, h, k, x);
    }
    UpBack(Mover(g), t, k - j + 1, high, after);
  }

  lemma LongUp(g: Grammar, t: Stack, h: History, l: nat, j: nat, k: nat)
    requires GrammarOk(g) && l < j < k && AtBottom(g, t, h, l, j, k)
    requires ApartBetween(h.places, l, j, k)
    ensures var ms := (Times(Forth, j - l + 1) + [Back]) + (Times(Forth, k - j + 1) + [Back]);
            EndsSmaller(h, k, Walk(Mover(g), t, ms), At(h.versions[l], h.places[k].value))
  {
    var (b, c) := (Times(Forth, j - l + 1) + [Back], Times(Forth, k - j + 1) + [Back]);
    LongFirst(g, t, h, l, j, k);
    LongSecond(g, Walk(Mover(g), t, b), h, j, k, At(h.versions[l], h.places[k].value));
    WalkAppend(Mover(g), t, b, c);
  }

  ghost function EndingSmaller(h: History, k: nat, x: Node): (ok: Stack -> bool)
  {
    (t: Stack) => EndsSmaller(h, k, t, x)
  }

  lemma LongAlways(g: Grammar, h: History, l: nat, j: nat, k: nat, x: Node)
    requires GrammarOk(g) && 1 <= l < j < k < |h.versions| == |h.places| && ApartBetween(h.places, l, j, k)
    requires h.places[k].Some?
    requires Valid(h.versions[l], h.places[k].value) && x == At(h.versions[l], h.places[k].value)
    ensures var ms := (Times(Forth, j - l + 1) + [Back]) + (Times(Forth, k - j + 1) + [Back]);
            forall t :: Bottom(g, h, l, j, k)(t) ==> EndingSmaller(h, k, x)(Walk(Mover(g), t, ms))
  {
    var (low, after) := (Bottom(g, h, l, j, k), EndingSmaller(h, k, x));
    forall t | low(t)
      ensures after(Walk(Mover(g), t, (Times(Forth, j - l + 1) + [Back]) + (Times(Forth, k - j + 1) + [Back])))
    {
      LongUp(g, t, h, l, j, k);
    }
  }

  /** The long session ends with the last edit's node one node short. */
  lemma LongOutcome(g: Grammar, s: Stack, h: History, l: nat, j: nat, k: nat)
    requires GrammarOk(g) && LastCover(h.places, l, k) && FirstInside(h.places, l, j, k)
    requires Before(g, h, l, j, k)(Walk(Mover(g), s, Times(Back, k - l)))
    ensures l < |h.versions| && Valid(h.versions[l], h.places[k].value)
    ensures EndingSmaller(h, k, At(h.versions[l], h.places[k].value))(Walk(Mover(g), s, LongSession(l, j, k)))
  {
    FirstApart(h.places, l, j, k);
    DownFinish(g, s, h, l, j, k);
    LongFinish(g, s, h, l, j, k, Times(Back, k - l + 1));
  }

  lemma FirstApart(ps: seq<Option<Path>>, l: nat, j: nat, k: nat)
    requires LastCover(ps, l, k) && FirstInside(ps, l, j, k)
    ensures ApartBetween(ps, l, j, k)
  {
  }

  lemma LongFinish(g: Grammar, s: Stack, h: History, l: nat, j: nat, k: nat, a: seq<Move>)
    requires GrammarOk(g) && Bottom(g, h, l, j, k)(Walk(Mover(g), s, a)) && 1 <= l < j < k
    requires ApartBetween(h.places, l, j, k)
    ensures l < |h.versions| && k < |h.places| && h.places[k].Some? && Valid(h.versions[l], h.places[k].value)
    ensures EndingSmaller(h, k, At(h.versions[l], h.places[k].value))(
              Walk(Mover(g), s, a + ((Times(Forth, j - l + 1) + [Back]) + (Times(Forth, k - j + 1) + [Back]))))
  {
    BottomValid(g, Walk(Mover(g), s, a), h, l, j, k);
    var x := At(h.versions[l], h.places[k].value);
    LongAlways(g, h, l, j, k, x);
    var b := (Times(Forth, j - l + 1) + [Back]) + (Times(Forth, k - j + 1) + [Back]);
    Onwards(Mover(g), s, a, b, Bottom(g, h, l, j, k), EndingSmaller(h, k, x));
  }

  lemma SpecUpBack(h: History, c: nat, d: nat)
    requires c <= d < |h.versions| && d >= 1
    ensures SpecWalk(h.(cur := c), Times(Forth, d - c) + [Back]) == h.(cur := d - 1)
  {
    SpecForth(h.(cur := c), d - c);
    SpecWalkAppend(h.(cur := c), Times(Forth, d - c), [Back]);
    SpecOneBack(h.(cur := d));
  }

  lemma ShortEnds(h: History, l: nat, k: nat)
    requires 1 <= l <= k == h.cur == |h.versions| - 1
    ensures SpecWalk(h, ShortSession(l, k)) == h.(cur := k - 1)
  {
    SpecBack(h, k - l + 1);
    SpecUpBack(h, l - 1, k);
    SpecWalkAppend(h, Times(Back, k - l + 1), Times(Forth, k - l + 1) + [Back]);
  }

  lemma LongEnds(h: History, l: nat, j: nat, k: nat)
    requires 1 <= l <= j <= k == h.cur == |h.versions| - 1
    ensures SpecWalk(h, LongSession(l, j, k)) == h.(cur := k - 1)
  {
    var (a, b, c) := (Times(Back, k - l + 1), Times(Forth, j - l + 1) + [Back], Times(Forth, k - j + 1) + [Back]);
    SpecBack(h, k - l + 1);
    SpecUpBack(h, l - 1, j);
    SpecUpBack(h, j - 1, k);
    SpecWalkAppend(h, a, b + c);
    SpecWalkAppend(h.(cur := l - 1), b, c);
  }

  lemma SpecOneBack(h: History)
    ensures SpecWalk(h, [Back]) == SpecGo(h, Back)
  {
    assert [Back][1..] == [];
    assert SpecWalk(SpecGo(h, Back), []) == SpecGo(h, Back);
  }

  /** The document a session shows is the version it should show. */
  ghost predicate Shows(g: Grammar, s: Stack, h: History, ms: seq<Move>)
  {
    var f := SpecWalk(h, ms);
    f.cur < |f.versions| && Walk(Mover(g), s, ms).Doc() == f.versions[f.cur]
  }

  /** Another content of the last edit's place is another document. */
  lemma EndsElsewhere(h: History, k: nat, t: Stack, x: Node)
    requires Ends(h, k, t, x) && k >= 1 && Valid(h.versions[k-1], h.places[k].value)
    requires h.versions[k-1] == Put(h.versions[k], h.places[k].value, At(h.versions[k-1], h.places[k].value))
    requires x != At(h.versions[k-1], h.places[k].value)
    ensures t.Doc() != h.versions[k-1]
  {
    var p := h.places[k].value;
    AtPut(h.versions[k], p, x);
  }

  lemma SmallerElsewhere(h: History, k: nat, t: Stack, x: Node)
    requires EndsSmaller(h, k, t, x) && k >= 1 && h.places[k].Some? && Valid(h.versions[k-1], h.places[k].value)
    requires Valid(h.versions[k], h.places[k].value)
    requires h.versions[k-1] == Put(h.versions[k], h.places[k].value, At(h.versions[k-1], h.places[k].value))
    requires x == At(h.versions[k-1], h.places[k].value)
    ensures t.Doc() != h.versions[k-1]
  {
    var y :| Size(y) < Size(Copy(x)) && Ends(h, k, t, Erase(y));
    if Erase(y) == x {
      EraseCopy(x);
      SameSize(y, Copy(x));
    }
    EndsElsewhere(h, k, t, Erase(y));
  }

  /** One of the two sessions fails. */
  lemma UnsafeFails(g: Grammar, s: Stack, h: History, l: nat, j: nat, k: nat) returns (ms: seq<Move>)
    requires AtTop(g, s, h, k) && LastCover(h.places, l, k) && FirstInside(h.places, l, j, k)
    ensures !Shows(g, s, h, ms)
  {
    LastEntry(g, s, h, k);
    BeforeTop(g, s, h, l, 0, k);
    ShortOutcome(g, s, h, l, k);
    var x := At(h.versions[l], h.places[k].value);
    if x != At(h.versions[k-1], h.places[k].value) {
      ms := ShortSession(l, k);
      ShortFails(g, s, h, l, k, x);
    } else {
      ms := LongSession(l, j, k);
      BeforeTop(g, s, h, l, j, k);
      LongOutcome(g, s, h, l, j, k);
      LongFails(g, s, h, l, j, k, x);
    }
  }

  /** The last edit, by its place and its two versions. */
  ghost predicate LastEdit(h: History, k: nat)
  {
    && 1 <= k < |h.places| == |h.versions| && h.cur == k == |h.versions| - 1 && h.places[k].Some?
    && Valid(h.versions[k-1], h.places[k].value) && Valid(h.versions[k], h.places[k].value)
    && h.versions[k-1] == Put(h.versions[k], h.places[k].value, At(h.versions[k-1], h.places[k].value))
  }

  lemma ShortFails(g: Grammar, s: Stack, h: History, l: nat, k: nat, x: Node)
    requires LastEdit(h, k) && 1 <= l <= k && x != At(h.versions[k-1], h.places[k].value)
    requires Ending(h, k, x)(Walk(Mover(g), s, ShortSession(l, k)))
    ensures !Shows(g, s, h, ShortSession(l, k))
  {
    ShortEnds(h, l, k);
    EndsElsewhere(h, k, Walk(Mover(g), s, ShortSession(l, k)), x);
    NotShown(g, s, h, k, ShortSession(l, k));
  }

  lemma NotShown(g: Grammar, s: Stack, h: History, k: nat, ms: seq<Move>)
    requires 1 <= k < |h.versions| && SpecWalk(h, ms) == h.(cur := k - 1)
    requires Walk(Mover(g), s, ms).Doc() != h.versions[k-1]
    ensures !Shows(g, s, h, ms)
  {
  }

  lemma LongFails(g: Grammar, s: Stack, h: History, l: nat, j: nat, k: nat, x: Node)
    requires LastEdit(h, k) && 1 <= l <= j <= k && x == At(h.versions[k-1], h.places[k].value)
    requires EndingSmaller(h, k, x)(Walk(Mover(g), s, LongSession(l, j, k)))
    ensures !Shows(g, s, h, LongSession(l, j, k))
  {
    LongEnds(h, l, j, k);
    SmallerElsewhere(h, k, Walk(Mover(g), s, LongSession(l, j, k)), x);
    NotShown(g, s, h, k, LongSession(l, j, k));
  }

  lemma LastEntry(g: Grammar, s: Stack, h: History, k: nat)
    requires AtTop(g, s, h, k) && k >= 1
    ensures LastEdit(h, k)
  {
    assert Real(s, h, k) && EntryOk(g, s, h, k);
    Restored(h.versions[k-1], h.versions[k], h.places[k].value);
  }

  // The exact condition ------------------------------------------------------------------------------------

  /** The change of a node. */
  datatype Change = Change(p: Path, x: Node)

  /** A local edit that does not merge, on the stack and on the list. */
  ghost predicate MadeBy(g: Grammar, s: Stack, h: History, e: Change, t: Stack, k: History)
  {
    && h.cur < |h.versions| == |h.places| && Valid(s.Doc(), e.p)
    && Local(g, h.versions[h.cur], e.p, e.x)
    && t == Edit(g, s, e.p, e.x, "null", NoArgs)
    && k == Append(h, Put(h.versions[h.cur], e.p, e.x), Some(e.p))
  }

  /** The stacks and the histories while a list of edits is made. */
  ghost predicate Making(g: Grammar, doc: Node, es: seq<Change>, ss: seq<Stack>, hs: seq<History>)
  {
    && |ss| == |hs| == |es| + 1 && ss[0] == Fresh(doc) && hs[0] == Begin(doc)
    && forall i :: 0 <= i < |es| ==> MadeBy(g, ss[i], hs[i], es[i], ss[i+1], hs[i+1])
  }

  function Places(es: seq<Change>): (ps: seq<Option<Path>>)
    ensures |ps| == |es| + 1 && ps[0] == None
    ensures forall i :: 1 <= i < |ps| ==> ps[i] == Some(es[i-1].p)
  {
    [None] + seq(|es|, i requires 0 <= i < |es| => Some(es[i].p))
  }

  lemma PlacesPrefix(es: seq<Change>, n: nat)
    requires n <= |es|
    ensures Places(es[..n]) == Places(es)[..n+1]
  {
  }

  ghost predicate MadeOk(g: Grammar, s: Stack, h: History, es: seq<Change>)
  {
    && Kept(g, s, h) && AllReal(s, h) && |s.diffs| == CAPACITY
    && h.cur == |es| == |h.versions| - 1 && h.places == Places(es)
  }

  lemma {:induction false} MadeKept(g: Grammar, doc: Node, es: seq<Change>, ss: seq<Stack>, hs: seq<History>, n: nat)
    requires GrammarOk(g) && Making(g, doc, es, ss, hs) && |es| < CAPACITY && n <= |es|
    ensures MadeOk(g, ss[n], hs[n], es[..n])
  {
    if n == 0 {
      MadeFirst(g, doc);
    } else {
      MadeKept(g, doc, es, ss, hs, n - 1);
      assert es[..n-1] + [es[n-1]] == es[..n];
      assert MadeBy(g, ss[n-1], hs[n-1], es[n-1], ss[n], hs[n]);
      MadeStep(g, ss[n-1], hs[n-1], es[..n-1], es[n-1], ss[n], hs[n]);
    }
  }

  lemma MadeFirst(g: Grammar, doc: Node)
    ensures MadeOk(g, Fresh(doc), Begin(doc), [])
  {
    FreshRel(g, doc);
  }

  lemma MadeStep(g: Grammar, s: Stack, h: History, es: seq<Change>, e: Change, t: Stack, k: History)
    requires GrammarOk(g) && MadeOk(g, s, h, es) && |es| + 1 < CAPACITY && MadeBy(g, s, h, e, t, k)
    ensures MadeOk(g, t, k, es + [e])
  {
    EditKept(g, s, h, e.p, e.x, "null", NoArgs);
    assert h.places[..h.cur+1] == h.places;
    assert k.places == Places(es + [e]);
    MadeReal(g, t, k);
  }

  lemma MadeReal(g: Grammar, s: Stack, h: History)
    requires Base(g, s, h) && forall i :: 1 <= i < |h.places| ==> h.places[i].Some?
    ensures AllReal(s, h)
  {
    forall i | 1 <= i < |h.places| ensures Real(s, h, i) {
      assert EntryOk(g, s, h, i);
    }
  }

  lemma {:induction false} WalkRefines(g: Grammar, s: Stack, h: History, ms: seq<Move>)
    requires GrammarOk(g) && Rel(g, s, h) && |h.versions| < |s.diffs|
    ensures Rel(g, Walk(Mover(g), s, ms), SpecWalk(h, ms))
    decreases |ms|
  {
    if ms != [] {
      MoveRefines(g, s, h, ms[0]);
      WalkRefines(g, Go(g, s, ms[0]), SpecGo(h, ms[0]), ms[1..]);
    }
  }

  lemma MoveRefines(g: Grammar, s: Stack, h: History, m: Move)
    requires GrammarOk(g) && Rel(g, s, h) && |h.versions| < |s.diffs|
    ensures Rel(g, Go(g, s, m), SpecGo(h, m)) && |Go(g, s, m).diffs| == |s.diffs|
  {
    if m.Back? {
      if s.curr > 0 {
        UndoRefines(g, s, h);
      }
      MoveKeepsCapacity(g, s, m);
    } else {
      RedoRefines(g, s, h);
      MoveKeepsCapacity(g, s, m);
    }
  }

  lemma MoveKeepsCapacity(g: Grammar, s: Stack, m: Move)
    ensures |Go(g, s, m).diffs| == |s.diffs|
  {
  }

  /** Every session of undos and redos, begun after any number of the edits,
      shows the version it should. */
  ghost predicate AllShow(g: Grammar, ss: seq<Stack>, hs: seq<History>)
    requires |ss| == |hs|
  {
    forall n, ms :: 0 <= n < |ss| ==> Shows(g, ss[n], hs[n], ms)
  }

  lemma LastBefore(ps: seq<Option<Path>>, k: nat, hi: nat) returns (l: nat)
    requires Cut(ps, 0, hi, k) && hi <= k
    ensures 0 < l < hi && Covers(ps, l, k) && forall m :: l < m < hi ==> !Covers(ps, m, k)
    decreases hi
  {
    if Covers(ps, hi - 1, k) {
      l := hi - 1;
    } else {
      l := LastBefore(ps, k, hi - 1);
    }
  }

  lemma FirstWithin(ps: seq<Option<Path>>, l: nat, j: nat, k: nat) returns (i: nat)
    requires l < j < k && Within(ps, j, k)
    ensures FirstInside(ps, l, i, k)
    decreases j - l
  {
    if m :| l < m < j && Within(ps, m, k) {
      i := FirstWithin(ps, l, m, k);
    } else {
      i := j;
    }
  }

  lemma UnsafePrefix(g: Grammar, doc: Node, es: seq<Change>, ss: seq<Stack>, hs: seq<History>)
      returns (n: nat, ms: seq<Move>)
    requires GrammarOk(g) && Making(g, doc, es, ss, hs) && |es| + 1 < CAPACITY && !Safe(Places(es))
    ensures n <= |es| && !Shows(g, ss[n], hs[n], ms)
  {
    var ps := Places(es);
    var j, k :| 1 <= j < k < |ps| && Within(ps, j, k) && Cut(ps, 0, j, k) && !Cut(ps, j, k, k);
    n := k;
    PlacesPrefix(es, k);
    CutPrefix(ps, Places(es[..k]), j, k);
    MadeKept(g, doc, es, ss, hs, k);
    ms := UnsafeLast(g, ss[k], hs[k], es[..k], j, k);
  }

  lemma UnsafeLast(g: Grammar, s: Stack, h: History, es: seq<Change>, j: nat, k: nat) returns (ms: seq<Move>)
    requires GrammarOk(g) && MadeOk(g, s, h, es) && |es| == k && 1 <= j < k
    requires Within(h.places, j, k) && Cut(h.places, 0, j, k) && forall m :: j < m < k ==> !Covers(h.places, m, k)
    ensures !Shows(g, s, h, ms)
  {
    var l := LastBefore(h.places, k, j);
    assert !Covers(h.places, j, k);
    assert LastCover(h.places, l, k);
    var i := FirstWithin(h.places, l, j, k);
    KeptDescends(g, s, h);
    ms := UnsafeFails(g, s, h, l, i, k);
  }

  lemma CutPrefix(ps: seq<Option<Path>>, qs: seq<Option<Path>>, j: nat, k: nat)
    requires 1 <= j < k < |ps| && |qs| == k + 1 && forall i :: 1 <= i <= k ==> qs[i] == ps[i]
    requires Within(ps, j, k) && Cut(ps, 0, j, k) && !Cut(ps, j, k, k)
    ensures Within(qs, j, k) && Cut(qs, 0, j, k) && forall m :: j < m < k ==> !Covers(qs, m, k)
  {
    var l :| 0 < l < j && Covers(ps, l, k);
    assert Covers(qs, l, k);
    forall m | j < m < k ensures !Covers(qs, m, k) {
      assert Covers(qs, m, k) ==> Covers(ps, m, k);
    }
  }

  /** For every list of local edits: all sessions of undos and redos show the
      version they should, at every moment, if and only if the places of the
      edits are safe. */
  lemma UndoExact(g: Grammar, doc: Node, es: seq<Change>, ss: seq<Stack>, hs: seq<History>)
    requires GrammarOk(g) && Making(g, doc, es, ss, hs) && |es| + 1 < CAPACITY
    ensures AllShow(g, ss, hs) <==> Safe(Places(es))
  {
    if Safe(Places(es)) {
      forall n, ms | 0 <= n < |ss| ensures Shows(g, ss[n], hs[n], ms) {
        SafeShows(g, doc, es, ss, hs, n, ms);
      }
    } else {
      var n, ms := UnsafePrefix(g, doc, es, ss, hs);
    }
  }

  lemma SafeShows(g: Grammar, doc: Node, es: seq<Change>, ss: seq<Stack>, hs: seq<History>, n: nat, ms: seq<Move>)
    requires GrammarOk(g) && Making(g, doc, es, ss, hs) && |es| + 1 < CAPACITY && Safe(Places(es)) && n <= |es|
    ensures Shows(g, ss[n], hs[n], ms)
  {
    MadeKept(g, doc, es, ss, hs, n);
    PlacesPrefix(es, n);
    SafePrefix(Places(es), n + 1);
    MadeShows(g, ss[n], hs[n], es[..n], ms);
  }

  lemma MadeShows(g: Grammar, s: Stack, h: History, es: seq<Change>, ms: seq<Move>)
    requires GrammarOk(g) && MadeOk(g, s, h, es) && |es| + 1 < CAPACITY && Safe(Places(es))
    ensures Shows(g, s, h, ms)
  {
    WalkRefines(g, s, h, ms);
  }
}
