/** Edits that merge with the entry on top while redo entries wait: exactly when
    they are harmless, and a session in which one is lost. */
module DiffMerge {
  import opened Common
  import opened Dom
  import opened Shared
  import opened XQuery
  import opened XQueryRoundTrip
  import opened DiffStack
  import opened DiffRefinement

  // Retouching ---------------------------------------------------------------------------

  /** Only attributes other than the name have changed, anywhere inside. */
  predicate Retouch(a: Node, b: Node)
  {
    && a.Elem? == b.Elem? && a.Tag() == b.Tag() && a.Name() == b.Name() && |a.Kids()| == |b.Kids()|
    && (a.Elem? ==> forall i :: 0 <= i < |a.kids| ==> Retouch(a.kids[i], b.kids[i]))
  }

  lemma {:induction false} RetouchSelf(n: Node)
    ensures Retouch(n, n)
  {
    if n.Elem? {
      forall i | 0 <= i < |n.kids| ensures Retouch(n.kids[i], n.kids[i]) {
        RetouchSelf(n.kids[i]);
      }
    }
  }

  lemma {:induction false} RetouchAt(a: Node, b: Node, p: Path)
    requires Retouch(a, b)
    ensures Valid(a, p) <==> Valid(b, p)
    ensures Valid(a, p) ==> Retouch(At(a, p), At(b, p))
  {
    if p != [] && a.Elem? && p[0] < |a.kids| {
      RetouchAt(a.kids[p[0]], b.kids[p[0]], p[1..]);
    }
  }

  lemma {:induction false} RetouchPut(n: Node, p: Path, x: Node)
    requires Valid(n, p) && Retouch(At(n, p), x)
    ensures Retouch(n, Put(n, p, x))
  {
    if p != [] {
      RetouchPut(n.kids[p[0]], p[1..], x);
      forall i | 0 <= i < |n.kids| ensures Retouch(n.kids[i], Put(n, p, x).kids[i]) {
        if i != p[0] {
          RetouchSelf(n.kids[i]);
        }
      }
    }
  }

  lemma {:induction false} SameMatch(a: seq<Node>, b: seq<Node>, tag: string, name: Option<string>)
    requires |a| == |b| && forall i :: 0 <= i < |a| ==> Retouch(a[i], b[i])
    ensures FirstMatch(a, tag, name) == FirstMatch(b, tag, name)
  {
    if a != [] {
      assert Retouch(a[0], b[0]);
      SameMatch(a[1..], b[1..], tag, name);
    }
  }

  lemma RetouchChild(g: Grammar, a: Node, b: Node, i: nat)
    requires Retouch(a, b) && i < |a.Kids()|
    ensures ProperChild(g, a, i) <==> ProperChild(g, b, i)
  {
    var (x, y) := (a.Kids()[i], b.Kids()[i]);
    assert Retouch(x, y);
    SameMatch(a.Kids(), b.Kids(), x.Tag(), None);
    SameMatch(a.Kids(), b.Kids(), x.Tag(), Some(x.Name()));
  }

  lemma RetouchProper(g: Grammar, a: Node, b: Node, p: Path)
    requires Retouch(a, b) && Valid(a, p)
    ensures Valid(b, p) && (Proper(g, a, p) ==> Proper(g, b, p))
  {
    RetouchAt(a, b, p);
    if Proper(g, a, p) {
      forall k | 0 <= k < |p| ensures ProperStep(g, b, p, k) {
        assert ProperStep(g, a, p, k);
        ValidPrefix(a, p, k);
        ValidPrefix(b, p, k);
        RetouchAt(a, b, p[..k]);
        RetouchChild(g, At(a, p[..k]), At(b, p[..k]), p[k]);
      }
    }
  }

  lemma {:induction false} RetouchPrint(g: Grammar, a: Node, b: Node, p: Path)
    requires Retouch(a, b) && Valid(a, p)
    ensures Valid(b, p) && Print(g, a, p) == Print(g, b, p)
    decreases |p|
  {
    RetouchAt(a, b, p);
    if p != [] {
      ValidPrefix(a, p, |p| - 1);
      RetouchPrint(g, a, b, p[..|p|-1]);
    }
  }

  lemma {:induction false} RetouchMark(n: SNode, x: Node, p: Path, id: nat)
    requires Retouch(Erase(n), x)
    ensures MarkAt(Overlay(n, x), p, id) <==> MarkAt(n, p, id)
    decreases x
  {
    if n.SElem? && p != [] && p[0] < |n.kids| {
      assert Retouch(Erase(n).kids[p[0]], x.kids[p[0]]);
      RetouchMark(n.kids[p[0]], x.kids[p[0]], p[1..], id);
    }
  }

  /** A retouch in place moves no reference. */
  lemma RetouchKeeps(s: Stack, p: Path, x: Node, q: Path, id: nat)
    requires Valid(s.Doc(), p) && Retouch(At(s.Doc(), p), x)
    ensures MarkAt(InPlace(s, p, x).tree, q, id) <==> MarkAt(s.tree, q, id)
  {
    EraseAt(s.tree, p);
    PutMark(s.tree, p, Overlay(SAt(s.tree, p), x), q, id);
    if p <= q {
      RetouchMark(SAt(s.tree, p), x, q[|p|..], id);
      SubMark(s.tree, p, q[|p|..], id);
      assert p + q[|p|..] == q;
    }
  }

  // Redo, then undo --------------------------------------------------------------------------

  /** The next entry, about the node at q, is waiting to put y there. */
  ghost predicate Waiting(g: Grammar, t: Stack, h: History, q: Path, y: Node)
  {
    && Real(t, h, t.curr + 1) && h.places[t.curr+1] == Some(q)
    && Valid(t.Doc(), q) && Local(g, t.Doc(), q, y)
    && var d := t.diffs[t.curr+1];
       d.defined && d.source == t.source && d.query == Print(g, t.Doc(), q) && d.after == Some(y)
  }

  lemma RedoWaiting(g: Grammar, t: Stack, h: History, q: Path, y: Node)
    requires GrammarOk(g) && Waiting(g, t, h, q, y)
    ensures RedoShape(t, h, Redo(g, t)) && Redo(g, t).Doc() == Put(t.Doc(), q, y)
  {
    PutBackForm(g, t, t.diffs[t.curr+1], q);
    ErasePut(t.tree, q, Copy(y));
    EraseCopy(y);
  }

  lemma UndoWaiting(g: Grammar, t: Stack, h: History, q: Path, y: Node, u: Stack, id: nat, v: Stack)
    requires GrammarOk(g) && Waiting(g, t, h, q, y) && RedoShape(t, h, u) && u.Doc() == Put(t.Doc(), q, y)
    requires id == Id(t, t.curr + 1) && Numbered(u) && Alone(u, id) && u.curr < |u.diffs| && v == Undo(g, u)
    ensures v.Doc() == Put(t.Doc(), q, Erase(u.loose[id]))
  {
    var k := History(seq(|h.places|, i => if i == t.curr then t.Doc() else u.Doc()), h.places, u.curr);
    WaitingEntry(g, t, h, q, y, u, k);
    UndoForm(g, u, k);
    UndoDoc(u, k, v);
    PutPut(t.Doc(), q, y, Erase(u.loose[id]));
  }

  lemma WaitingEntry(g: Grammar, t: Stack, h: History, q: Path, y: Node, u: Stack, k: History)
    requires Waiting(g, t, h, q, y) && u.diffs == t.diffs && u.source == t.source && u.curr == t.curr + 1
    requires u.Doc() == Put(t.Doc(), q, y) && k.places == h.places && |k.versions| == |k.places|
    requires k.versions[t.curr] == t.Doc() && k.versions[t.curr+1] == u.Doc()
    ensures Current(g, u, k)
  {
    AtPut(t.Doc(), q, y);
  }

  /** A live node is set aside with what its place holds now. */
  lemma LiveAside(t: Stack, h: History, u: Stack)
    requires Real(t, h, t.curr + 1) && RedoShape(t, h, u) && Id(t, t.curr + 1) in Held(t.diffs)
    requires Only(t.tree, Id(t, t.curr + 1), h.places[t.curr+1].value) && NotLoose(t, Id(t, t.curr + 1))
    ensures Alone(u, Id(t, t.curr + 1))
    ensures Valid(t.Doc(), h.places[t.curr+1].value)
    ensures Erase(u.loose[Id(t, t.curr + 1)]) == At(t.Doc(), h.places[t.curr+1].value)
  {
    var (p, id) := (h.places[t.curr+1].value, Id(t, t.curr + 1));
    var n := SAt(t.tree, p);
    assert n.Mark() == Some(id);
    assert Pieces(n, Held(t.diffs)) == map[id := n];
    SubOnly(t.tree, id, p);
    EraseAt(t.tree, p);
    var x := Copy(t.diffs[t.curr+1].after.value);
    CopyAbsent(t.diffs[t.curr+1].after.value, id);
    forall q ensures !MarkAt(u.tree, q, id) {
      PutMark(t.tree, p, x, q, id);
    }
  }

  lemma LooseAside(t: Stack, h: History, u: Stack)
    requires Real(t, h, t.curr + 1) && RedoShape(t, h, u) && Alone(t, Id(t, t.curr + 1))
    ensures Alone(u, Id(t, t.curr + 1)) && u.loose[Id(t, t.curr + 1)] == t.loose[Id(t, t.curr + 1)]
  {
    RedoKeeps(t, h, u, Id(t, t.curr + 1));
  }

  /** Redo and undo, with the entry's node live: back to where we were. */
  lemma BackAndForthLive(g: Grammar, t: Stack, h: History, q: Path, y: Node, u: Stack)
    requires GrammarOk(g) && Waiting(g, t, h, q, y) && Numbered(t) && Id(t, t.curr + 1) in Held(t.diffs)
    requires Only(t.tree, Id(t, t.curr + 1), q) && NotLoose(t, Id(t, t.curr + 1)) && u == Redo(g, t)
    ensures u.Doc() == Put(t.Doc(), q, y) && u.curr < |u.diffs| && Undo(g, u).Doc() == t.Doc()
  {
    RedoWaiting(g, t, h, q, y);
    RedoNumbered(t, h, u);
    LiveAside(t, h, u);
    UndoWaiting(g, t, h, q, y, u, Id(t, t.curr + 1), Undo(g, u));
    PutAt(t.Doc(), q);
  }

  /** And with the node aside: to what the node holds. */
  lemma BackAndForthLoose(g: Grammar, t: Stack, h: History, q: Path, y: Node, u: Stack)
    requires GrammarOk(g) && Waiting(g, t, h, q, y) && Numbered(t) && Alone(t, Id(t, t.curr + 1)) && u == Redo(g, t)
    ensures u.Doc() == Put(t.Doc(), q, y) && u.curr < |u.diffs|
    ensures Undo(g, u).Doc() == Put(t.Doc(), q, Erase(t.loose[Id(t, t.curr + 1)]))
  {
    RedoWaiting(g, t, h, q, y);
    RedoNumbered(t, h, u);
    LooseAside(t, h, u);
    UndoWaiting(g, t, h, q, y, u, Id(t, t.curr + 1), Undo(g, u));
  }

  // After a merge -------------------------------------------------------------------------------

  /** A merging retouch of the node at p, with an entry waiting behind. */
  ghost predicate Merging(g: Grammar, s: Stack, h: History, p: Path, x: Node)
  {
    && GrammarOk(g) && Numbered(s) && h.cur == s.curr && s.curr + 1 < |h.versions| == |h.places|
    && Real(s, h, s.curr + 1) && EntryOk(g, s, h, s.curr + 1) && Id(s, s.curr + 1) in Held(s.diffs)
    && (Attached(s, h, s.curr + 1) || Stored(s, h, s.curr + 1))
    && s.Doc() == h.versions[s.curr] && Valid(s.Doc(), p) && Retouch(At(s.Doc(), p), x)
  }

  /** Every reachable state with an entry waiting is such a state. */
  lemma KeptMerging(g: Grammar, s: Stack, h: History, p: Path, x: Node)
    requires GrammarOk(g) && Kept(g, s, h) && s.curr + 1 < |h.versions| && h.places[s.curr+1].Some?
    requires Valid(s.Doc(), p) && Retouch(At(s.Doc(), p), x)
    ensures Merging(g, s, h, p, x)
  {
    assert EntryOk(g, s, h, s.curr + 1);
    assert Real(s, h, s.curr + 1);
    RealIsHeld(g, s, h, s.curr + 1);
  }

  /** A retouch leaves every query as it was. */
  lemma RetouchQuery(g: Grammar, doc: Node, now: Node, q: Path)
    requires Retouch(doc, now) && Valid(doc, q) && Addressable(g, doc, q)
    ensures Valid(now, q) && Addressable(g, now, q) && Print(g, now, q) == Print(g, doc, q)
    ensures At(now, q).Elem? == At(doc, q).Elem? && At(now, q).Tag() == At(doc, q).Tag()
    ensures At(now, q).Name() == At(doc, q).Name()
  {
    RetouchAt(doc, now, q);
    RetouchProper(g, doc, now, q);
    RetouchPrint(g, doc, now, q);
  }

  lemma RetouchLocal(g: Grammar, doc: Node, p: Path, x: Node, q: Path, y: Node)
    requires Valid(doc, p) && Retouch(At(doc, p), x) && Local(g, doc, q, y)
    ensures Valid(Put(doc, p, x), q) && Local(g, Put(doc, p, x), q, y)
    ensures Print(g, Put(doc, p, x), q) == Print(g, doc, q)
  {
    RetouchPut(doc, p, x);
    RetouchQuery(g, doc, Put(doc, p, x), q);
  }

  /** The entry is waiting before and after the merge. */
  lemma WaitsBefore(g: Grammar, s: Stack, h: History, p: Path, x: Node, q: Path, y: Node)
    requires Merging(g, s, h, p, x)
    requires h.places[s.curr+1] == Some(q) && Valid(h.versions[s.curr+1], q) && y == At(h.versions[s.curr+1], q)
    ensures Waiting(g, s, h, q, y) && h.versions[s.curr+1] == Put(s.Doc(), q, y)
  {
    assert EntryOk(g, s, h, s.curr + 1);
  }

  lemma WaitsAfter(g: Grammar, s: Stack, h: History, p: Path, x: Node, t: Stack, q: Path, y: Node)
    requires Waiting(g, s, h, q, y) && Valid(s.Doc(), p) && Retouch(At(s.Doc(), p), x)
    requires t == s.(tree := t.tree) && t.Doc() == Put(s.Doc(), p, x)
    ensures Waiting(g, t, h, q, y)
  {
    RetouchLocal(g, s.Doc(), p, x, q, y);
  }

  lemma MergingWaits(g: Grammar, s: Stack, h: History, p: Path, x: Node, t: Stack, q: Path, y: Node)
    requires Merging(g, s, h, p, x) && t == InPlace(s, p, x)
    requires h.places[s.curr+1] == Some(q) && Valid(h.versions[s.curr+1], q) && y == At(h.versions[s.curr+1], q)
    ensures t.Doc() == Put(s.Doc(), p, x) && Valid(s.Doc(), q) && Waiting(g, t, h, q, y)
    ensures h.versions[s.curr+1] == Put(s.Doc(), q, y)
  {
    InPlaceDoc(s, p, x);
    WaitsBefore(g, s, h, p, x, q, y);
    WaitsAfter(g, s, h, p, x, t, q, y);
  }

  /** The retouch moves no reference. */
  lemma MergingHome(g: Grammar, s: Stack, h: History, p: Path, x: Node, t: Stack, id: nat)
    requires Merging(g, s, h, p, x) && t == InPlace(s, p, x) && id == Id(s, s.curr + 1)
    ensures Numbered(t) && id in Held(t.diffs)
    ensures forall r :: MarkAt(t.tree, r, id) <==> MarkAt(s.tree, r, id)
  {
    InPlaceNumbered(s, p, x);
    forall r ensures MarkAt(t.tree, r, id) <==> MarkAt(s.tree, r, id) {
      RetouchKeeps(s, p, x, r, id);
    }
  }

  /** Whether the waiting entry's node is live or aside. */
  lemma MergingSide(g: Grammar, s: Stack, h: History, p: Path, x: Node, id: nat, q: Path)
    requires Merging(g, s, h, p, x) && id == Id(s, s.curr + 1) && h.places[s.curr+1] == Some(q)
    ensures NextIsLive(s, h) ==> Only(s.tree, id, q) && NotLoose(s, id)
    ensures !NextIsLive(s, h) ==> Alone(s, id) && Valid(s.Doc(), q) && Erase(s.loose[id]) == At(s.Doc(), q)
  {
  }

  /** A tree with the same references is the same to an entry's node. */
  lemma SameMarks(s: Stack, t: Stack, id: nat, q: Path)
    requires t.loose == s.loose && forall r :: MarkAt(t.tree, r, id) <==> MarkAt(s.tree, r, id)
    ensures Only(s.tree, id, q) && NotLoose(s, id) ==> Only(t.tree, id, q) && NotLoose(t, id)
    ensures Alone(s, id) ==> Alone(t, id)
  {
  }

  /** What redo and undo show after the merge: the waiting edit, and then the
      merged document with the waiting entry's own node. */
  lemma MergedBackAndForth(g: Grammar, s: Stack, h: History, p: Path, x: Node, t: Stack, u: Stack, q: Path, y: Node)
    requires Merging(g, s, h, p, x) && t == InPlace(s, p, x) && t.curr + 1 < |t.diffs| && u == Redo(g, t)
    requires Valid(s.Doc(), q) && h.places[s.curr+1] == Some(q) && Waiting(g, t, h, q, y)
    ensures u.Doc() == Put(t.Doc(), q, y) && u.curr < |u.diffs|
    ensures Undo(g, u).Doc() == if NextIsLive(s, h) then t.Doc() else Put(t.Doc(), q, At(s.Doc(), q))
  {
    var (id, live) := (Id(s, s.curr + 1), NextIsLive(s, h));
    MergingHome(g, s, h, p, x, t, id);
    MergingSide(g, s, h, p, x, id, q);
    SameMarks(s, t, id, q);
    AfterMerge(g, t, h, q, y, u, id, live);
  }

  lemma AfterMerge(g: Grammar, t: Stack, h: History, q: Path, y: Node, u: Stack, id: nat, live: bool)
    requires GrammarOk(g) && Waiting(g, t, h, q, y) && Numbered(t) && id == Id(t, t.curr + 1) && id in Held(t.diffs)
    requires if live then Only(t.tree, id, q) && NotLoose(t, id) else Alone(t, id)
    requires u == Redo(g, t)
    ensures u.Doc() == Put(t.Doc(), q, y) && u.curr < |u.diffs|
    ensures Undo(g, u).Doc() == if live then t.Doc() else Put(t.Doc(), q, Erase(t.loose[id]))
  {
    if live {
      BackAndForthLive(g, t, h, q, y, u);
    } else {
      BackAndForthLoose(g, t, h, q, y, u);
    }
  }

  /** The exact condition. After a retouch that merged while an entry was
      waiting, redo leads to the waiting version and undo back to the merged
      one, if and only if the retouch changed nothing, or changed only what the
      waiting entry replaces, and the node of that entry was live. */
  lemma MergeExact(g: Grammar, s: Stack, h: History, p: Path, x: Node, t: Stack, u: Stack)
    requires Merging(g, s, h, p, x) && t == InPlace(s, p, x) && t.curr + 1 < |t.diffs| && u == Redo(g, t)
    ensures Valid(t.Doc(), h.places[s.curr+1].value) && Valid(s.Doc(), h.places[s.curr+1].value) && u.curr < |u.diffs|
    ensures u.Doc() == h.versions[s.curr+1] && Undo(g, u).Doc() == t.Doc() <==>
            t.Doc() == s.Doc() ||
            (Put(t.Doc(), h.places[s.curr+1].value, At(s.Doc(), h.places[s.curr+1].value)) == s.Doc()
                && NextIsLive(s, h))
  {
    var q := h.places[s.curr+1].value;
    var y := At(h.versions[s.curr+1], q);
    MergingWaits(g, s, h, p, x, t, q, y);
    MergedBackAndForth(g, s, h, p, x, t, u, q, y);
    SameOutside(s.Doc(), t.Doc(), q, y);
  }

  lemma SameOutside(a: Node, b: Node, q: Path, y: Node)
    requires Valid(a, q) && Valid(b, q)
    ensures Put(b, q, y) == Put(a, q, y) <==> Put(b, q, At(a, q)) == a
    ensures Put(b, q, At(b, q)) == b
    ensures Put(b, q, At(a, q)) == b <==> At(a, q) == At(b, q)
  {
    PutAt(b, q);
    PutAt(a, q);
    PutPut(a, q, y, At(a, q));
    PutPut(b, q, y, At(a, q));
    PutPut(b, q, At(a, q), y);
    AtPut(b, q, At(a, q));
  }

  // A session that loses an edit -------------------------------------------------------------------

  lemma SamePlace(p: Path)
    ensures Safe([None, Some(p)]) && Safe([None, Some(p), Some(p)])
  {
  }

  /** The document with the node at p as it was, edited once, edited twice. */
  function Three(doc: Node, p: Path, x1: Node, x2: Node, cur: nat): (h: History)
    requires Valid(doc, p)
  {
    History([doc, Put(doc, p, x1), Put(doc, p, x2)], [None, Some(p), Some(p)], cur)
  }

  /** The merge data of the first entry, which undo and redo keep. */
  ghost predicate Mergeable(s: Stack, args: MergeArgs)
  {
    |s.diffs| == CAPACITY && s.saved == 0 && s.diffs[1].mergeType == "resize" && s.diffs[1].mergeArgs == args
  }

  lemma FirstEdit(g: Grammar, doc: Node, p: Path, x1: Node, args: MergeArgs, s0: Stack, s1: Stack)
    requires GrammarOk(g) && Local(g, doc, p, x1) && s0 == Fresh(doc) && Valid(s0.Doc(), p)
    requires s1 == Edit(g, s0, p, x1, "resize", args)
    ensures Rel(g, s1, History([doc, Put(doc, p, x1)], [None, Some(p)], 1)) && Mergeable(s1, args)
  {
    SamePlace(p);
    FreshRel(g, doc);
    EditKept(g, s0, Begin(doc), p, x1, "resize", args);
    assert Append(Begin(doc), Put(doc, p, x1), Some(p)) == History([doc, Put(doc, p, x1)], [None, Some(p)], 1);
  }

  lemma SecondEdit(g: Grammar, doc: Node, p: Path, x1: Node, x2: Node, args: MergeArgs, s1: Stack, s2: Stack)
    requires GrammarOk(g) && Local(g, doc, p, x1) && Local(g, doc, p, x2)
    requires Rel(g, s1, History([doc, Put(doc, p, x1)], [None, Some(p)], 1)) && Mergeable(s1, args)
    requires Valid(s1.Doc(), p) && s2 == Edit(g, s1, p, x2, "null", NoArgs)
    ensures Rel(g, s2, Three(doc, p, x1, x2, 2)) && Mergeable(s2, args)
  {
    var h := History([doc, Put(doc, p, x1)], [None, Some(p)], 1);
    StillLocal(g, doc, p, x1, x2);
    OnTop(g, s1, h, p, x2, s2);
    PutPut(doc, p, x1, x2);
    assert Append(h, Put(doc, p, x2), Some(p)) == Three(doc, p, x1, x2, 2);
  }

  lemma StillLocal(g: Grammar, doc: Node, p: Path, x: Node, y: Node)
    requires GrammarOk(g) && Local(g, doc, p, x) && Local(g, doc, p, y)
    ensures Local(g, Put(doc, p, x), p, y)
  {
    AtPut(doc, p, x);
    QuerySurvivesEdit(g, doc, p, x);
  }

  /** A second edit at the place of the first leaves the first entry as it was. */
  lemma OnTop(g: Grammar, s: Stack, h: History, p: Path, x: Node, t: Stack)
    requires GrammarOk(g) && Rel(g, s, h) && h.places == [None, Some(p)] && h.cur == 1 && |s.diffs| == CAPACITY
    requires Local(g, s.Doc(), p, x) && t == Edit(g, s, p, x, "null", NoArgs)
    ensures Rel(g, t, Append(h, Put(s.Doc(), p, x), Some(p))) && |t.diffs| == |s.diffs| && t.saved == s.saved
    ensures t.diffs[1] == s.diffs[1]
  {
    SamePlace(p);
    EditKept(g, s, h, p, x, "null", NoArgs);
    assert h.places[..2] == h.places;
  }

  lemma OneUndo(g: Grammar, doc: Node, p: Path, x1: Node, x2: Node, args: MergeArgs, s: Stack, t: Stack, c: nat)
    requires GrammarOk(g) && Valid(doc, p) && 1 <= c <= 2 && Rel(g, s, Three(doc, p, x1, x2, c)) && Mergeable(s, args)
    requires s.curr < |s.diffs| && t == Undo(g, s)
    ensures Rel(g, t, Three(doc, p, x1, x2, c - 1)) && Mergeable(t, args)
  {
    var h := Three(doc, p, x1, x2, c);
    assert EntryOk(g, s, h, c) && Real(s, h, c) && Stored(s, h, c);
    UndoForm(g, s, h);
    UndoRefines(g, s, h);
  }

  /** At the bottom the second entry's node stands alone, and a redo of the
      first leaves it so. */
  lemma OneRedo(g: Grammar, doc: Node, p: Path, x1: Node, x2: Node, args: MergeArgs, s: Stack, t: Stack)
    requires GrammarOk(g) && Valid(doc, p) && Rel(g, s, Three(doc, p, x1, x2, 0)) && Mergeable(s, args)
    requires s.curr + 1 < |s.diffs| && t == Redo(g, s)
    ensures Rel(g, t, Three(doc, p, x1, x2, 1)) && Mergeable(t, args)
    ensures Real(t, Three(doc, p, x1, x2, 1), 2) && Alone(t, Id(t, 2))
  {
    var h := Three(doc, p, x1, x2, 0);
    AsideBelow(g, s, h, p);
    RedoAside(g, s, h, t);
    assert h.(cur := 1) == Three(doc, p, x1, x2, 1);
  }

  lemma RedoAside(g: Grammar, s: Stack, h: History, t: Stack)
    requires GrammarOk(g) && Rel(g, s, h) && h.cur == 0 && s.curr + 1 < |s.diffs| && t == Redo(g, s)
    requires Real(s, h, 1) && Real(s, h, 2) && Alone(s, Id(s, 2))
    ensures Rel(g, t, h.(cur := 1)) && t.diffs == s.diffs && t.saved == s.saved
    ensures Alone(t, Id(s, 2))
  {
    RedoRefines(g, s, h);
    RedoForm(g, s, h);
    RedoKeeps(s, h, t, Id(s, 2));
  }

  lemma AsideBelow(g: Grammar, s: Stack, h: History, p: Path)
    requires Rel(g, s, h) && h.places == [None, Some(p), Some(p)] && h.cur == 0
    ensures Real(s, h, 1) && Real(s, h, 2) && Alone(s, Id(s, 2))
  {
    assert EntryOk(g, s, h, 1) && EntryOk(g, s, h, 2);
    assert Covers(h.places, 1, 2);
    assert Cut(h.places, 0, 2, 2);
    assert Real(s, h, 2);
  }

  lemma LastMerge(g: Grammar, doc: Node, p: Path, x1: Node, x2: Node, x3: Node, u: Stack, t: Stack)
    requires GrammarOk(g) && Local(g, doc, p, x1) && Retouch(x1, x3) && Rel(g, u, Three(doc, p, x1, x2, 1))
    requires Real(u, Three(doc, p, x1, x2, 1), 2) && Alone(u, Id(u, 2)) && Mergeable(u, OneQuery("q"))
    requires Valid(u.Doc(), p) && t == Edit(g, u, p, x3, "resize", OneQuery("q"))
    ensures Merges(g, u, p, "resize", OneQuery("q")) && t == InPlace(u, p, x3) && t.Doc() == Put(doc, p, x3)
    ensures Merging(g, u, Three(doc, p, x1, x2, 1), p, x3) && At(u.Doc(), p) == x1
    ensures !NextIsLive(u, Three(doc, p, x1, x2, 1))
  {
    var h := Three(doc, p, x1, x2, 1);
    AtPut(doc, p, x1);
    QuerySurvivesEdit(g, doc, p, x1);
    assert EntryOk(g, u, h, 1);
    PutPut(doc, p, x1, x3);
    InPlaceDoc(u, p, x3);
    KeptMerging(g, u, h, p, x3);
  }

  lemma LastUndo(g: Grammar, h: History, p: Path, x: Node, s: Stack, t: Stack, u: Stack)
    requires Merging(g, s, h, p, x) && t == InPlace(s, p, x) && h.places[s.curr+1] == Some(p) && !NextIsLive(s, h)
    requires t.curr + 1 < |t.diffs| && u == Redo(g, t) && u.curr < |u.diffs|
    ensures Valid(t.Doc(), p) && Undo(g, u).Doc() == Put(t.Doc(), p, At(s.Doc(), p))
  {
    var y := At(h.versions[s.curr+1], p);
    MergingWaits(g, s, h, p, x, t, p, y);
    MergedBackAndForth(g, s, h, p, x, t, u, p, y);
  }

  /** Edit, edit, undo, undo, redo, an edit that merges with the first, redo,
      undo, all at one node. */
  ghost predicate LosingSession(g: Grammar, doc: Node, p: Path, x1: Node, x2: Node, x3: Node, ss: seq<Stack>)
  {
    && |ss| == 9 && ss[0] == Fresh(doc)
    && Valid(ss[0].Doc(), p) && ss[1] == Edit(g, ss[0], p, x1, "resize", OneQuery("q"))
    && Valid(ss[1].Doc(), p) && ss[2] == Edit(g, ss[1], p, x2, "null", NoArgs)
    && ss[2].curr < |ss[2].diffs| && ss[3] == Undo(g, ss[2])
    && ss[3].curr < |ss[3].diffs| && ss[4] == Undo(g, ss[3])
    && ss[4].curr + 1 < |ss[4].diffs| && ss[5] == Redo(g, ss[4])
    && Valid(ss[5].Doc(), p) && ss[6] == Edit(g, ss[5], p, x3, "resize", OneQuery("q"))
    && ss[6].curr + 1 < |ss[6].diffs| && ss[7] == Redo(g, ss[6])
    && ss[7].curr < |ss[7].diffs| && ss[8] == Undo(g, ss[7])
  }

  /** In every document and at every addressable node, the merged edit of this
      session is lost: the document ends with the first edit. */
  lemma MergeLosesEdit(g: Grammar, doc: Node, p: Path, x1: Node, x2: Node, x3: Node, ss: seq<Stack>)
    requires GrammarOk(g) && Local(g, doc, p, x1) && Local(g, doc, p, x2) && Retouch(x1, x3)
    requires LosingSession(g, doc, p, x1, x2, x3, ss)
    ensures Merges(g, ss[5], p, "resize", OneQuery("q"))
    ensures ss[6].Doc() == Put(doc, p, x3) && ss[8].Doc() == Put(doc, p, x1)
  {
    var args := OneQuery("q");
    FirstEdit(g, doc, p, x1, args, ss[0], ss[1]);
    SecondEdit(g, doc, p, x1, x2, args, ss[1], ss[2]);
    OneUndo(g, doc, p, x1, x2, args, ss[2], ss[3], 2);
    OneUndo(g, doc, p, x1, x2, args, ss[3], ss[4], 1);
    OneRedo(g, doc, p, x1, x2, args, ss[4], ss[5]);
    LastMerge(g, doc, p, x1, x2, x3, ss[5], ss[6]);
    LastUndo(g, Three(doc, p, x1, x2, 1), p, x3, ss[5], ss[6], ss[7]);
    PutPut(doc, p, x3, x1);
  }
}
