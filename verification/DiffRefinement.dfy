/** The stack of subtree diffs, with its shared node objects, behaves as a plain
    list of whole documents as long as the places of the edits are safe. */
module DiffRefinement {
  import opened Common
  import opened Dom
  import opened Shared
  import opened XQuery
  import opened XQueryRoundTrip
  import opened DiffStack

  /** The reference: every version of the document, where each edit took place
      (None for a change made in another document), and where we are. */
  datatype History = History(versions: seq<Node>, places: seq<Option<Path>>, cur: nat)

  function Begin(doc: Node): (h: History)
  {
    History([doc], [None], 0)
  }

  // Safe places --------------------------------------------------------------------------

  /** Edit l replaces the place of edit k. */
  predicate Covers(ps: seq<Option<Path>>, l: int, k: int)
  {
    0 <= l < |ps| && 0 <= k < |ps| && ps[l].Some? && ps[k].Some? && ps[l].value <= ps[k].value
  }

  /** Edit j lies strictly inside the place of edit k. */
  predicate Within(ps: seq<Option<Path>>, j: int, k: int)
  {
    0 <= j < |ps| && 0 <= k < |ps| && ps[j].Some? && ps[k].Some? && ps[k].value < ps[j].value
  }

  /** Between two edits, one replaces the place of edit k. */
  ghost predicate Cut(ps: seq<Option<Path>>, lo: int, hi: int, k: int)
  {
    exists m :: lo < m < hi && Covers(ps, m, k)
  }

  /** What a caller can check on the list of edited places: whenever an edit
      lies strictly inside the place of a later edit k, and a still earlier edit
      was at that place or above it, another edit at that place or above it
      comes between the two. */
  ghost predicate Safe(ps: seq<Option<Path>>)
  {
    forall j, k :: 1 <= j < k < |ps| && Within(ps, j, k) && Cut(ps, 0, j, k) ==> Cut(ps, j, k, k)
  }

  lemma SafePrefix(ps: seq<Option<Path>>, n: nat)
    requires Safe(ps) && n <= |ps|
    ensures Safe(ps[..n])
  {
    var qs := ps[..n];
    forall j, k | 1 <= j < k < n && Within(qs, j, k) && Cut(qs, 0, j, k) ensures Cut(qs, j, k, k) {
      var l :| 0 < l < j && Covers(qs, l, k);
      assert Covers(ps, l, k) && Within(ps, j, k);
      assert Cut(ps, 0, j, k);
      var m :| j < m < k && Covers(ps, m, k);
      assert Covers(qs, m, k);
    }
  }

  // Actions -------------------------------------------------------------------------------

  /** What a user does. An edit snapshots the node at p and then changes it in
      place; a null snapshot marks a change made in another document. */
  datatype Act =
    | AEdit(p: Path, x: Node, mergeType: string, args: MergeArgs)
    | ANull
    | AUndo
    | ARedo
    | ASave
    | AClear

  function InPlace(s: Stack, p: Path, x: Node): (r: Stack)
    requires Valid(s.Doc(), p)
  {
    EraseAt(s.tree, p);
    s.(tree := SPut(s.tree, p, Overlay(SAt(s.tree, p), x)))
  }

  lemma SnapshotKeeps(g: Grammar, s: Stack, p: Path, mergeType: string, args: MergeArgs)
    requires Valid(s.Doc(), p)
    ensures Snapshot(g, s, p, mergeType, args).tree == s.tree
  {
  }

  function Edit(g: Grammar, s: Stack, p: Path, x: Node, mergeType: string, args: MergeArgs): (r: Stack)
    requires Valid(s.Doc(), p)
  {
    SnapshotKeeps(g, s, p, mergeType, args);
    InPlace(Snapshot(g, s, p, mergeType, args), p, x)
  }

  lemma InPlaceDoc(s: Stack, p: Path, x: Node)
    requires Valid(s.Doc(), p)
    ensures InPlace(s, p, x).Doc() == Put(s.Doc(), p, x)
  {
    EraseAt(s.tree, p);
    ErasePut(s.tree, p, Overlay(SAt(s.tree, p), x));
    EraseOverlay(SAt(s.tree, p), x);
  }

  /** An edit inside an addressable node that keeps its tag and its name. */
  ghost predicate Local(g: Grammar, doc: Node, p: Path, x: Node)
  {
    && Valid(doc, p) && Addressable(g, doc, p)
    && At(doc, p).Elem? && x.Elem? && x.Tag() == At(doc, p).Tag() && x.Name() == At(doc, p).Name()
  }

  /** Redo entries are waiting. */
  ghost predicate Pending(h: History)
  {
    h.cur + 1 < |h.versions|
  }

  function Append(h: History, doc: Node, place: Option<Path>): (r: History)
    requires h.cur < |h.versions| == |h.places|
  {
    History(h.versions[..h.cur+1] + [doc], h.places[..h.cur+1] + [place], h.cur + 1)
  }

  predicate Merged(g: Grammar, s: Stack, a: Act)
  {
    a.AEdit? && Valid(s.Doc(), a.p) && Merges(g, s, a.p, a.mergeType, a.args)
  }

  /** The node the next redo would replace is the one its entry refers to. */
  ghost predicate NextIsLive(s: Stack, h: History)
    requires h.cur + 1 < |h.places| && h.cur + 1 < |s.diffs|
  {
    h.places[h.cur+1].Some? && s.diffs[h.cur+1].before.Some?
    && MarkAt(s.tree, h.places[h.cur+1].value, s.diffs[h.cur+1].before.value)
  }

  /** A merged edit below waiting redo entries stays inside the node that the
      next redo replaces, and that node is live. */
  ghost predicate MergeAllowed(s: Stack, h: History, p: Path)
  {
    h.cur + 1 < |h.places| && h.cur + 1 < |s.diffs| ==>
      NextIsLive(s, h) && h.places[h.cur+1].value <= p
  }

  /** The conditions under which the stack keeps its promise: there is room, the
      edit is local, the places of the edits stay safe, and an edit that merges
      is allowed to. */
  ghost predicate Allowed(g: Grammar, s: Stack, h: History, a: Act)
  {
    match a
    case AEdit(p, x, mergeType, args) =>
      && h.cur < |h.versions| == |h.places|
      && Local(g, s.Doc(), p, x)
      && (if Merges(g, s, p, mergeType, args) then MergeAllowed(s, h, p)
          else s.curr + 1 < |s.diffs| && Safe(h.places[..h.cur+1] + [Some(p)]))
    case ANull => s.curr + 1 < |s.diffs|
    case AUndo => true
    case ARedo => s.curr + 1 < |s.diffs|
    case ASave => true
    case AClear => true
  }

  function Step(g: Grammar, s: Stack, a: Act): (r: Stack)
    requires a.AEdit? ==> Valid(s.Doc(), a.p)
    requires a.AUndo? ==> s.curr < |s.diffs|
    requires a.ARedo? ==> s.curr + 1 < |s.diffs|
  {
    match a
    case AEdit(p, x, mergeType, args) => Edit(g, s, p, x, mergeType, args)
    case ANull => SnapshotNull(s)
    case AUndo => Undo(g, s)
    case ARedo => Redo(g, s)
    case ASave => Save(s)
    case AClear => Clear(s)
  }

  function SpecStep(h: History, a: Act, merged: bool): (r: History)
    requires h.cur < |h.versions| == |h.places|
    requires a.AEdit? ==> Valid(h.versions[h.cur], a.p)
  {
    var doc := h.versions[h.cur];
    match a
    case AEdit(p, x, _, _) =>
      if merged then h.(versions := h.versions[h.cur := Put(doc, p, x)]) else Append(h, Put(doc, p, x), Some(p))
    case ANull => Append(h, doc, None)
    case AUndo => if h.cur == 0 then h else h.(cur := h.cur - 1)
    case ARedo => if h.cur + 1 < |h.versions| then h.(cur := h.cur + 1) else h
    case ASave => h
    case AClear => Begin(doc)
  }

  // The relation -----------------------------------------------------------------------

  /** Entry i leads from one version to the next through the node at its place;
      once undone it also holds what to put back. */
  ghost predicate EntryOk(g: Grammar, s: Stack, h: History, i: nat)
    requires 1 <= i < |h.versions| == |h.places| && i < |s.diffs|
  {
    var (d, was, next) := (s.diffs[i], h.versions[i-1], h.versions[i]);
    && d.defined && d.source == s.source
    && match h.places[i]
       case None => d.query == "" && d.before == None && was == next
       case Some(p) =>
         && Valid(was, p) && Valid(next, p) && Local(g, was, p, At(next, p))
         && next == Put(was, p, At(next, p))
         && d.query == Print(g, was, p) && d.before.Some?
         && (i > s.curr ==> d.after == Some(At(next, p)))
  }

  /** Entry i is about a node. */
  predicate Real(s: Stack, h: History, i: int)
  {
    1 <= i < |h.places| && i < |s.diffs| && h.places[i].Some? && s.diffs[i].before.Some?
  }

  function Id(s: Stack, i: int): (id: nat)
    requires 0 <= i < |s.diffs| && s.diffs[i].before.Some?
  {
    s.diffs[i].before.value
  }

  ghost predicate NotLoose(s: Stack, id: nat)
  {
    id !in s.loose && forall m :: m in s.loose ==> Absent(s.loose[m], id)
  }

  /** The node of entry i is part of the document, at its place. */
  ghost predicate Attached(s: Stack, h: History, i: int)
    requires Real(s, h, i)
  {
    && Only(s.tree, Id(s, i), h.places[i].value) && NotLoose(s, Id(s, i))
    && i > h.cur && !Cut(h.places, h.cur, i, i)
  }

  /** The node object stands alone, outside the document. */
  ghost predicate Alone(s: Stack, id: nat)
  {
    && id in s.loose && Only(s.loose[id], id, []) && Absent(s.tree, id)
    && forall m :: m in s.loose && m != id ==> Absent(s.loose[m], id)
  }

  /** The node of entry i stands alone and holds what the entry is to bring
      back. */
  ghost predicate Stored(s: Stack, h: History, i: int)
    requires Real(s, h, i)
  {
    && Alone(s, Id(s, i)) && i < |h.versions|
    && Valid(h.versions[i-1], h.places[i].value)
    && Erase(s.loose[Id(s, i)]) == At(h.versions[i-1], h.places[i].value)
  }

  /** No reference has a number that is still to be given. */
  ghost predicate Numbered(s: Stack)
  {
    forall id :: id >= s.next ==> Absent(s.tree, id) && NotLoose(s, id)
  }

  ghost predicate DistinctIds(s: Stack, h: History)
  {
    forall i, j :: Real(s, h, i) && Real(s, h, j) && i != j ==> Id(s, i) != Id(s, j)
  }

  ghost predicate Homes(s: Stack, h: History)
  {
    forall i :: Real(s, h, i) ==> Attached(s, h, i) || Stored(s, h, i)
  }

  /** The part of the relation that does not speak of node objects. */
  ghost predicate Base(g: Grammar, s: Stack, h: History)
  {
    && s.enabled
    && h.cur == s.curr < |h.versions| == |h.places| <= |s.diffs|
    && s.Doc() == h.versions[h.cur]
    && !s.diffs[0].defined
    && (forall i :: 1 <= i < |h.versions| ==> EntryOk(g, s, h, i))
    && (forall i :: |h.versions| <= i < |s.diffs| ==> !s.diffs[i].defined)
  }

  /** The relation, but for the condition on the places. */
  ghost predicate Kept(g: Grammar, s: Stack, h: History)
  {
    Base(g, s, h) && Numbered(s) && DistinctIds(s, h) && Homes(s, h)
  }

  ghost predicate Rel(g: Grammar, s: Stack, h: History)
  {
    Kept(g, s, h) && Safe(h.places)
  }

  lemma FreshRel(g: Grammar, doc: Node)
    ensures Rel(g, Fresh(doc), Begin(doc))
  {
    EraseCopy(doc);
    forall id ensures Absent(Copy(doc), id) {
      CopyAbsent(doc, id);
    }
  }

  lemma PrintNotEmpty(g: Grammar, doc: Node, p: Path)
    requires GrammarOk(g) && Valid(doc, p) && Addressable(g, doc, p)
    ensures Print(g, doc, p) != ""
  {
    PrintIsJoin(g, doc, p);
    var list := [".", g.root] + Tokens(g, doc, p);
    assert list[0] == ".";
  }

  /** Every reference in use belongs to an entry. */
  lemma HeldIs(g: Grammar, s: Stack, h: History, id: nat) returns (i: nat)
    requires Base(g, s, h) && id in Held(s.diffs)
    ensures Real(s, h, i) && Id(s, i) == id
  {
    var d :| d in s.diffs && d.defined && d.before == Some(id);
    i :| 0 <= i < |s.diffs| && s.diffs[i] == d;
    assert 1 <= i < |h.versions|;
    assert EntryOk(g, s, h, i);
  }

  lemma RealIsHeld(g: Grammar, s: Stack, h: History, i: nat)
    requires Base(g, s, h) && Real(s, h, i)
    ensures Id(s, i) in Held(s.diffs)
  {
    assert EntryOk(g, s, h, i);
    assert s.diffs[i] in s.diffs;
  }

  // Finding and installing ----------------------------------------------------------------

  lemma SeekFinds(g: Grammar, s: Stack, p: Path)
    requires GrammarOk(g) && Valid(s.Doc(), p) && Addressable(g, s.Doc(), p)
    ensures SValid(s.tree, p) && Seek(g, s, Print(g, s.Doc(), p)) == (s, Some(p))
  {
    RoundTrip(g, s.Doc(), p);
    OverlaySame(s.tree);
    EraseAt(s.tree, p);
  }

  /** The pieces of a subtree are subtrees of it. */
  lemma PiecesAbsent(s: Stack, p: Path, held: set<nat>, id: nat)
    requires SValid(s.tree, p) && forall q :: p <= q ==> !MarkAt(s.tree, q, id)
    ensures id !in Pieces(SAt(s.tree, p), held)
    ensures forall m :: m in Pieces(SAt(s.tree, p), held) ==> Absent(Pieces(SAt(s.tree, p), held)[m], id)
  {
    var n := SAt(s.tree, p);
    forall q ensures !MarkAt(n, q, id) {
      SubMark(s.tree, p, q, id);
    }
    if id in Pieces(n, held) {
      var r := PieceOf(n, held, id);
      assert false;
    }
    forall m | m in Pieces(n, held) ensures Absent(Pieces(n, held)[m], id) {
      var r := PieceOf(n, held, m);
      forall q ensures !MarkAt(SAt(n, r), q, id) {
        SubMark(n, r, q, id);
      }
    }
  }

  /** What replacing a node does to a reference that is not below it. */
  lemma ReplaceKeeps(s: Stack, p: Path, x: SNode, id: nat)
    requires SValid(s.tree, p) && Absent(x, id) && forall q :: p <= q ==> !MarkAt(s.tree, q, id)
    ensures var t := Replace(s, p, x);
            && (forall q :: MarkAt(t.tree, q, id) <==> MarkAt(s.tree, q, id))
            && (id in t.loose <==> id in s.loose) && (id in s.loose ==> t.loose[id] == s.loose[id])
            && (forall m :: m in t.loose && !(m in s.loose && t.loose[m] == s.loose[m]) ==> Absent(t.loose[m], id))
  {
    PiecesAbsent(s, p, Held(s.diffs), id);
    forall q ensures MarkAt(SPut(s.tree, p, x), q, id) <==> MarkAt(s.tree, q, id) {
      PutMark(s.tree, p, x, q, id);
    }
  }

  lemma MarkedAbsent(x: SNode, id: nat, other: nat)
    requires x.SElem? && Absent(x, other) && other != id
    ensures Absent(Marked(x, id), other)
  {
    forall q ensures !MarkAt(Marked(x, id), q, other) {
      MarkedMark(x, id, q, other);
    }
  }

  lemma RenumberedAbsent(x: SNode, id: nat, next: nat)
    requires Only(x, id, []) && id != next
    ensures Absent(Marked(x, next), id)
  {
    forall q ensures !MarkAt(Marked(x, next), q, id) {
      MarkedMark(x, next, q, id);
    }
  }

  /** Installing a node that stands alone: it comes to p, and what was there
      falls into pieces. */
  lemma InstallForm(s: Stack, id: nat, p: Path)
    requires SValid(s.tree, p) && Alone(s, id) && Numbered(s)
    ensures var t := Install(s, id, p);
            && Renumbered(s, id, p) == s.next && s.loose[id].SElem? && id < s.next
            && t == Replace(s, p, Marked(s.loose[id], s.next)).(loose := t.loose, next := s.next + 1)
            && t.loose == Replace(s, p, Marked(s.loose[id], s.next)).loose - {id}
            && Absent(t.tree, id) && NotLoose(t, id)
  {
    assert MarkAt(s.loose[id], [], id);
    assert !MarkAt(s.tree, p, id);
    assert id >= s.next ==> NotLoose(s, id);
    var x := Marked(s.loose[id], s.next);
    RenumberedAbsent(s.loose[id], id, s.next);
    ReplaceKeeps(s, p, x, id);
    var r := Replace(s, p, x);
    forall q ensures !MarkAt(r.tree, q, id) {
    }
    RemoveAbsent(r.tree, id);
    forall m | m in r.loose && m != id ensures Remove(r.loose[m], id) == r.loose[m] {
      RemoveAbsent(r.loose[m], id);
    }
    assert RemoveLoose(r.loose, id) == r.loose - {id};
  }

  // Undo ------------------------------------------------------------------------------------

  /** The state after undoing an entry whose node stands alone. */
  ghost predicate UndoShape(s: Stack, h: History, t: Stack)
    requires Real(s, h, s.curr)
  {
    var (p, id, d) := (h.places[s.curr].value, Id(s, s.curr), s.diffs[s.curr]);
    && SValid(s.tree, p) && id in s.loose
    && t == Replace(s, p, Marked(s.loose[id], s.next)).(
              loose := Replace(s, p, Marked(s.loose[id], s.next)).loose - {id}, next := s.next + 1,
              diffs := s.diffs[s.curr := d.(after := Some(Erase(SAt(s.tree, p))), before := Some(s.next))],
              prevCurr := s.curr, curr := s.curr - 1)
  }

  /** The entry to be undone, and the document it is about. */
  ghost predicate Current(g: Grammar, s: Stack, h: History)
  {
    1 <= s.curr < |h.versions| == |h.places| && s.curr < |s.diffs| && EntryOk(g, s, h, s.curr)
        && s.Doc() == h.versions[s.curr]
  }

  lemma UndoForm(g: Grammar, s: Stack, h: History)
    requires GrammarOk(g) && Current(g, s, h) && Numbered(s) && Real(s, h, s.curr) && Alone(s, Id(s, s.curr))
    ensures UndoShape(s, h, Undo(g, s))
  {
    var (p, id) := (h.places[s.curr].value, Id(s, s.curr));
    assert EntryOk(g, s, h, s.curr);
    var was := h.versions[s.curr-1];
    QuerySurvivesEdit(g, was, p, At(s.Doc(), p));
    PrintNotEmpty(g, was, p);
    SeekFinds(g, s, p);
    InstallForm(s, id, p);
  }

  lemma UndoDoc(s: Stack, h: History, t: Stack)
    requires Real(s, h, s.curr) && UndoShape(s, h, t)
    ensures Valid(s.Doc(), h.places[s.curr].value)
    ensures t.Doc() == Put(s.Doc(), h.places[s.curr].value, Erase(s.loose[Id(s, s.curr)]))
    ensures t.diffs[s.curr].after == Some(At(s.Doc(), h.places[s.curr].value))
  {
    var (p, id) := (h.places[s.curr].value, Id(s, s.curr));
    EraseAt(s.tree, p);
    ErasePut(s.tree, p, Marked(s.loose[id], s.next));
  }

  /** Putting back what was there. */
  lemma Restored(was: Node, next: Node, p: Path)
    requires Valid(was, p) && Valid(next, p) && next == Put(was, p, At(next, p))
    ensures Put(next, p, At(was, p)) == was
  {
    PutPut(was, p, At(next, p), At(was, p));
    PutAt(was, p);
  }

  lemma UndoVersion(g: Grammar, s: Stack, h: History, t: Stack)
    requires Base(g, s, h) && Real(s, h, s.curr) && UndoShape(s, h, t) && Stored(s, h, s.curr)
    ensures t.Doc() == h.versions[s.curr-1]
  {
    UndoDoc(s, h, t);
    var (p, was) := (h.places[s.curr].value, h.versions[s.curr-1]);
    assert EntryOk(g, s, h, s.curr);
    Restored(was, s.Doc(), p);
  }

  /** What an undo does to the entries, whatever happened to the nodes. */
  ghost predicate MovedBack(s: Stack, h: History, t: Stack)
    requires Real(s, h, s.curr)
  {
    var (p, d) := (h.places[s.curr].value, s.diffs[s.curr]);
    && t.enabled == s.enabled && t.source == s.source && t.curr + 1 == s.curr && t.saved == s.saved
    && Valid(s.Doc(), p) && s.curr < |t.diffs| && t.diffs[s.curr].before.Some?
    && t.diffs == s.diffs[s.curr := d.(after := Some(At(s.Doc(), p)), before := t.diffs[s.curr].before)]
  }

  lemma UndoMovesBack(g: Grammar, s: Stack, h: History, t: Stack)
    requires Base(g, s, h) && Real(s, h, s.curr) && UndoShape(s, h, t)
    ensures MovedBack(s, h, t)
  {
    UndoDoc(s, h, t);
  }

  lemma UndoBase(g: Grammar, s: Stack, h: History, t: Stack)
    requires Base(g, s, h) && Real(s, h, s.curr) && MovedBack(s, h, t) && t.Doc() == h.versions[s.curr-1]
    ensures Base(g, t, h.(cur := h.cur - 1))
  {
    assert EntryOk(g, s, h, s.curr);
    var k := h.(cur := h.cur - 1);
    forall i | 1 <= i < |k.versions| ensures EntryOk(g, t, k, i) {
      assert EntryOk(g, s, h, i);
    }
  }

  /** The node being installed refers to nothing else that counts. */
  lemma InstalledAbsent(s: Stack, h: History, other: nat)
    requires Real(s, h, s.curr) && Alone(s, Id(s, s.curr)) && other != Id(s, s.curr) && other != s.next
    requires Absent(s.loose[Id(s, s.curr)], other)
    ensures Absent(Marked(s.loose[Id(s, s.curr)], s.next), other)
  {
    assert MarkAt(s.loose[Id(s, s.curr)], [], Id(s, s.curr));
    MarkedAbsent(s.loose[Id(s, s.curr)], s.next, other);
  }

  lemma UndoKeepsAlone(s: Stack, h: History, t: Stack, id: nat)
    requires Real(s, h, s.curr) && UndoShape(s, h, t) && Alone(s, Id(s, s.curr))
    requires Alone(s, id) && id != Id(s, s.curr) && id != s.next
    ensures Alone(t, id) && t.loose[id] == s.loose[id]
  {
    InstalledAbsent(s, h, id);
    ReplaceKeeps(s, h.places[s.curr].value, Marked(s.loose[Id(s, s.curr)], s.next), id);
  }

  /** An attached node that is not replaced stays where it is. */
  lemma UndoKeepsOnly(s: Stack, h: History, t: Stack, id: nat, q: Path)
    requires Real(s, h, s.curr) && UndoShape(s, h, t) && Alone(s, Id(s, s.curr))
    requires Only(s.tree, id, q) && NotLoose(s, id) && id != Id(s, s.curr) && id != s.next
    requires !(h.places[s.curr].value <= q)
    ensures Only(t.tree, id, q) && NotLoose(t, id)
  {
    InstalledAbsent(s, h, id);
    ReplaceKeeps(s, h.places[s.curr].value, Marked(s.loose[Id(s, s.curr)], s.next), id);
  }

  /** The undone entry's own node is now part of the document. */
  lemma UndoInstalls(s: Stack, h: History, t: Stack)
    requires Real(s, h, s.curr) && UndoShape(s, h, t) && Alone(s, Id(s, s.curr)) && Numbered(s)
    ensures Only(t.tree, s.next, h.places[s.curr].value) && NotLoose(t, s.next)
  {
    var (p, x) := (h.places[s.curr].value, s.loose[Id(s, s.curr)]);
    assert MarkAt(x, [], Id(s, s.curr));
    assert Absent(s.tree, s.next) && NotLoose(s, s.next);
    forall q ensures MarkAt(t.tree, q, s.next) <==> q == p {
      PutMark(s.tree, p, Marked(x, s.next), q, s.next);
      if p <= q {
        MarkedMark(x, s.next, q[|p|..], s.next);
        assert q[|p|..] == [] <==> q == p;
      }
    }
    PiecesAbsent(s, p, Held(s.diffs), s.next);
  }

  lemma UndoNumbered(s: Stack, h: History, t: Stack)
    requires Real(s, h, s.curr) && UndoShape(s, h, t) && Alone(s, Id(s, s.curr)) && Numbered(s)
    ensures Numbered(t)
  {
    forall id | id >= t.next ensures Absent(t.tree, id) && NotLoose(t, id) {
      assert Absent(s.tree, id) && NotLoose(s, id);
      assert id != Id(s, s.curr);
      InstalledAbsent(s, h, id);
      ReplaceKeeps(s, h.places[s.curr].value, Marked(s.loose[Id(s, s.curr)], s.next), id);
    }
  }

  /** An attached node that is replaced, with no reference above it, comes to
      stand alone with what it held. */
  lemma UndoDetaches(s: Stack, h: History, t: Stack, id: nat, q: Path)
    requires Real(s, h, s.curr) && UndoShape(s, h, t) && Alone(s, Id(s, s.curr))
    requires Only(s.tree, id, q) && NotLoose(s, id) && id != Id(s, s.curr) && id != s.next && id in Held(s.diffs)
    requires h.places[s.curr].value <= q
    requires forall r, other :: h.places[s.curr].value <= r < q && MarkAt(s.tree, r, other) ==> other !in Held(s.diffs)
    ensures Alone(t, id) && t.loose[id] == SAt(s.tree, q)
  {
    var p := h.places[s.curr].value;
    var (n, held, r) := (SAt(s.tree, p), Held(s.diffs), q[|p|..]);
    assert p + r == q;
    SubMark(s.tree, p, r, id);
    forall v, other | v < r && MarkAt(n, v, other) ensures other !in held {
      SubMark(s.tree, p, v, other);
      assert p <= p + v < q;
    }
    PieceIn(n, held, id, r);
    DetachedPiece(s, p, held, id, q);
    InstalledAbsent(s, h, id);
    var x := Marked(s.loose[Id(s, s.curr)], s.next);
    forall v ensures !MarkAt(t.tree, v, id) {
      PutMark(s.tree, p, x, v, id);
    }
    SubOnly(s.tree, id, q);
  }

  lemma SubOnly(n: SNode, id: nat, q: Path)
    requires Only(n, id, q)
    ensures Only(SAt(n, q), id, [])
  {
    forall v ensures MarkAt(SAt(n, q), v, id) <==> v == [] {
      SubMark(n, q, v, id);
      assert q + v == q <==> v == [];
    }
  }

  lemma DetachedPiece(s: Stack, p: Path, held: set<nat>, id: nat, q: Path)
    requires SValid(s.tree, p) && p <= q && Only(s.tree, id, q) && id in Pieces(SAt(s.tree, p), held)
    requires forall r, other :: p <= r < q && MarkAt(s.tree, r, other) ==> other !in held
    ensures Pieces(SAt(s.tree, p), held)[id] == SAt(s.tree, q)
    ensures forall m :: m in Pieces(SAt(s.tree, p), held) && m != id ==> Absent(Pieces(SAt(s.tree, p), held)[m], id)
  {
    var n := SAt(s.tree, p);
    var r := PieceOf(n, held, id);
    SubMark(s.tree, p, r, id);
    SubAt(s.tree, p, r);
    assert p + r == q;
    forall m | m in Pieces(n, held) && m != id ensures Absent(Pieces(n, held)[m], id) {
      var v := PieceOf(n, held, m);
      SubMark(s.tree, p, v, m);
      forall w ensures !MarkAt(SAt(n, v), w, id) {
        SubMark(n, v, w, id);
        SubMark(s.tree, p, v + w, id);
        assert p + (v + w) == (p + v) + w;
      }
    }
  }

  lemma {:induction false} SubAt(n: SNode, p: Path, q: Path)
    requires SValid(n, p)
    ensures SValid(SAt(n, p), q) <==> SValid(n, p + q)
    ensures SValid(n, p + q) ==> SAt(SAt(n, p), q) == SAt(n, p + q)
  {
    if p == [] {
      assert p + q == q;
    } else {
      SubAt(n.Kids()[p[0]], p[1..], q);
      assert (p + q)[1..] == p[1..] + q;
    }
  }

  lemma {:induction false} PutApart(n: Node, p: Path, x: Node, q: Path)
    requires Valid(n, p) && !(p <= q) && !(q <= p)
    ensures Valid(Put(n, p, x), q) <==> Valid(n, q)
    ensures Valid(n, q) ==> At(Put(n, p, x), q) == At(n, q)
  {
    if p[0] == q[0] {
      assert p[1..] <= q[1..] ==> p <= q;
      assert q[1..] <= p[1..] ==> q <= p;
      PutApart(n.kids[p[0]], p[1..], x, q[1..]);
    }
  }

  /** The place of entry i is the same in versions c and d when no edit in
      between touches it. */
  lemma {:induction false} Undisturbed(g: Grammar, s: Stack, h: History, c: nat, d: nat, i: nat)
    requires Base(g, s, h) && Real(s, h, i) && c <= d < i < |h.versions| && Valid(h.versions[d], h.places[i].value)
    requires forall m :: c < m <= d ==> !Covers(h.places, m, i) && !Within(h.places, m, i)
    ensures Valid(h.versions[c], h.places[i].value)
    ensures At(h.versions[c], h.places[i].value) == At(h.versions[d], h.places[i].value)
    decreases d - c
  {
    if c < d {
      Undisturbed(g, s, h, c + 1, d, i);
      assert EntryOk(g, s, h, c + 1);
      assert !Covers(h.places, c + 1, i) && !Within(h.places, c + 1, i);
      if h.places[c+1].Some? {
        var q := h.places[c+1].value;
        PutApart(h.versions[c], q, At(h.versions[c+1], q), h.places[i].value);
      }
    }
  }

  /** A safe list leaves an attached node's place untouched since the edit that
      is being undone over it. */
  lemma SafeUntouched(s: Stack, h: History, c: nat, i: nat)
    requires Safe(h.places) && Real(s, h, i) && 1 <= c < i && Covers(h.places, c, i) && !Cut(h.places, c, i, i)
    ensures forall m :: c < m < i ==> !Covers(h.places, m, i) && !Within(h.places, m, i)
  {
    forall m | c < m < i ensures !Covers(h.places, m, i) && !Within(h.places, m, i) {
      if Within(h.places, m, i) {
        assert Cut(h.places, 0, m, i);
        assert false;
      }
    }
  }

  /** Nothing that counts sits between the replaced node and an attached one
      below it. */
  lemma NothingBetween(g: Grammar, s: Stack, h: History, i: nat, r: Path, other: nat)
    requires Rel(g, s, h) && Real(s, h, s.curr) && Real(s, h, i) && Attached(s, h, i) && Covers(h.places, s.curr, i)
    requires h.places[s.curr].value <= r < h.places[i].value && MarkAt(s.tree, r, other)
    ensures other !in Held(s.diffs)
  {
    if other in Held(s.diffs) {
      var e := HeldIs(g, s, h, other);
      assert Attached(s, h, e) && h.places[e].value == r;
      assert Covers(h.places, s.curr, e) && Within(h.places, i, e) && Covers(h.places, e, i);
      if e > i {
        assert Cut(h.places, 0, i, e);
      } else {
        assert Cut(h.places, h.cur, i, i);
      }
      assert false;
    }
  }

  lemma UndoHome(g: Grammar, s: Stack, h: History, t: Stack, i: nat)
    requires Rel(g, s, h) && Real(s, h, s.curr) && UndoShape(s, h, t) && Stored(s, h, s.curr)
    requires Real(s, h, i) && i != s.curr
    ensures var k := h.(cur := h.cur - 1); Attached(t, k, i) || Stored(t, k, i)
  {
    var (c, k, id) := (s.curr, h.(cur := h.cur - 1), Id(s, i));
    assert id != Id(s, c) && Id(t, i) == id;
    assert id >= s.next ==> Absent(s.tree, id) && NotLoose(s, id);
    if Stored(s, h, i) {
      UndoKeepsAlone(s, h, t, id);
    } else {
      var q := h.places[i].value;
      if h.places[c].value <= q {
        UndoHomeBelow(g, s, h, t, i);
      } else {
        UndoKeepsOnly(s, h, t, id, q);
        assert !Covers(h.places, c, i);
        assert !Cut(k.places, k.cur, i, i);
      }
    }
  }

  /** A live node under the place put back is set aside, as it should be. */
  lemma UndoHomeBelow(g: Grammar, s: Stack, h: History, t: Stack, i: nat)
    requires Rel(g, s, h) && Real(s, h, s.curr) && UndoShape(s, h, t) && Stored(s, h, s.curr)
    requires Real(s, h, i) && i != s.curr && !Stored(s, h, i) && h.places[s.curr].value <= h.places[i].value
    ensures Stored(t, h.(cur := h.cur - 1), i)
  {
    var (c, id, q) := (s.curr, Id(s, i), h.places[i].value);
    assert id != Id(s, c) && Id(t, i) == id;
    assert id >= s.next ==> Absent(s.tree, id) && NotLoose(s, id);
    assert Covers(h.places, c, i);
    forall r, other | h.places[c].value <= r < q && MarkAt(s.tree, r, other) ensures other !in Held(s.diffs) {
      NothingBetween(g, s, h, i, r, other);
    }
    RealIsHeld(g, s, h, i);
    UndoDetaches(s, h, t, id, q);
    SafeUntouched(s, h, c, i);
    assert EntryOk(g, s, h, i);
    Undisturbed(g, s, h, c, i - 1, i);
    EraseAt(s.tree, q);
  }

  lemma UndoRefines(g: Grammar, s: Stack, h: History)
    requires GrammarOk(g) && Rel(g, s, h) && s.curr > 0
    ensures Rel(g, Undo(g, s), h.(cur := h.cur - 1))
  {
    var (t, k) := (Undo(g, s), h.(cur := h.cur - 1));
    assert EntryOk(g, s, h, s.curr);
    if Real(s, h, s.curr) {
      assert Stored(s, h, s.curr);
      UndoForm(g, s, h);
      UndoVersion(g, s, h, t);
      UndoMovesBack(g, s, h, t);
      UndoBase(g, s, h, t);
      UndoNumbered(s, h, t);
      UndoInstalls(s, h, t);
      forall i | Real(t, k, i) ensures Attached(t, k, i) || Stored(t, k, i) {
        if i != s.curr {
          UndoHome(g, s, h, t, i);
        }
      }
      HomesGiven(s, h);
      UndoDistinct(s, h, t, k);
    } else {
      NullMove(g, s, h, t, k);
    }
  }

  ghost predicate IdsGiven(s: Stack, h: History)
  {
    forall i :: Real(s, h, i) ==> Id(s, i) < s.next
  }

  lemma HomesGiven(s: Stack, h: History)
    requires Homes(s, h) && Numbered(s)
    ensures IdsGiven(s, h)
  {
    forall i | Real(s, h, i) ensures Id(s, i) < s.next {
      assert Id(s, i) >= s.next ==> Absent(s.tree, Id(s, i)) && NotLoose(s, Id(s, i));
    }
  }

  lemma UndoDistinct(s: Stack, h: History, t: Stack, k: History)
    requires Real(s, h, s.curr) && UndoShape(s, h, t) && DistinctIds(s, h) && IdsGiven(s, h)
    requires k == h.(cur := k.cur)
    ensures DistinctIds(t, k)
  {
    forall i, j | Real(t, k, i) && Real(t, k, j) && i != j ensures Id(t, i) != Id(t, j) {
      assert Real(s, h, i) && Real(s, h, j);
    }
  }

  /** Moving over an entry without a node. */
  lemma NullMove(g: Grammar, s: Stack, h: History, t: Stack, k: History)
    requires Rel(g, s, h) && t == s.(prevCurr := t.prevCurr, curr := t.curr) && k == h.(cur := k.cur)
    requires t.curr == k.cur < |h.versions|
    requires (k.cur + 1 == h.cur && !Real(s, h, h.cur)) || (k.cur == h.cur + 1 && !Real(s, h, k.cur))
    ensures Rel(g, t, k)
  {
    forall i | 1 <= i < |k.versions| ensures EntryOk(g, t, k, i) {
      assert EntryOk(g, s, h, i);
    }
    assert EntryOk(g, s, h, if k.cur < h.cur then h.cur else k.cur);
    forall i, j | Real(t, k, i) && Real(t, k, j) && i != j ensures Id(t, i) != Id(t, j) {
      assert Real(s, h, i) && Real(s, h, j);
    }
    forall i | Real(t, k, i) ensures Attached(t, k, i) || Stored(t, k, i) {
      if Attached(s, h, i) {
        assert i != k.cur;
        forall m | k.cur < m < i ensures !Covers(k.places, m, i) {
          assert m != h.cur ==> !Covers(h.places, m, i) || m <= h.cur;
        }
      } else {
        assert Stored(s, h, i);
      }
    }
  }

  // Redo --------------------------------------------------------------------------------------

  ghost predicate RedoShape(s: Stack, h: History, t: Stack)
    requires Real(s, h, s.curr + 1)
  {
    var (p, d) := (h.places[s.curr+1].value, s.diffs[s.curr+1]);
    && SValid(s.tree, p) && d.after.Some?
    && t == Replace(s, p, Copy(d.after.value)).(prevCurr := s.curr, curr := s.curr + 1)
  }

  lemma PutBackForm(g: Grammar, s: Stack, d: Diff, p: Path)
    requires GrammarOk(g) && Valid(s.Doc(), p) && Addressable(g, s.Doc(), p)
    requires d.query == Print(g, s.Doc(), p) && d.after.Some?
    ensures d.query != "" && SValid(s.tree, p) && PutBack(g, s, d) == Replace(s, p, Copy(d.after.value))
  {
    PrintNotEmpty(g, s.Doc(), p);
    SeekFinds(g, s, p);
  }

  lemma RedoForm(g: Grammar, s: Stack, h: History)
    requires GrammarOk(g) && Base(g, s, h) && Real(s, h, s.curr + 1)
    ensures RedoShape(s, h, Redo(g, s))
  {
    assert EntryOk(g, s, h, s.curr + 1);
    PutBackForm(g, s, s.diffs[s.curr+1], h.places[s.curr+1].value);
  }

  lemma RedoBase(g: Grammar, s: Stack, h: History, t: Stack)
    requires Base(g, s, h) && Real(s, h, s.curr + 1) && RedoShape(s, h, t)
    ensures Base(g, t, h.(cur := h.cur + 1))
  {
    var p := h.places[s.curr+1].value;
    assert EntryOk(g, s, h, s.curr + 1);
    ErasePut(s.tree, p, Copy(s.diffs[s.curr+1].after.value));
    EraseCopy(s.diffs[s.curr+1].after.value);
    var k := h.(cur := h.cur + 1);
    forall i | 1 <= i < |k.versions| ensures EntryOk(g, t, k, i) {
      assert EntryOk(g, s, h, i);
    }
  }

  /** A reference that is not below the replaced node keeps its home. */
  lemma RedoKeeps(s: Stack, h: History, t: Stack, id: nat)
    requires Real(s, h, s.curr + 1) && RedoShape(s, h, t)
    requires forall q :: h.places[s.curr+1].value <= q ==> !MarkAt(s.tree, q, id)
    ensures forall q :: MarkAt(t.tree, q, id) <==> MarkAt(s.tree, q, id)
    ensures id in t.loose <==> id in s.loose
    ensures id in s.loose ==> t.loose[id] == s.loose[id]
    ensures forall m :: m in t.loose && !(m in s.loose && t.loose[m] == s.loose[m]) ==> Absent(t.loose[m], id)
  {
    CopyAbsent(s.diffs[s.curr+1].after.value, id);
    ReplaceKeeps(s, h.places[s.curr+1].value, Copy(s.diffs[s.curr+1].after.value), id);
  }

  lemma RedoNumbered(s: Stack, h: History, t: Stack)
    requires Real(s, h, s.curr + 1) && RedoShape(s, h, t) && Numbered(s)
    ensures Numbered(t)
  {
    forall id | id >= t.next ensures Absent(t.tree, id) && NotLoose(t, id) {
      assert Absent(s.tree, id) && NotLoose(s, id);
      RedoKeeps(s, h, t, id);
    }
  }

  /** The node that a redo replaces comes to stand alone, with what it held. */
  lemma RedoDetaches(g: Grammar, s: Stack, h: History, t: Stack)
    requires Base(g, s, h) && Real(s, h, s.curr + 1) && RedoShape(s, h, t) && Attached(s, h, s.curr + 1)
    ensures Alone(t, Id(s, s.curr + 1))
    ensures t.loose[Id(s, s.curr + 1)] == SAt(s.tree, h.places[s.curr+1].value)
  {
    var (p, id) := (h.places[s.curr+1].value, Id(s, s.curr + 1));
    RealIsHeld(g, s, h, s.curr + 1);
    var n := SAt(s.tree, p);
    assert n.Mark() == Some(id);
    assert Pieces(n, Held(s.diffs)) == map[id := n];
    SubOnly(s.tree, id, p);
    var x := Copy(s.diffs[s.curr+1].after.value);
    CopyAbsent(s.diffs[s.curr+1].after.value, id);
    forall q ensures !MarkAt(t.tree, q, id) {
      PutMark(s.tree, p, x, q, id);
    }
  }

  lemma RedoHome(g: Grammar, s: Stack, h: History, t: Stack, i: nat)
    requires Rel(g, s, h) && Real(s, h, s.curr + 1) && RedoShape(s, h, t) && Real(s, h, i)
    ensures var k := h.(cur := h.cur + 1); Attached(t, k, i) || Stored(t, k, i)
  {
    var (c, k, id) := (s.curr, h.(cur := h.cur + 1), Id(s, i));
    var p := h.places[c+1].value;
    if Stored(s, h, i) {
      assert Absent(s.tree, id);
      RedoKeeps(s, h, t, id);
      assert Stored(t, k, i);
    } else if i == c + 1 {
      RedoDetaches(g, s, h, t);
      EraseAt(s.tree, p);
      assert Stored(t, k, i);
    } else {
      assert !Covers(h.places, c + 1, i);
      assert forall q :: p <= q ==> !MarkAt(s.tree, q, id);
      RedoKeeps(s, h, t, id);
      assert Attached(t, k, i);
    }
  }

  lemma RedoRefines(g: Grammar, s: Stack, h: History)
    requires GrammarOk(g) && Rel(g, s, h) && s.curr + 1 < |s.diffs|
    ensures if Pending(h) then Rel(g, Redo(g, s), h.(cur := h.cur + 1)) else Redo(g, s) == s
  {
    if Pending(h) {
      var (t, k) := (Redo(g, s), h.(cur := h.cur + 1));
      assert EntryOk(g, s, h, s.curr + 1);
      if Real(s, h, s.curr + 1) {
        RedoForm(g, s, h);
        RedoBase(g, s, h, t);
        RedoNumbered(s, h, t);
        forall i | Real(t, k, i) ensures Attached(t, k, i) || Stored(t, k, i) {
          assert Real(s, h, i);
          RedoHome(g, s, h, t, i);
        }
        forall i, j | Real(t, k, i) && Real(t, k, j) && i != j ensures Id(t, i) != Id(t, j) {
          assert Real(s, h, i) && Real(s, h, j);
        }
      } else {
        NullMove(g, s, h, t, k);
      }
    }
  }

  // Snapshots and edits ------------------------------------------------------------------------

  /** Pushing keeps the entries below, all of which stand alone. */
  lemma PushKeeps(g: Grammar, s: Stack, h: History, query: string, before: Option<Node>, mergeType: string,
                  args: MergeArgs, k: History, i: nat)
    requires Kept(g, s, h) && s.curr + 1 < |s.diffs| && 1 <= i <= s.curr && (before.Some? ==> before.value.Elem?)
    requires |k.versions| == |k.places| == s.curr + 2 && k.cur == s.curr + 1
    requires k.versions[..s.curr+1] == h.versions[..s.curr+1] && k.places[..s.curr+1] == h.places[..s.curr+1]
    ensures var t := Push(s, query, before, mergeType, args);
            EntryOk(g, t, k, i) && (Real(t, k, i) ==> Real(s, h, i) && Id(t, i) == Id(s, i) && Stored(t, k, i))
  {
    var t := Push(s, query, before, mergeType, args);
    assert EntryOk(g, s, h, i);
    assert k.versions[..s.curr+1][i] == k.versions[i] && k.versions[..s.curr+1][i-1] == k.versions[i-1];
    assert k.places[..s.curr+1][i] == k.places[i];
    if Real(t, k, i) {
      assert Stored(s, h, i);
      var id := Id(s, i);
      assert id >= s.next ==> NotLoose(s, id);
      if before.Some? {
        NewAbsent(before.value, s.next, id);
      }
    }
  }

  lemma NewAbsent(n: Node, next: nat, id: nat)
    requires n.Elem? && id != next
    ensures Absent(Marked(Copy(n), next), id)
  {
    CopyAbsent(n, id);
    MarkedAbsent(Copy(n), next, id);
  }

  lemma NewOnly(n: Node, next: nat)
    requires n.Elem?
    ensures Only(Marked(Copy(n), next), next, [])
  {
    CopyAbsent(n, next);
    forall q ensures MarkAt(Marked(Copy(n), next), q, next) <==> q == [] {
      MarkedMark(Copy(n), next, q, next);
    }
  }

  lemma PushNumbered(s: Stack, query: string, before: Option<Node>, mergeType: string, args: MergeArgs)
    requires Numbered(s) && s.curr + 1 < |s.diffs| && (before.Some? ==> before.value.Elem?)
    ensures Numbered(Push(s, query, before, mergeType, args))
  {
    var t := Push(s, query, before, mergeType, args);
    forall id | id >= t.next ensures Absent(t.tree, id) && NotLoose(t, id) {
      assert Absent(s.tree, id) && NotLoose(s, id);
      if before.Some? {
        NewAbsent(before.value, s.next, id);
      }
    }
  }

  lemma NullRefines(g: Grammar, s: Stack, h: History)
    requires Rel(g, s, h) && s.curr + 1 < |s.diffs|
    ensures Rel(g, SnapshotNull(s), Append(h, s.Doc(), None))
  {
    var (t, k) := (SnapshotNull(s), Append(h, s.Doc(), None));
    PushNumbered(s, "", None, "null", NoArgs);
    forall i | 1 <= i < |k.versions|
      ensures EntryOk(g, t, k, i) && (Real(t, k, i) ==> Real(s, h, i) && Id(t, i) == Id(s, i) && Stored(t, k, i))
    {
      if i <= s.curr {
        PushKeeps(g, s, h, "", None, "null", NoArgs, k, i);
      }
    }
    SafeNull(h.places[..h.cur+1], h.places);
  }

  lemma SafeNull(qs: seq<Option<Path>>, ps: seq<Option<Path>>)
    requires Safe(ps) && qs <= ps
    ensures Safe(qs + [None])
  {
    var rs := qs + [None];
    assert qs == ps[..|qs|];
    SafePrefix(ps, |qs|);
    forall j, k | 1 <= j < k < |rs| && Within(rs, j, k) && Cut(rs, 0, j, k) ensures Cut(rs, j, k, k) {
      var l :| 0 < l < j && Covers(rs, l, k);
      assert Within(qs, j, k) && Covers(qs, l, k);
      assert Cut(qs, 0, j, k);
      var m :| j < m < k && Covers(qs, m, k);
      assert Covers(rs, m, k);
    }
  }

  /** An edit in place neither brings in nor moves references that are not
      below it. */
  lemma InPlaceKeeps(s: Stack, p: Path, x: Node, id: nat)
    requires Valid(s.Doc(), p)
    ensures Absent(s.tree, id) ==> Absent(InPlace(s, p, x).tree, id)
    ensures forall q :: Only(s.tree, id, q) && x.Elem? && !(p < q) ==> Only(InPlace(s, p, x).tree, id, q)
  {
    EraseAt(s.tree, p);
    var (n, t) := (SAt(s.tree, p), InPlace(s, p, x));
    forall r | MarkAt(t.tree, r, id) ensures MarkAt(s.tree, r, id) {
      PutMark(s.tree, p, Overlay(n, x), r, id);
      if p <= r {
        OverlayMark(n, x, r[|p|..], id);
        SubMark(s.tree, p, r[|p|..], id);
        assert p + r[|p|..] == r;
      }
    }
    forall q | Only(s.tree, id, q) && x.Elem? && !(p < q) ensures Only(t.tree, id, q) {
      PutMark(s.tree, p, Overlay(n, x), q, id);
      if p <= q {
        assert p == q && q[|p|..] == [];
      }
    }
  }

  /** The circumstances of an edit that makes a new entry. */
  ghost predicate NewEdit(g: Grammar, s: Stack, h: History, p: Path, x: Node, mergeType: string, args: MergeArgs)
  {
    && GrammarOk(g) && Kept(g, s, h) && s.curr + 1 < |s.diffs| && Local(g, s.Doc(), p, x)
    && !Merges(g, s, p, mergeType, args)
  }

  lemma EditOld(g: Grammar, s: Stack, h: History, p: Path, x: Node, mergeType: string, args: MergeArgs, i: nat)
    requires NewEdit(g, s, h, p, x, mergeType, args) && 1 <= i <= s.curr
    ensures var (t, k) := (Edit(g, s, p, x, mergeType, args), Append(h, Put(s.Doc(), p, x), Some(p)));
            && EntryOk(g, t, k, i)
            && (Real(t, k, i) ==> Real(s, h, i) && Id(t, i) == Id(s, i) && Stored(t, k, i) && Id(t, i) < s.next)
  {
    var (u, k) := (Snapshot(g, s, p, mergeType, args), Append(h, Put(s.Doc(), p, x), Some(p)));
    PushKeeps(g, s, h, Print(g, s.Doc(), p), Some(At(s.Doc(), p)), mergeType, args, k, i);
    assert EntryOk(g, u, k, i);
    var t := Edit(g, s, p, x, mergeType, args);
    if Real(t, k, i) {
      assert Real(u, k, i) && Stored(u, k, i);
      InPlaceKeeps(u, p, x, Id(u, i));
      assert Stored(s, h, i);
      assert Id(s, i) >= s.next ==> NotLoose(s, Id(s, i));
    }
  }

  lemma EditNew(g: Grammar, s: Stack, h: History, p: Path, x: Node, mergeType: string, args: MergeArgs)
    requires NewEdit(g, s, h, p, x, mergeType, args)
    ensures var (t, k) := (Edit(g, s, p, x, mergeType, args), Append(h, Put(s.Doc(), p, x), Some(p)));
            && EntryOk(g, t, k, s.curr + 1) && Real(t, k, s.curr + 1) && Id(t, s.curr + 1) == s.next
            && Stored(t, k, s.curr + 1)
  {
    var u := Snapshot(g, s, p, mergeType, args);
    AtPut(s.Doc(), p, x);
    PrintNotEmpty(g, s.Doc(), p);
    NewOnly(At(s.Doc(), p), s.next);
    EraseCopy(At(s.Doc(), p));
    assert NotLoose(s, s.next) && Absent(s.tree, s.next);
    InPlaceKeeps(u, p, x, s.next);
  }

  lemma EditNumbered(g: Grammar, s: Stack, h: History, p: Path, x: Node, mergeType: string, args: MergeArgs)
    requires NewEdit(g, s, h, p, x, mergeType, args)
    ensures Numbered(Edit(g, s, p, x, mergeType, args))
    ensures Edit(g, s, p, x, mergeType, args).Doc() == Put(s.Doc(), p, x)
  {
    var u := Snapshot(g, s, p, mergeType, args);
    InPlaceDoc(u, p, x);
    PushNumbered(s, Print(g, s.Doc(), p), Some(At(s.Doc(), p)), mergeType, args);
    InPlaceNumbered(u, p, x);
  }

  lemma EditBase(g: Grammar, s: Stack, h: History, p: Path, x: Node, mergeType: string, args: MergeArgs)
    requires NewEdit(g, s, h, p, x, mergeType, args)
    ensures Base(g, Edit(g, s, p, x, mergeType, args), Append(h, Put(s.Doc(), p, x), Some(p)))
  {
    var (t, k) := (Edit(g, s, p, x, mergeType, args), Append(h, Put(s.Doc(), p, x), Some(p)));
    EditNumbered(g, s, h, p, x, mergeType, args);
    assert |t.diffs| == |s.diffs| && t.enabled && t.curr == s.curr + 1 == k.cur
        && |k.versions| == |k.places| == s.curr + 2;
    assert forall i :: s.curr + 1 < i < |s.diffs| ==> t.diffs[i] == BLANK;
    assert t.diffs[0] == s.diffs[0];
    forall i | 1 <= i < |k.versions| ensures EntryOk(g, t, k, i) {
      if i <= s.curr {
        EditOld(g, s, h, p, x, mergeType, args, i);
      } else {
        EditNew(g, s, h, p, x, mergeType, args);
      }
    }
  }

  lemma EditHome(g: Grammar, s: Stack, h: History, p: Path, x: Node, mergeType: string, args: MergeArgs, i: nat)
    requires NewEdit(g, s, h, p, x, mergeType, args)
    requires Real(Edit(g, s, p, x, mergeType, args), Append(h, Put(s.Doc(), p, x), Some(p)), i)
    ensures var (t, k) := (Edit(g, s, p, x, mergeType, args), Append(h, Put(s.Doc(), p, x), Some(p)));
            && Stored(t, k, i)
            && (if i <= s.curr then Real(s, h, i) && Id(t, i) == Id(s, i) < s.next else Id(t, i) == s.next)
  {
    if i <= s.curr {
      EditOld(g, s, h, p, x, mergeType, args, i);
    } else {
      EditNew(g, s, h, p, x, mergeType, args);
    }
  }

  lemma EditDistinct(g: Grammar, s: Stack, h: History, p: Path, x: Node, mergeType: string, args: MergeArgs)
    requires NewEdit(g, s, h, p, x, mergeType, args)
    ensures DistinctIds(Edit(g, s, p, x, mergeType, args), Append(h, Put(s.Doc(), p, x), Some(p)))
  {
    var (t, k) := (Edit(g, s, p, x, mergeType, args), Append(h, Put(s.Doc(), p, x), Some(p)));
    forall i, j | Real(t, k, i) && Real(t, k, j) && i != j ensures Id(t, i) != Id(t, j) {
      EditHome(g, s, h, p, x, mergeType, args, i);
      EditHome(g, s, h, p, x, mergeType, args, j);
    }
  }

  lemma EditKept(g: Grammar, s: Stack, h: History, p: Path, x: Node, mergeType: string, args: MergeArgs)
    requires NewEdit(g, s, h, p, x, mergeType, args)
    ensures Kept(g, Edit(g, s, p, x, mergeType, args), Append(h, Put(s.Doc(), p, x), Some(p)))
  {
    var (t, k) := (Edit(g, s, p, x, mergeType, args), Append(h, Put(s.Doc(), p, x), Some(p)));
    EditNumbered(g, s, h, p, x, mergeType, args);
    EditBase(g, s, h, p, x, mergeType, args);
    EditDistinct(g, s, h, p, x, mergeType, args);
    forall i | Real(t, k, i) ensures Attached(t, k, i) || Stored(t, k, i) {
      EditHome(g, s, h, p, x, mergeType, args, i);
    }
  }

  // Edits that merge ------------------------------------------------------------------------------

  /** A merging snapshot addresses the very node of the entry on top. */
  lemma MergedNode(g: Grammar, s: Stack, h: History, p: Path, x: Node, mergeType: string, args: MergeArgs)
    requires GrammarOk(g) && Base(g, s, h) && Local(g, s.Doc(), p, x) && Merges(g, s, p, mergeType, args)
    ensures h.places[s.curr] == Some(p)
  {
    PrintNotEmpty(g, s.Doc(), p);
    assert EntryOk(g, s, h, s.curr);
    var (was, q) := (h.versions[s.curr-1], h.places[s.curr].value);
    QuerySurvivesEdit(g, was, q, At(s.Doc(), q));
    QueriesDiffer(g, s.Doc(), p, q);
  }

  /** Replacing a node hides what was changed inside it. */
  lemma {:induction false} PutHides(n: Node, p: Path, x: Node, q: Path, y: Node)
    requires Valid(n, p) && q <= p
    ensures Valid(n, q) && Valid(Put(n, p, x), q) && Put(Put(n, p, x), q, y) == Put(n, q, y)
    ensures p != q ==> At(Put(n, p, x), q).Tag() == At(n, q).Tag() && At(Put(n, p, x), q).Name() == At(n, q).Name()
    ensures p != q ==> At(Put(n, p, x), q).Elem? && At(n, q).Elem?
    ensures Put(n, p, x) == Put(n, q, At(Put(n, p, x), q))
  {
    if q != [] {
      assert q[1..] <= p[1..];
      PutHides(n.kids[p[0]], p[1..], x, q[1..], y);
      assert n.kids[p[0] := Put(n.kids[p[0]], p[1..], x)][p[0] := y] == n.kids[p[0] := y];
    }
  }

  /** The entry behind a merged edit still leads to its version. */
  lemma MergedNext(g: Grammar, s: Stack, h: History, p: Path, x: Node, t: Stack, k: History)
    requires GrammarOk(g) && Base(g, s, h) && Local(g, s.Doc(), p, x) && Real(s, h, s.curr + 1)
    requires h.places[s.curr+1].value <= p
    requires t == s.(tree := t.tree) && k == h.(versions := h.versions[h.cur := Put(s.Doc(), p, x)])
    ensures EntryOk(g, t, k, s.curr + 1)
  {
    assert EntryOk(g, s, h, s.curr + 1);
    var (q, next) := (h.places[s.curr+1].value, h.versions[s.curr+1]);
    PutHides(s.Doc(), p, x, q, At(next, q));
    AtPut(s.Doc(), p, x);
    var y := At(Put(s.Doc(), p, x), q);
    QuerySurvivesEdit(g, s.Doc(), q, y);
  }

  lemma MergedEntry(g: Grammar, s: Stack, h: History, p: Path, x: Node, t: Stack, k: History, i: nat)
    requires GrammarOk(g) && Base(g, s, h) && Local(g, s.Doc(), p, x) && s.curr >= 1 && h.places[s.curr] == Some(p)
    requires t == s.(tree := t.tree) && k == h.(versions := h.versions[h.cur := Put(s.Doc(), p, x)])
    requires 1 <= i < |h.versions| && i != s.curr + 1
    ensures EntryOk(g, t, k, i)
  {
    assert EntryOk(g, s, h, i);
    if i == s.curr {
      var was := h.versions[i-1];
      PutPut(was, p, At(s.Doc(), p), x);
      AtPut(was, p, x);
    }
  }

  lemma MergedHome(g: Grammar, s: Stack, h: History, p: Path, x: Node, k: History, i: nat)
    requires Rel(g, s, h) && Local(g, s.Doc(), p, x) && MergeAllowed(s, h, p) && Real(s, h, i)
    requires k == h.(versions := h.versions[h.cur := Put(s.Doc(), p, x)])
    ensures var t := InPlace(s, p, x); Attached(t, k, i) || Stored(t, k, i)
  {
    var (t, id) := (InPlace(s, p, x), Id(s, i));
    InPlaceKeeps(s, p, x, id);
    if Attached(s, h, i) {
      assert h.cur + 1 <= i;
      assert NextIsLive(s, h) && Real(s, h, h.cur + 1);
      assert i == h.cur + 1 || !Covers(h.places, h.cur + 1, i);
      assert !(p < h.places[i].value);
      assert Attached(t, k, i);
    } else {
      StoredBehind(s, h, i);
      assert Stored(t, k, i);
    }
  }

  /** With the next entry's node live, what stands alone is not affected by a
      change of the current version. */
  lemma StoredBehind(s: Stack, h: History, i: nat)
    requires Real(s, h, i) && Stored(s, h, i)
    requires h.cur + 1 < |h.places| && h.cur + 1 < |s.diffs| ==> NextIsLive(s, h)
    ensures i != h.cur + 1
  {
  }

  lemma MergedBase(g: Grammar, s: Stack, h: History, p: Path, x: Node, k: History)
    requires GrammarOk(g) && Base(g, s, h) && Local(g, s.Doc(), p, x) && MergeAllowed(s, h, p)
    requires s.curr >= 1 && h.places[s.curr] == Some(p)
    requires k == h.(versions := h.versions[h.cur := Put(s.Doc(), p, x)])
    ensures Base(g, InPlace(s, p, x), k)
  {
    var t := InPlace(s, p, x);
    InPlaceDoc(s, p, x);
    forall i | 1 <= i < |k.versions| ensures EntryOk(g, t, k, i) {
      if i == s.curr + 1 {
        assert NextIsLive(s, h);
        MergedNext(g, s, h, p, x, t, k);
      } else {
        MergedEntry(g, s, h, p, x, t, k, i);
      }
    }
  }

  lemma InPlaceNumbered(s: Stack, p: Path, x: Node)
    requires Valid(s.Doc(), p) && Numbered(s)
    ensures Numbered(InPlace(s, p, x))
  {
    var t := InPlace(s, p, x);
    forall id | id >= t.next ensures Absent(t.tree, id) && NotLoose(t, id) {
      assert Absent(s.tree, id) && NotLoose(s, id);
      InPlaceKeeps(s, p, x, id);
    }
  }

  lemma MergeRefines(g: Grammar, s: Stack, h: History, p: Path, x: Node, mergeType: string, args: MergeArgs)
    requires GrammarOk(g) && Rel(g, s, h) && Local(g, s.Doc(), p, x) && Merges(g, s, p, mergeType, args)
    requires MergeAllowed(s, h, p)
    ensures Rel(g, Edit(g, s, p, x, mergeType, args), h.(versions := h.versions[h.cur := Put(s.Doc(), p, x)]))
  {
    MergedNode(g, s, h, p, x, mergeType, args);
    var (t, k) := (InPlace(s, p, x), h.(versions := h.versions[h.cur := Put(s.Doc(), p, x)]));
    MergedBase(g, s, h, p, x, k);
    InPlaceNumbered(s, p, x);
    forall i | Real(t, k, i) ensures Attached(t, k, i) || Stored(t, k, i) {
      assert Real(s, h, i);
      MergedHome(g, s, h, p, x, k, i);
    }
    forall i, j | Real(t, k, i) && Real(t, k, j) && i != j ensures Id(t, i) != Id(t, j) {
      assert Real(s, h, i) && Real(s, h, j);
    }
  }

  // Whole runs -----------------------------------------------------------------------------

  lemma SaveRefines(g: Grammar, s: Stack, h: History)
    requires Rel(g, s, h)
    ensures Rel(g, Save(s), h)
  {
    var t := Save(s);
    forall i | 1 <= i < |h.versions| ensures EntryOk(g, t, h, i) {
      assert EntryOk(g, s, h, i);
    }
    forall i | Real(t, h, i) ensures Attached(t, h, i) || Stored(t, h, i) {
      assert Real(s, h, i);
    }
    forall i, j | Real(t, h, i) && Real(t, h, j) && i != j ensures Id(t, i) != Id(t, j) {
      assert Real(s, h, i) && Real(s, h, j);
    }
  }

  lemma ClearRefines(g: Grammar, s: Stack, h: History)
    requires Rel(g, s, h)
    ensures Rel(g, Clear(s), Begin(s.Doc()))
  {
    var t := Clear(s);
    forall id | id >= t.next ensures Absent(t.tree, id) && NotLoose(t, id) {
      assert Absent(s.tree, id) && NotLoose(s, id);
    }
  }

  lemma StepRefines(g: Grammar, s: Stack, h: History, a: Act)
    requires GrammarOk(g) && Rel(g, s, h) && Allowed(g, s, h, a)
    ensures Rel(g, Step(g, s, a), SpecStep(h, a, Merged(g, s, a)))
  {
    match a {
      case AEdit(p, x, mergeType, args) =>
        if Merges(g, s, p, mergeType, args) {
          MergeRefines(g, s, h, p, x, mergeType, args);
        } else {
          EditKept(g, s, h, p, x, mergeType, args);
        }
      case ANull => NullRefines(g, s, h);
      case AUndo => if s.curr > 0 { UndoRefines(g, s, h); }
      case ARedo => RedoRefines(g, s, h);
      case ASave => SaveRefines(g, s, h);
      case AClear => ClearRefines(g, s, h);
    }
  }

  /** A run of the stack and of the list of versions, side by side. */
  ghost predicate Lockstep(g: Grammar, ss: seq<Stack>, hs: seq<History>, acts: seq<Act>)
  {
    && |ss| == |hs| == |acts| + 1
    && (forall i :: 0 <= i < |acts| ==>
          && hs[i].cur < |hs[i].versions| == |hs[i].places| && ss[i].curr < |ss[i].diffs|
          && (acts[i].AEdit? ==> Valid(hs[i].versions[hs[i].cur], acts[i].p))
          && Allowed(g, ss[i], hs[i], acts[i])
          && ss[i+1] == Step(g, ss[i], acts[i])
          && hs[i+1] == SpecStep(hs[i], acts[i], Merged(g, ss[i], acts[i])))
  }

  /** The refinement, over every run: the document on screen is always the
      current version of the list. */
  lemma {:induction false} RunRefines(g: Grammar, doc: Node, ss: seq<Stack>, hs: seq<History>, acts: seq<Act>, i: nat)
    requires GrammarOk(g) && Lockstep(g, ss, hs, acts) && i < |ss|
    requires ss[0] == Fresh(doc) && hs[0] == Begin(doc)
    ensures Rel(g, ss[i], hs[i])
    ensures ss[i].Doc() == hs[i].versions[hs[i].cur] && ss[i].curr == hs[i].cur
  {
    if i == 0 {
      FreshRel(g, doc);
    } else {
      RunRefines(g, doc, ss, hs, acts, i - 1);
      StepRefines(g, ss[i-1], hs[i-1], acts[i-1]);
    }
  }
}
