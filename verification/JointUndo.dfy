/** Two undo stacks, one for the experiment and one for its metadata, kept in
    step: every snapshot of one is mirrored by a null snapshot of the other. */
module JointUndo {
  import opened Common
  import opened Dom
  import opened XQuery
  import opened DiffStack
  import opened DiffRefinement

  /** Null snapshots until the index reaches the other stack's. */
  function CatchUp(s: Stack, target: nat): (r: Stack)
    requires s.enabled
    ensures r.enabled && r.tree == s.tree && r.source == s.source
    ensures r.curr == if s.curr < target then target else s.curr
    decreases target - s.curr
  {
    if s.curr < target then CatchUp(SnapshotNull(s), target) else s
  }

  datatype Pair = Pair(vpz: Stack, vpm: Stack)

  function Sync(a: Pair): (r: Pair)
    requires a.vpz.enabled && a.vpm.enabled
  {
    var vpm := CatchUp(a.vpm, a.vpz.curr);
    Pair(CatchUp(a.vpz, vpm.curr), vpm)
  }

  /** synchronizeUndoStack: two loops, both of which terminate. */
  method Synchronize(vpz: DomDiffStack, vpm: DomDiffStack)
    requires vpz != vpm && vpz.state.enabled && vpm.state.enabled
    modifies vpz`state, vpm`state
    ensures Pair(vpz.state, vpm.state) == Sync(Pair(old(vpz.state), old(vpm.state)))
  {
    while vpz.state.curr > vpm.state.curr
      invariant vpz.state == old(vpz.state) && vpm.state.enabled
      invariant CatchUp(vpm.state, vpz.state.curr) == CatchUp(old(vpm.state), vpz.state.curr)
      decreases vpz.state.curr - vpm.state.curr
    {
      vpm.TakeNullSnapshot();
    }
    ghost var mid := vpm.state;
    while vpm.state.curr > vpz.state.curr
      invariant vpm.state == mid && vpz.state.enabled
      invariant CatchUp(vpz.state, mid.curr) == CatchUp(old(vpz.state), mid.curr)
      decreases vpm.state.curr - vpz.state.curr
    {
      vpz.TakeNullSnapshot();
    }
  }

  // In step: equal indices and equal marks -----------------------------------------------

  ghost predicate SameMarks(a: seq<Diff>, b: seq<Diff>)
  {
    && |a| == |b|
    && forall i :: 0 <= i < |a| ==> a[i].defined == b[i].defined && a[i].source == b[i].source
  }

  ghost predicate InStep(a: Pair)
  {
    && a.vpz.enabled && a.vpm.enabled
    && a.vpz.source == a.vpm.source
    && a.vpz.curr == a.vpm.curr
    && SameMarks(a.vpz.diffs, a.vpm.diffs)
  }

  lemma FreshInStep(vpz: Node, vpm: Node)
    ensures InStep(Pair(Fresh(vpz), Fresh(vpm)))
  {
  }

  /** Pushing on both sides, past the capacity included. */
  lemma PushInStep(a: Stack, b: Stack, query: string, before: Option<Node>, mergeType: string, args: MergeArgs)
    requires InStep(Pair(a, b))
    ensures InStep(Pair(Push(a, query, before, mergeType, args), SnapshotNull(b)))
    ensures InStep(Pair(SnapshotNull(b), Push(a, query, before, mergeType, args)))
  {
  }

  lemma CatchUpOne(s: Stack, target: nat)
    requires s.enabled && target == s.curr + 1
    ensures CatchUp(s, target) == SnapshotNull(s)
  {
    assert CatchUp(SnapshotNull(s), target) == SnapshotNull(s);
  }

  /** A snapshot of either document, merged or not, followed by the
      synchronisation, leaves the stacks in step. */
  lemma SnapshotVpzInStep(g: Grammar, a: Pair, p: Path, mergeType: string, args: MergeArgs)
    requires InStep(a) && Valid(a.vpz.Doc(), p)
    ensures var s := Snapshot(g, a.vpz, p, mergeType, args);
            var r := Sync(Pair(s, a.vpm));
            && InStep(r) && r.vpz == s
            && r.vpm == if Merges(g, a.vpz, p, mergeType, args) then a.vpm else SnapshotNull(a.vpm)
  {
    if !Merges(g, a.vpz, p, mergeType, args) {
      PushInStep(a.vpz, a.vpm, Print(g, a.vpz.Doc(), p), Some(At(a.vpz.Doc(), p)), mergeType, args);
      CatchUpOne(a.vpm, a.vpz.curr + 1);
    }
  }

  lemma SnapshotVpmInStep(g: Grammar, a: Pair, p: Path, mergeType: string, args: MergeArgs)
    requires InStep(a) && Valid(a.vpm.Doc(), p)
    ensures var s := Snapshot(g, a.vpm, p, mergeType, args);
            var r := Sync(Pair(a.vpz, s));
            && InStep(r) && r.vpm == s
            && r.vpz == if Merges(g, a.vpm, p, mergeType, args) then a.vpz else SnapshotNull(a.vpz)
  {
    if !Merges(g, a.vpm, p, mergeType, args) {
      PushInStep(a.vpm, a.vpz, Print(g, a.vpm.Doc(), p), Some(At(a.vpm.Doc(), p)), mergeType, args);
      CatchUpOne(a.vpz, a.vpm.curr + 1);
    }
  }

  /** What an undo or a redo does to the marks does not depend on the document. */
  ghost predicate SameEntries(s: Stack, t: Stack)
  {
    t.enabled == s.enabled && t.source == s.source && SameMarks(t.diffs, s.diffs)
  }

  lemma TakeBackMarks(g: Grammar, s: Stack)
    requires s.curr < |s.diffs|
    ensures SameEntries(s, TakeBack(g, s))
  {
    var d := s.diffs[s.curr];
    var (t, at) := Seek(g, s, d.query);
    assert t == s.(tree := t.tree);
    if at.Some? && d.before.Some? {
      var u := Install(t, d.before.value, at.value);
      assert u == t.(tree := u.tree, loose := u.loose, next := u.next);
    }
  }

  lemma UndoMarks(g: Grammar, s: Stack)
    requires s.curr < |s.diffs|
    ensures SameEntries(s, Undo(g, s))
    ensures var d := s.diffs[s.curr];
            Undo(g, s).curr == if s.curr > 0 && d.source == s.source && d.defined then s.curr - 1 else s.curr
  {
    TakeBackMarks(g, s);
  }

  lemma PutBackMarks(g: Grammar, s: Stack, d: Diff)
    ensures SameEntries(s, PutBack(g, s, d)) && PutBack(g, s, d).curr == s.curr
  {
    var (t, at) := Seek(g, s, d.query);
    assert t == s.(tree := t.tree);
  }

  lemma RedoMarks(g: Grammar, s: Stack)
    requires s.curr + 1 < |s.diffs|
    ensures SameEntries(s, Redo(g, s))
    ensures var d := s.diffs[s.curr+1];
            Redo(g, s).curr == if d.defined && (d.source == s.source || d.source == "") then s.curr + 1 else s.curr
  {
    var d := s.diffs[s.curr+1];
    PutBackMarks(g, s, d);
    RedoneMarks(s, if d.query == "" then s else PutBack(g, s, d), Redo(g, s));
  }

  /** Moving the index changes no entry. */
  lemma RedoneMarks(s: Stack, r: Stack, t: Stack)
    requires SameEntries(s, r) && (t == s || t == r.(prevCurr := t.prevCurr, curr := t.curr))
    ensures SameEntries(s, t)
  {
  }

  lemma UndoInStep(ga: Grammar, gb: Grammar, a: Pair)
    requires InStep(a) && a.vpz.curr < |a.vpz.diffs|
    ensures InStep(Pair(Undo(ga, a.vpz), Undo(gb, a.vpm)))
  {
    UndoMarks(ga, a.vpz);
    UndoMarks(gb, a.vpm);
  }

  lemma RedoInStep(ga: Grammar, gb: Grammar, a: Pair)
    requires InStep(a) && a.vpz.curr + 1 < |a.vpz.diffs|
    ensures InStep(Pair(Redo(ga, a.vpz), Redo(gb, a.vpm)))
  {
    RedoMarks(ga, a.vpz);
    RedoMarks(gb, a.vpm);
  }

  // Both documents at the same joint version ----------------------------------------------

  datatype JointAct =
    | EditVpz(p: Path, x: Node, mergeType: string, args: MergeArgs)
    | EditVpm(p: Path, x: Node, mergeType: string, args: MergeArgs)
    | JointUndo
    | JointRedo

  /** One user action on the pair of documents. */
  function JointStep(ga: Grammar, gb: Grammar, a: Pair, act: JointAct): (r: Pair)
    requires a.vpz.enabled && a.vpm.enabled
    requires act.EditVpz? ==> Valid(a.vpz.Doc(), act.p)
    requires act.EditVpm? ==> Valid(a.vpm.Doc(), act.p)
    requires a.vpz.curr + 1 < |a.vpz.diffs| && a.vpm.curr + 1 < |a.vpm.diffs|
  {
    match act
    case EditVpz(p, x, mergeType, args) =>
      SyncKeeps(Pair(Snapshot(ga, a.vpz, p, mergeType, args), a.vpm));
      SnapshotKeeps(ga, a.vpz, p, mergeType, args);
      var s := Sync(Pair(Snapshot(ga, a.vpz, p, mergeType, args), a.vpm));
      s.(vpz := InPlace(s.vpz, p, x))
    case EditVpm(p, x, mergeType, args) =>
      SyncKeeps(Pair(a.vpz, Snapshot(gb, a.vpm, p, mergeType, args)));
      SnapshotKeeps(gb, a.vpm, p, mergeType, args);
      var s := Sync(Pair(a.vpz, Snapshot(gb, a.vpm, p, mergeType, args)));
      s.(vpm := InPlace(s.vpm, p, x))
    case JointUndo => Pair(Undo(ga, a.vpz), Undo(gb, a.vpm))
    case JointRedo => Pair(Redo(ga, a.vpz), Redo(gb, a.vpm))
  }

  lemma SyncKeeps(a: Pair)
    requires a.vpz.enabled && a.vpm.enabled
    ensures Sync(a).vpz.tree == a.vpz.tree && Sync(a).vpm.tree == a.vpm.tree
  {
  }

  /** Each stack is related to its own list of versions, and the lists have the
      same length. */
  ghost predicate JointRel(ga: Grammar, gb: Grammar, a: Pair, ha: History, hb: History)
  {
    && InStep(a)
    && Rel(ga, a.vpz, ha) && Rel(gb, a.vpm, hb)
    && |ha.versions| == |hb.versions|
  }

  ghost predicate JointAllowed(ga: Grammar, gb: Grammar, a: Pair, ha: History, hb: History, act: JointAct)
  {
    && a.vpz.curr + 1 < |a.vpz.diffs|
    && match act {
         case EditVpz(p, x, mergeType, args) => Allowed(ga, a.vpz, ha, AEdit(p, x, mergeType, args))
         case EditVpm(p, x, mergeType, args) => Allowed(gb, a.vpm, hb, AEdit(p, x, mergeType, args))
         case _ => true
       }
  }

  /** What the action does to the two lists of versions: an edit of one document
      adds a version to both, an undo or redo moves both. */
  function SpecVpz(ga: Grammar, gb: Grammar, a: Pair, h: History, act: JointAct): (r: History)
    requires h.cur < |h.versions| == |h.places|
    requires act.EditVpz? ==> Valid(a.vpz.Doc(), act.p) && Valid(h.versions[h.cur], act.p)
    requires act.EditVpm? ==> Valid(a.vpm.Doc(), act.p)
  {
    match act
    case EditVpz(p, x, mergeType, args) =>
      SpecStep(h, AEdit(p, x, mergeType, args), Merges(ga, a.vpz, p, mergeType, args))
    case EditVpm(p, x, mergeType, args) =>
      if Merges(gb, a.vpm, p, mergeType, args) then h else SpecStep(h, ANull, false)
    case JointUndo => SpecStep(h, AUndo, false)
    case JointRedo => SpecStep(h, ARedo, false)
  }

  function SpecVpm(ga: Grammar, gb: Grammar, a: Pair, h: History, act: JointAct): (r: History)
    requires h.cur < |h.versions| == |h.places|
    requires act.EditVpz? ==> Valid(a.vpz.Doc(), act.p)
    requires act.EditVpm? ==> Valid(a.vpm.Doc(), act.p) && Valid(h.versions[h.cur], act.p)
  {
    match act
    case EditVpz(p, x, mergeType, args) =>
      if Merges(ga, a.vpz, p, mergeType, args) then h else SpecStep(h, ANull, false)
    case EditVpm(p, x, mergeType, args) =>
      SpecStep(h, AEdit(p, x, mergeType, args), Merges(gb, a.vpm, p, mergeType, args))
    case JointUndo => SpecStep(h, AUndo, false)
    case JointRedo => SpecStep(h, ARedo, false)
  }

  lemma EditVpzRefines(ga: Grammar, gb: Grammar, a: Pair, ha: History, hb: History, act: JointAct)
    requires GrammarOk(ga) && GrammarOk(gb) && JointRel(ga, gb, a, ha, hb)
    requires JointAllowed(ga, gb, a, ha, hb, act) && act.EditVpz?
    ensures JointRel(ga, gb, JointStep(ga, gb, a, act), SpecVpz(ga, gb, a, ha, act), SpecVpm(ga, gb, a, hb, act))
  {
    var (p, x, mergeType, args) := (act.p, act.x, act.mergeType, act.args);
    SnapshotVpzInStep(ga, a, p, mergeType, args);
    StepRefines(ga, a.vpz, ha, AEdit(p, x, mergeType, args));
    if !Merges(ga, a.vpz, p, mergeType, args) {
      NullRefines(gb, a.vpm, hb);
    }
  }

  lemma EditVpmRefines(ga: Grammar, gb: Grammar, a: Pair, ha: History, hb: History, act: JointAct)
    requires GrammarOk(ga) && GrammarOk(gb) && JointRel(ga, gb, a, ha, hb)
    requires JointAllowed(ga, gb, a, ha, hb, act) && act.EditVpm?
    ensures JointRel(ga, gb, JointStep(ga, gb, a, act), SpecVpz(ga, gb, a, ha, act), SpecVpm(ga, gb, a, hb, act))
  {
    var (p, x, mergeType, args) := (act.p, act.x, act.mergeType, act.args);
    SnapshotVpmInStep(gb, a, p, mergeType, args);
    StepRefines(gb, a.vpm, hb, AEdit(p, x, mergeType, args));
    if !Merges(gb, a.vpm, p, mergeType, args) {
      NullRefines(ga, a.vpz, ha);
    }
  }

  /** From lockstep, every joint action keeps both documents at the same joint
      version of two equally long lists of whole documents. */
  lemma JointRefines(ga: Grammar, gb: Grammar, a: Pair, ha: History, hb: History, act: JointAct)
    requires GrammarOk(ga) && GrammarOk(gb) && JointRel(ga, gb, a, ha, hb)
    requires JointAllowed(ga, gb, a, ha, hb, act)
    ensures JointRel(ga, gb, JointStep(ga, gb, a, act), SpecVpz(ga, gb, a, ha, act), SpecVpm(ga, gb, a, hb, act))
  {
    match act {
      case EditVpz(_, _, _, _) => EditVpzRefines(ga, gb, a, ha, hb, act);
      case EditVpm(_, _, _, _) => EditVpmRefines(ga, gb, a, ha, hb, act);
      case JointUndo => UndoBothRefines(ga, gb, a, ha, hb, act);
      case JointRedo => RedoBothRefines(ga, gb, a, ha, hb, act);
    }
  }

  lemma UndoBothRefines(ga: Grammar, gb: Grammar, a: Pair, ha: History, hb: History, act: JointAct)
    requires GrammarOk(ga) && GrammarOk(gb) && JointRel(ga, gb, a, ha, hb)
    requires act.JointUndo? && JointAllowed(ga, gb, a, ha, hb, act)
    ensures JointRel(ga, gb, JointStep(ga, gb, a, act), SpecVpz(ga, gb, a, ha, act), SpecVpm(ga, gb, a, hb, act))
  {
    UndoInStep(ga, gb, a);
    if a.vpz.curr > 0 {
      UndoRefines(ga, a.vpz, ha);
      UndoRefines(gb, a.vpm, hb);
    }
  }

  lemma RedoBothRefines(ga: Grammar, gb: Grammar, a: Pair, ha: History, hb: History, act: JointAct)
    requires GrammarOk(ga) && GrammarOk(gb) && JointRel(ga, gb, a, ha, hb)
    requires act.JointRedo? && JointAllowed(ga, gb, a, ha, hb, act)
    ensures JointRel(ga, gb, JointStep(ga, gb, a, act), SpecVpz(ga, gb, a, ha, act), SpecVpm(ga, gb, a, hb, act))
  {
    RedoInStep(ga, gb, a);
    RedoRefines(ga, a.vpz, ha);
    RedoRefines(gb, a.vpm, hb);
  }

  /** The pair of stacks next to the two lists of versions. */
  datatype Joint = Joint(a: Pair, ha: History, hb: History)

  ghost predicate Follows(ga: Grammar, gb: Grammar, s: Joint, act: JointAct, t: Joint)
  {
    && JointAllowed(ga, gb, s.a, s.ha, s.hb, act)
    && s.a.vpz.enabled && s.a.vpm.enabled && s.a.vpm.curr + 1 < |s.a.vpm.diffs|
    && s.ha.cur < |s.ha.versions| == |s.ha.places| && s.hb.cur < |s.hb.versions| == |s.hb.places|
    && (act.EditVpz? ==> Valid(s.ha.versions[s.ha.cur], act.p))
    && (act.EditVpm? ==> Valid(s.hb.versions[s.hb.cur], act.p))
    && t == Joint(JointStep(ga, gb, s.a, act), SpecVpz(ga, gb, s.a, s.ha, act), SpecVpm(ga, gb, s.a, s.hb, act))
  }

  ghost predicate JointRun(ga: Grammar, gb: Grammar, js: seq<Joint>, acts: seq<JointAct>)
  {
    |js| == |acts| + 1 && forall i :: 0 <= i < |acts| ==> Follows(ga, gb, js[i], acts[i], js[i+1])
  }

  /** Over every run of joint actions from two fresh stacks, the stacks stay in
      step and both documents sit at the same joint version. */
  lemma {:induction false} JointRunRefines(ga: Grammar, gb: Grammar, vpz: Node, vpm: Node, js: seq<Joint>,
                                           acts: seq<JointAct>, i: nat)
    requires GrammarOk(ga) && GrammarOk(gb) && JointRun(ga, gb, js, acts) && i < |js|
    requires js[0] == Joint(Pair(Fresh(vpz), Fresh(vpm)), Begin(vpz), Begin(vpm))
    ensures JointRel(ga, gb, js[i].a, js[i].ha, js[i].hb) && InStep(js[i].a) && js[i].ha.cur == js[i].hb.cur
    ensures js[i].a.vpz.Doc() == js[i].ha.versions[js[i].ha.cur] && js[i].a.vpm.Doc() == js[i].hb.versions[js[i].hb.cur]
  {
    if i == 0 {
      FreshInStep(vpz, vpm);
      FreshRel(ga, vpz);
      FreshRel(gb, vpm);
    } else {
      var s := js[i-1];
      JointRunRefines(ga, gb, vpz, vpm, js, acts, i - 1);
      assert Follows(ga, gb, s, acts[i-1], js[i]);
      JointRefines(ga, gb, s.a, s.ha, s.hb, acts[i-1]);
    }
  }
}
