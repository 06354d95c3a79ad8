/** The undo stack: it never stores a document, only the subtree an edit may
    touch, before and after, addressed by a query. */
module DiffStack {
  import opened Common
  import opened Dom
  import opened XQuery
  import opened Shared

  /** What lets two snapshots merge: the same query, or the same queries. */
  datatype MergeArgs = NoArgs | OneQuery(query: string) | ManyQueries(queries: seq<string>)

  /** An entry. `before` is a reference to a node object, which may be part of
      the document or of another entry's tree; `after` is copied anew by every
      undo before a redo puts it in place, so its value is all that matters. */
  datatype Diff = Diff(before: Option<nat>, after: Option<Node>, query: string,
                       mergeType: string, mergeArgs: MergeArgs, source: string, defined: bool)

  const BLANK := Diff(None, None, "", "null", NoArgs, "", false)
  const CAPACITY := 300

  /** The document together with the fields of its stack. `loose` holds the node
      objects that entries refer to outside the document, `next` is the number
      of the next reference. */
  datatype Stack = Stack(tree: SNode, loose: map<nat, SNode>, next: nat,
                         diffs: seq<Diff>, prevCurr: nat, curr: nat, saved: nat, source: string, enabled: bool)
  {
    function Doc(): (n: Node) { Erase(tree) }
  }

  function Fresh(doc: Node): (s: Stack)
    ensures |s.diffs| == CAPACITY
  {
    Stack(Copy(doc), map[], 0, seq(CAPACITY, _ => BLANK), 0, 0, 0, "", true)
  }

  /** The references in use. */
  function Held(diffs: seq<Diff>): (r: set<nat>)
  {
    set d | d in diffs && d.defined && d.before.Some? :: d.before.value
  }

  /** Entries behind the current one are forgotten. */
  function ResetFrom(diffs: seq<Diff>, k: nat): (r: seq<Diff>)
    ensures |r| == |diffs|
    ensures forall i :: 0 <= i < |diffs| ==> r[i] == if i < k then diffs[i] else BLANK
  {
    seq(|diffs|, i requires 0 <= i < |diffs| => if i < k then diffs[i] else BLANK)
  }

  predicate SameQueries(a: seq<string>, b: seq<string>)
  {
    |a| == |b| && |a| > 0 && forall i :: 0 <= i < |a| ==> a[i] in b
  }

  predicate ArgsMatch(top: MergeArgs, args: MergeArgs)
  {
    match args
    case NoArgs => false
    case OneQuery(q) => top == OneQuery(q)
    case ManyQueries(qs) => top.ManyQueries? && SameQueries(top.queries, qs)
  }

  /** Whether a snapshot of the node at p joins the entry on top. */
  predicate Merges(g: Grammar, s: Stack, p: Path, mergeType: string, args: MergeArgs)
    requires Valid(s.Doc(), p)
  {
    && s.curr > 0 && mergeType != "null" && s.curr != s.saved
    && s.curr < |s.diffs|
    && s.diffs[s.curr].mergeType == mergeType
    && s.diffs[s.curr].query == Print(g, s.Doc(), p)
    && ArgsMatch(s.diffs[s.curr].mergeArgs, args)
  }

  /** A new entry on top, with a copy of the node to come back to; past the
      capacity only the index moves. */
  function Push(s: Stack, query: string, before: Option<Node>, mergeType: string, args: MergeArgs): (r: Stack)
  {
    var c := s.curr + 1;
    if c >= |s.diffs| then s.(prevCurr := s.curr, curr := c)
    else
      var id := if before.Some? then Some(s.next) else None;
      var d := Diff(id, s.diffs[c].after, query, mergeType, args, s.source, true);
      s.(prevCurr := s.curr, curr := c, diffs := ResetFrom(s.diffs[c := d], c + 1), next := s.next + 1,
         loose := if before.Some? then s.loose[s.next := Marked(Copy(before.value), s.next)] else s.loose)
  }

  /** A snapshot that stands for a change made in the other document. */
  function SnapshotNull(s: Stack): (r: Stack)
  {
    if !s.enabled then s else Push(s, "", None, "null", NoArgs)
  }

  function Snapshot(g: Grammar, s: Stack, p: Path, mergeType: string, args: MergeArgs): (r: Stack)
    requires Valid(s.Doc(), p)
  {
    if !s.enabled || Merges(g, s, p, mergeType, args) then s
    else Push(s, Print(g, s.Doc(), p), Some(At(s.Doc(), p)), mergeType, args)
  }

  // When an edit goes on with the entry on top -----------------------------------------------

  /** The queries an edit is about. */
  function Moved(args: MergeArgs): (r: set<string>)
  {
    match args
    case NoArgs => {}
    case OneQuery(q) => {q}
    case ManyQueries(qs) => set q | q in qs
  }

  ghost predicate NoRepeats(args: MergeArgs)
  {
    args.ManyQueries? ==> forall i, j :: 0 <= i < j < |args.queries| ==> args.queries[i] != args.queries[j]
  }

  /** The edit is of the kind of the entry on top, at the same node and about the
      same elements, and that entry is neither the bottom nor the saved one. */
  ghost predicate Continues(g: Grammar, s: Stack, p: Path, mergeType: string, args: MergeArgs)
    requires Valid(s.Doc(), p) && s.curr < |s.diffs|
  {
    var top := s.diffs[s.curr];
    && s.curr != 0 && s.curr != s.saved && mergeType != "null"
    && top.mergeType == mergeType && top.query == Print(g, s.Doc(), p)
    && (top.mergeArgs.OneQuery? <==> args.OneQuery?) && (top.mergeArgs.ManyQueries? <==> args.ManyQueries?)
    && Moved(args) != {} && Moved(args) == Moved(top.mergeArgs)
  }

  /** A new entry is on top. It refers to a copy of the node as it was; the entries
      below are untouched, those above are forgotten, and nothing else changes. */
  ghost predicate Opened(g: Grammar, s: Stack, p: Path, mergeType: string, args: MergeArgs, t: Stack)
    requires Valid(s.Doc(), p)
  {
    && t.curr == s.curr + 1 < |t.diffs| == |s.diffs| && t.prevCurr == s.curr
    && t.tree == s.tree && t.saved == s.saved && t.source == s.source && t.enabled == s.enabled
    && (forall i :: 0 <= i <= s.curr ==> t.diffs[i] == s.diffs[i])
    && (forall i :: t.curr < i < |t.diffs| ==> !t.diffs[i].defined && t.diffs[i].before == None)
    && var d := t.diffs[t.curr];
       && d.defined && d.source == s.source && d.mergeType == mergeType && d.mergeArgs == args
       && d.query == Print(g, s.Doc(), p)
       && d.before == Some(s.next) && s.next in t.loose && Erase(t.loose[s.next]) == At(s.Doc(), p)
       && forall id :: id in s.loose && id != s.next ==> id in t.loose && t.loose[id] == s.loose[id]
  }

  lemma {:induction false} CountMoved(qs: seq<string>)
    requires NoRepeats(ManyQueries(qs))
    ensures |Moved(ManyQueries(qs))| == |qs|
  {
    if qs != [] {
      var front := qs[..|qs|-1];
      CountMoved(front);
      assert Moved(ManyQueries(qs)) == Moved(ManyQueries(front)) + {qs[|qs|-1]};
    }
  }

  /** A set no smaller than one it lies in is that one. */
  lemma {:induction false} FullSubset<T>(a: set<T>, b: set<T>)
    requires a <= b && |a| == |b|
    ensures a == b
  {
    if a != b {
      var x :| x in b && x !in a;
      SubsetSize(a, b - {x});
    }
  }

  lemma {:induction false} SubsetSize<T>(a: set<T>, b: set<T>)
    requires a <= b
    ensures |a| <= |b|
    decreases a
  {
    if a != {} {
      var x :| x in a;
      SubsetSize(a - {x}, b - {x});
    }
  }

  lemma SameMoved(a: seq<string>, b: seq<string>)
    requires NoRepeats(ManyQueries(a)) && NoRepeats(ManyQueries(b))
    ensures SameQueries(a, b) <==> Moved(ManyQueries(b)) != {} && Moved(ManyQueries(a)) == Moved(ManyQueries(b))
  {
    CountMoved(a);
    CountMoved(b);
    if SameQueries(a, b) {
      forall q | q in a ensures q in b {
        var i :| 0 <= i < |a| && a[i] == q;
      }
      FullSubset(Moved(ManyQueries(a)), Moved(ManyQueries(b)));
      assert b[0] in Moved(ManyQueries(b));
    }
    if Moved(ManyQueries(b)) != {} && Moved(ManyQueries(a)) == Moved(ManyQueries(b)) {
      forall i | 0 <= i < |a| ensures a[i] in b {
        assert a[i] in Moved(ManyQueries(a));
      }
    }
  }

  lemma ArgsExact(top: MergeArgs, args: MergeArgs)
    requires NoRepeats(args) && NoRepeats(top)
    ensures ArgsMatch(top, args) <==>
              && (top.OneQuery? <==> args.OneQuery?) && (top.ManyQueries? <==> args.ManyQueries?)
              && Moved(args) != {} && Moved(args) == Moved(top)
  {
    if args.ManyQueries? && top.ManyQueries? {
      SameMoved(top.queries, args.queries);
    }
    if args.OneQuery? && top.OneQuery? {
      assert args.query in Moved(args);
    }
  }

  lemma PushOpens(g: Grammar, s: Stack, p: Path, mergeType: string, args: MergeArgs)
    requires Valid(s.Doc(), p) && s.curr + 1 < |s.diffs|
    ensures Opened(g, s, p, mergeType, args, Push(s, Print(g, s.Doc(), p), Some(At(s.Doc(), p)), mergeType, args))
  {
    EraseCopy(At(s.Doc(), p));
  }

  /** A snapshot leaves the stack alone if the edit goes on with the entry on top,
      and opens a new entry in every other case. */
  lemma SnapshotExact(g: Grammar, s: Stack, p: Path, mergeType: string, args: MergeArgs)
    requires Valid(s.Doc(), p) && s.enabled && s.curr + 1 < |s.diffs|
    requires NoRepeats(args) && NoRepeats(s.diffs[s.curr].mergeArgs)
    ensures if Continues(g, s, p, mergeType, args) then Snapshot(g, s, p, mergeType, args) == s
            else Opened(g, s, p, mergeType, args, Snapshot(g, s, p, mergeType, args))
  {
    ArgsExact(s.diffs[s.curr].mergeArgs, args);
    PushOpens(g, s, p, mergeType, args);
  }

  /** Whatever the lists, an edit that leaves out an element of the entry on top,
      or is about a different single one, opens a new entry. */
  lemma SnapshotOpens(g: Grammar, s: Stack, p: Path, mergeType: string, args: MergeArgs, q: string)
    requires Valid(s.Doc(), p) && s.enabled && s.curr + 1 < |s.diffs|
    requires q in Moved(s.diffs[s.curr].mergeArgs) && q !in Moved(args)
    ensures Opened(g, s, p, mergeType, args, Snapshot(g, s, p, mergeType, args))
  {
    var top := s.diffs[s.curr].mergeArgs;
    if top.ManyQueries? && args.ManyQueries? {
      var i :| 0 <= i < |top.queries| && top.queries[i] == q;
      assert top.queries[i] !in args.queries;
    }
    PushOpens(g, s, p, mergeType, args);
  }

  /** With an element listed twice the test is fooled: an edit of two elements
      goes on with an entry about one of them. */
  lemma RepeatsMerge()
    ensures ArgsMatch(ManyQueries(["a", "a"]), ManyQueries(["a", "b"]))
    ensures Moved(ManyQueries(["a", "a"])) != Moved(ManyQueries(["a", "b"]))
  {
    var (a, b) := (["a", "a"], ["a", "b"]);
    assert b[0] == "a" && b[1] == "b";
    assert "b" in Moved(ManyQueries(b));
    assert forall i :: 0 <= i < |a| ==> a[i] == "a";
    assert "b" !in Moved(ManyQueries(a));
  }

  /** After a save the next edit always opens a new entry. */
  lemma SaveSeparates(g: Grammar, s: Stack, p: Path, mergeType: string, args: MergeArgs)
    requires Valid(s.Doc(), p) && s.enabled && s.curr + 1 < |s.diffs|
    ensures Opened(g, Save(s), p, mergeType, args, Snapshot(g, Save(s), p, mergeType, args))
  {
    PushOpens(g, Save(s), p, mergeType, args);
  }

  // Node objects ---------------------------------------------------------------------------

  /** The tree that x leaves falls apart into the objects still referred to. */
  function Replace(s: Stack, p: Path, x: SNode): (r: Stack)
    requires SValid(s.tree, p)
  {
    s.(tree := SPut(s.tree, p, x), loose := s.loose + Pieces(SAt(s.tree, p), Held(s.diffs)))
  }

  function FindLoose(loose: map<nat, SNode>, id: nat, n: nat): (r: Option<SNode>)
  {
    if n == 0 then None
    else if n - 1 in loose && Find(loose[n-1], id).Some? then Find(loose[n-1], id)
    else FindLoose(loose, id, n - 1)
  }

  /** The node object behind a reference, wherever it is. */
  function Fetch(s: Stack, id: nat): (r: Option<SNode>)
  {
    if id in s.loose then Some(s.loose[id])
    else if Find(s.tree, id).Some? then Find(s.tree, id)
    else FindLoose(s.loose, id, s.next)
  }

  function RemoveLoose(loose: map<nat, SNode>, id: nat): (r: map<nat, SNode>)
  {
    map m | m in loose && m != id :: Remove(loose[m], id)
  }

  /** replaceChild with a node that exists already: it leaves the place where it
      was and comes to p, under a new number; nothing happens when it is there. */
  function Install(s: Stack, id: nat, p: Path): (r: Stack)
    requires SValid(s.tree, p)
  {
    if SAt(s.tree, p).Mark() == Some(id) || Fetch(s, id).None? then s
    else
      var t := Replace(s, p, Marked(Fetch(s, id).value, s.next));
      t.(tree := Remove(t.tree, id), loose := RemoveLoose(t.loose, id), next := s.next + 1)
  }

  /** The number of the reference after Install. */
  function Renumbered(s: Stack, id: nat, p: Path): (r: nat)
    requires SValid(s.tree, p)
  {
    if SAt(s.tree, p).Mark() == Some(id) || Fetch(s, id).None? then id else s.next
  }

  // Undo and redo ----------------------------------------------------------------------------

  /** The document after looking for a query, which may create elements, and the
      node found. */
  function Seek(g: Grammar, s: Stack, query: string): (r: (Stack, Option<Path>))
    ensures r.1.Some? ==> SValid(r.0.tree, r.1.value)
  {
    match Resolve(g, s.Doc(), query, None)
    case Crash => (s, None)
    case Found(doc, at) =>
      var t := s.(tree := Overlay(s.tree, doc));
      if at.Some? && SValid(t.tree, at.value) then (t, at) else (t, None)
  }

  /** One entry taken back: what is there now is copied for a redo, and the
      node remembered is put in place. */
  function TakeBack(g: Grammar, s: Stack): (r: Stack)
    requires s.curr < |s.diffs|
  {
    var d := s.diffs[s.curr];
    var (t, at) := Seek(g, s, d.query);
    if at.None? then t.(diffs := t.diffs[s.curr := d.(after := None)])
    else
      var copy := Some(Erase(SAt(t.tree, at.value)));
      if d.before.None? then t.(diffs := t.diffs[s.curr := d.(after := copy)])
      else
        var id := Renumbered(t, d.before.value, at.value);
        Install(t, d.before.value, at.value).(diffs := t.diffs[s.curr := d.(after := copy, before := Some(id))])
  }

  function Undo(g: Grammar, s: Stack): (r: Stack)
    requires s.curr < |s.diffs|
  {
    if s.curr == 0 then s
    else
      var d := s.diffs[s.curr];
      if d.source == s.source && d.defined then
        (if d.query == "" then s else TakeBack(g, s)).(prevCurr := s.curr, curr := s.curr - 1)
      else s
  }

  function PutBack(g: Grammar, s: Stack, d: Diff): (r: Stack)
  {
    var (t, at) := Seek(g, s, d.query);
    if at.Some? && d.after.Some? then Replace(t, at.value, Copy(d.after.value)) else t
  }

  function Redo(g: Grammar, s: Stack): (r: Stack)
    requires s.curr + 1 < |s.diffs|
  {
    var d := s.diffs[s.curr + 1];
    if d.defined && (d.source == s.source || d.source == "") then
      (if d.query == "" then s else PutBack(g, s, d)).(prevCurr := s.curr, curr := s.curr + 1)
    else s
  }

  function Clear(s: Stack): (r: Stack)
  {
    s.(diffs := ResetFrom(s.diffs, 0), prevCurr := s.curr, curr := 0)
  }

  function Save(s: Stack): (r: Stack)
  {
    s.(saved := s.curr)
  }

  /** The stack object. */
  class DomDiffStack {
    var state: Stack
    const grammar: Grammar

    constructor (g: Grammar, doc: Node)
      ensures grammar == g && state == Fresh(doc)
    {
      grammar := g;
      state := Fresh(doc);
    }

    /** Forgetting every entry from k on, one by one. */
    method Invalidate(k: nat)
      requires k <= |state.diffs|
      modifies this`state
      ensures state == old(state).(diffs := ResetFrom(old(state).diffs, k))
    {
      var diffs := state.diffs;
      for i := k to |diffs|
        invariant |diffs| == |state.diffs| && state == old(state)
        invariant forall j :: 0 <= j < |diffs| ==> diffs[j] == if k <= j < i then BLANK else old(state).diffs[j]
      {
        diffs := diffs[i := BLANK];
      }
      assert diffs == ResetFrom(state.diffs, k);
      state := state.(diffs := diffs);
    }

    /** Whether the edit to come belongs to the entry on top. */
    method MergeTest(p: Path, mergeType: string, args: MergeArgs) returns (merged: bool)
      requires Valid(state.Doc(), p)
      ensures merged == Merges(grammar, state, p, mergeType, args)
    {
      merged := false;
      if state.curr > 0 && mergeType != "null" && state.curr != state.saved && state.curr < |state.diffs| {
        var top := state.diffs[state.curr];
        if top.mergeType == mergeType && top.query == Print(grammar, state.Doc(), p) {
          if args.OneQuery? {
            merged := top.mergeArgs == args;
          } else if args.ManyQueries? && top.mergeArgs.ManyQueries? {
            merged := AllFound(top.mergeArgs.queries, args.queries);
          }
        }
      }
    }

    /** The merge test on sets of queries: two nested loops. */
    method AllFound(q1: seq<string>, q2: seq<string>) returns (merged: bool)
      ensures merged <==> SameQueries(q1, q2)
    {
      merged := false;
      if |q1| == |q2| && |q1| > 0 {
        var allFound := true;
        for i := 0 to |q1|
          invariant allFound <==> forall k :: 0 <= k < i ==> q1[k] in q2
        {
          var found := false;
          for j := 0 to |q2|
            invariant found <==> q1[i] in q2[..j]
          {
            assert q2[..j+1] == q2[..j] + [q2[j]];
            found := found || q1[i] == q2[j];
          }
          assert q2[..|q2|] == q2;
          allFound := allFound && found;
        }
        merged := allFound;
      }
    }

    method TakeSnapshot(p: Path, mergeType: string, args: MergeArgs)
      requires Valid(state.Doc(), p)
      modifies this`state
      ensures state == Snapshot(grammar, old(state), p, mergeType, args)
      ensures old(state).enabled && old(state).curr + 1 < |old(state).diffs|
              && NoRepeats(args) && NoRepeats(old(state).diffs[old(state).curr].mergeArgs) ==>
                if Continues(grammar, old(state), p, mergeType, args) then state == old(state)
                else Opened(grammar, old(state), p, mergeType, args, state)
    {
      if !state.enabled {
        return;
      }
      if state.curr + 1 < |state.diffs| && NoRepeats(args) && NoRepeats(state.diffs[state.curr].mergeArgs) {
        SnapshotExact(grammar, state, p, mergeType, args);
      }
      var merged := MergeTest(p, mergeType, args);
      if !merged {
        OpenEntry(p, mergeType, args);
      }
    }

    /** The new entry on top, and the entries behind it forgotten. */
    method OpenEntry(p: Path, mergeType: string, args: MergeArgs)
      requires Valid(state.Doc(), p)
      modifies this`state
      ensures state == Push(old(state), Print(grammar, old(state).Doc(), p), Some(At(old(state).Doc(), p)),
                            mergeType, args)
    {
      var c := state.curr + 1;
      state := state.(prevCurr := state.curr, curr := c);
      if c >= |state.diffs| {
        return;
      }
      var d := Diff(Some(state.next), state.diffs[c].after, Print(grammar, state.Doc(), p), mergeType, args,
                    state.source, true);
      var copy := Marked(Copy(At(state.Doc(), p)), state.next);
      state := state.(diffs := state.diffs[c := d], loose := state.loose[state.next := copy], next := state.next + 1);
      Invalidate(c + 1);
    }

    /** A snapshot of the null node. */
    method TakeNullSnapshot()
      modifies this`state
      ensures state == SnapshotNull(old(state))
    {
      if !state.enabled {
        return;
      }
      var c := state.curr + 1;
      state := state.(prevCurr := state.curr, curr := c);
      if c >= |state.diffs| {
        return;
      }
      var d := state.diffs[c].(query := "", before := None, mergeType := "null", mergeArgs := NoArgs,
                               source := state.source, defined := true);
      state := state.(diffs := state.diffs[c := d], next := state.next + 1);
      Invalidate(c + 1);
    }

    method UndoEdit()
      requires state.curr < |state.diffs|
      modifies this`state
      ensures state == Undo(grammar, old(state))
    {
      if state.curr == 0 {
        return;
      }
      var d := state.diffs[state.curr];
      if d.source == state.source && d.defined {
        if d.query != "" {
          var (t, at) := Seek(grammar, state, d.query);
          state := t;
          if at.Some? {
            d := d.(after := Some(Erase(SAt(t.tree, at.value))));
            if d.before.Some? {
              var id := Renumbered(t, d.before.value, at.value);
              state := Install(t, d.before.value, at.value);
              d := d.(before := Some(id));
            }
          } else {
            d := d.(after := None);
          }
          state := state.(diffs := t.diffs[state.curr := d]);
        }
        state := state.(prevCurr := state.curr, curr := state.curr - 1);
      }
    }

    method RedoEdit()
      requires state.curr + 1 < |state.diffs|
      modifies this`state
      ensures state == Redo(grammar, old(state))
    {
      var d := state.diffs[state.curr + 1];
      if d.defined && (d.source == state.source || d.source == "") {
        if d.query != "" {
          var (t, at) := Seek(grammar, state, d.query);
          state := t;
          if at.Some? && d.after.Some? {
            state := Replace(t, at.value, Copy(d.after.value));
          }
        }
        state := state.(prevCurr := state.curr, curr := state.curr + 1);
      }
    }

    method RegisterSaveState()
      modifies this`state
      ensures state == Save(old(state))
    {
      state := state.(saved := state.curr);
    }
  }
}
