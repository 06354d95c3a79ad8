/** The editor: every structural operation on the document, their effect on the
    whole tree, and what holds of every document reachable by them. */
module VpzEditor {
  import opened Common
  import opened VpzModel
  import opened VpzEdit
  import opened VpzRename
  import opened VpzEffect
  import N = Names

  /** A port node: the model, by its position in the tree, and the port. */
  datatype PortRef = PortRef(model: seq<nat>, d: Dir, p: nat)

  datatype Op =
    | OAddModel(path: seq<nat>, kind: Kind)
    | OAddPort(path: seq<nat>, d: Dir)
    | OConnect(a: PortRef, b: PortRef)
    | ORenameModel(path: seq<nat>, name: string)
    | ORenamePort(port: PortRef, name: string)
    | ORmModel(path: seq<nat>)
    | ORmPort(port: PortRef)
    | ORmConnection(path: seq<nat>, i: nat)

  function Parent(path: seq<nat>): (r: seq<nat>)
    requires path != []
  {
    path[..|path|-1]
  }

  function Last(path: seq<nat>): (k: nat)
    requires path != []
  {
    path[|path|-1]
  }

  lemma {:induction false} PathSplit(m: Model, path: seq<nat>)
    requires Valid(m, path) && path != []
    ensures Valid(m, Parent(path)) && Last(path) < |At(m, Parent(path)).subs|
    ensures At(m, path) == At(m, Parent(path)).subs[Last(path)]
  {
    if |path| > 1 {
      PathSplit(m.subs[path[0]], path[1..]);
      assert Parent(path)[1..] == Parent(path[1..]);
    }
  }

  lemma {:induction false} PutSplit(m: Model, path: seq<nat>, x: Model)
    requires Valid(m, path) && path != []
    ensures Valid(m, Parent(path)) && Last(path) < |At(m, Parent(path)).subs|
    ensures var h := At(m, Parent(path));
            Put(m, path, x) == Put(m, Parent(path), h.(subs := h.subs[Last(path) := x]))
  {
    PathSplit(m, path);
    if |path| > 1 {
      PutSplit(m.subs[path[0]], path[1..], x);
      assert Parent(path)[1..] == Parent(path[1..]);
    }
  }

  predicate ValidPort(m: Model, r: PortRef)
  {
    Valid(m, r.model) && r.p < |Ports(At(m, r.model), r.d)|
  }

  /** Where addModelConnection puts a connection between two port nodes, if
      their positions and directions allow one. */
  function Connection(m: Model, a: PortRef, b: PortRef): (r: Option<(seq<nat>, Conn)>)
    requires ValidPort(m, a) && ValidPort(m, b)
  {
    var (m1, m2) := (At(m, a.model), At(m, b.model));
    var (p1, p2) := (Ports(m1, a.d)[a.p], Ports(m2, b.d)[b.p]);
    if a.d.Out? && b.d.In? && a.model != [] && b.model != [] && Parent(a.model) == Parent(b.model) then
      Some((Parent(a.model), Conn(Internal, m1.name, p1, m2.name, p2)))
    else if a.d.In? && b.d.In? && b.model != [] && a.model == Parent(b.model) then
      Some((a.model, Conn(Input, m1.name, p1, m2.name, p2)))
    else if a.d.Out? && b.d.Out? && a.model != [] && Parent(a.model) == b.model then
      Some((b.model, Conn(Output, m1.name, p1, m2.name, p2)))
    else None
  }

  lemma ConnectionHost(m: Model, a: PortRef, b: PortRef)
    requires ValidPort(m, a) && ValidPort(m, b) && Connection(m, a, b).Some?
    ensures Valid(m, Connection(m, a, b).value.0)
    ensures Resolves(At(m, Connection(m, a, b).value.0), Connection(m, a, b).value.1)
    ensures At(m, Connection(m, a, b).value.0).subs != []
  {
    var (path, c) := Connection(m, a, b).value;
    if a.model != [] && path != a.model {
      PathSplit(m, a.model);
      assert HasPort(At(m, Parent(a.model)).subs, c.om, a.d, c.op);
    }
    if b.model != [] && path != b.model {
      PathSplit(m, b.model);
      assert HasPort(At(m, Parent(b.model)).subs, c.dm, b.d, c.dp);
    }
  }

  ghost predicate Applicable(m: Model, op: Op)
  {
    match op
    case OAddModel(path, _) => Valid(m, path) && At(m, path).kind.Coupled?
    case OAddPort(path, _) => Valid(m, path)
    case OConnect(a, b) => ValidPort(m, a) && ValidPort(m, b)
    case ORenameModel(path, _) => Valid(m, path)
    case ORenamePort(r, _) => ValidPort(m, r)
    case ORmModel(path) => path != [] && Valid(m, path)
    case ORmPort(r) => ValidPort(m, r)
    case ORmConnection(path, i) => Valid(m, path) && i < |At(m, path).conns|
  }

  function RenameModel(m: Model, path: seq<nat>, name: string): (r: Model)
    requires Valid(m, path)
  {
    if path == [] then RenameSelf(m, name)
    else
      PathSplit(m, path);
      Put(m, Parent(path), RenameChild(At(m, Parent(path)), Last(path), name))
  }

  function RenamePort(m: Model, r: PortRef, name: string): (g: Model)
    requires ValidPort(m, r)
  {
    if r.model == [] then RenameOwnPort(m, r.d, r.p, name)
    else
      PathSplit(m, r.model);
      Put(m, Parent(r.model), RenameSubPort(At(m, Parent(r.model)), Last(r.model), r.d, r.p, name))
  }

  function RemovePort(m: Model, r: PortRef): (g: Model)
    requires ValidPort(m, r)
  {
    if r.model == [] then RmOwnPort(m, r.d, r.p)
    else
      PathSplit(m, r.model);
      Put(m, Parent(r.model), RmSubPort(At(m, Parent(r.model)), Last(r.model), r.d, r.p))
  }

  function Connect(m: Model, a: PortRef, b: PortRef): (g: Model)
    requires ValidPort(m, a) && ValidPort(m, b)
  {
    match Connection(m, a, b)
    case None => m
    case Some(pc) =>
      ConnectionHost(m, a, b);
      Put(m, pc.0, AddConn(At(m, pc.0), pc.1))
  }

  function RemoveModel(m: Model, path: seq<nat>): (g: Model)
    requires path != [] && Valid(m, path)
  {
    PathSplit(m, path);
    Put(m, Parent(path), RmModel(At(m, Parent(path)), Last(path)))
  }

  function Apply(m: Model, op: Op): (g: Model)
    requires Applicable(m, op)
  {
    match op
    case OAddModel(path, kind) => Put(m, path, AddModel(At(m, path), kind))
    case OAddPort(path, d) => Put(m, path, AddPort(At(m, path), d))
    case OConnect(a, b) => Connect(m, a, b)
    case ORenameModel(path, name) => RenameModel(m, path, name)
    case ORenamePort(r, name) => RenamePort(m, r, name)
    case ORmModel(path) => RemoveModel(m, path)
    case ORmPort(r) => RemovePort(m, r)
    case ORmConnection(path, i) => Put(m, path, RmConn(At(m, path), i))
  }

  /** The name a rename asks for is not carried by another sibling. */
  ghost predicate FreshModelName(m: Model, path: seq<nat>, name: string)
    requires Valid(m, path)
  {
    path == [] ||
    (PathSplit(m, path);
     FreshFor(Names(At(m, Parent(path)).subs), Last(path), name))
  }

  ghost predicate FreshPortName(m: Model, r: PortRef, name: string)
    requires ValidPort(m, r)
  {
    FreshFor(Ports(At(m, r.model), r.d), r.p, name)
  }

  ghost predicate FreshOp(m: Model, op: Op)
    requires Applicable(m, op)
  {
    match op
    case ORenameModel(path, name) => FreshModelName(m, path, name)
    case ORenamePort(r, name) => FreshPortName(m, r, name)
    case _ => true
  }

  // Every operation keeps the document well formed ------------------------------------

  lemma RenameModelWF(m: Model, path: seq<nat>, name: string)
    requires WF(m) && Valid(m, path) && FreshModelName(m, path, name)
    ensures WF(RenameModel(m, path, name)) && SameWiring(m, RenameModel(m, path, name))
  {
    if path == [] {
      RenameSelfWF(m, name);
    } else {
      PathSplit(m, path);
      var h := At(m, Parent(path));
      WFAt(m, Parent(path));
      RenameChildWF(h, Last(path), name);
      PutWF(m, Parent(path), RenameChild(h, Last(path), name));
      PutWiring(m, Parent(path), RenameChild(h, Last(path), name));
    }
  }

  lemma RenamePortWF(m: Model, r: PortRef, name: string)
    requires WF(m) && ValidPort(m, r) && FreshPortName(m, r, name)
    ensures WF(RenamePort(m, r, name)) && SameWiring(m, RenamePort(m, r, name))
  {
    if r.model == [] {
      RenameOwnPortWF(m, r.d, r.p, name);
    } else {
      PathSplit(m, r.model);
      var h := At(m, Parent(r.model));
      WFAt(m, Parent(r.model));
      RenameSubPortWF(h, Last(r.model), r.d, r.p, name);
      PutWF(m, Parent(r.model), RenameSubPort(h, Last(r.model), r.d, r.p, name));
      PutWiring(m, Parent(r.model), RenameSubPort(h, Last(r.model), r.d, r.p, name));
    }
  }

  lemma RemovePortWF(m: Model, r: PortRef)
    requires WF(m) && ValidPort(m, r)
    ensures WF(RemovePort(m, r))
  {
    if r.model == [] {
      RmOwnPortWF(m, r.d, r.p);
    } else {
      PathSplit(m, r.model);
      var h := At(m, Parent(r.model));
      WFAt(m, Parent(r.model));
      RmSubPortWF(h, Last(r.model), r.d, r.p);
      PutWF(m, Parent(r.model), RmSubPort(h, Last(r.model), r.d, r.p));
    }
  }

  lemma RemoveModelWF(m: Model, path: seq<nat>)
    requires WF(m) && path != [] && Valid(m, path)
    ensures WF(RemoveModel(m, path))
  {
    PathSplit(m, path);
    var h := At(m, Parent(path));
    WFAt(m, Parent(path));
    RmModelWF(h, Last(path));
    PutWF(m, Parent(path), RmModel(h, Last(path)));
  }

  lemma ConnectWF(m: Model, a: PortRef, b: PortRef)
    requires WF(m) && ValidPort(m, a) && ValidPort(m, b)
    ensures WF(Connect(m, a, b))
  {
    if Connection(m, a, b).Some? {
      ConnectionHost(m, a, b);
      var (path, c) := Connection(m, a, b).value;
      WFAt(m, path);
      AddConnWF(At(m, path), c);
      PutWF(m, path, AddConn(At(m, path), c));
    }
  }

  lemma AddPortAtWF(m: Model, path: seq<nat>, d: Dir)
    requires WF(m) && Valid(m, path)
    ensures WF(Put(m, path, AddPort(At(m, path), d)))
  {
    WFAt(m, path);
    var x := AddPort(At(m, path), d);
    AddPortWF(At(m, path), d);
    if path != [] {
      PathSplit(m, path);
      PutSplit(m, path, x);
      var h := At(m, Parent(path));
      WFAt(m, Parent(path));
      GrowChild(h, Last(path), x);
      PutWF(m, Parent(path), h.(subs := h.subs[Last(path) := x]));
    }
  }

  lemma ApplyWF(m: Model, op: Op)
    requires WF(m) && Applicable(m, op) && FreshOp(m, op)
    ensures WF(Apply(m, op))
  {
    match op {
      case OAddModel(path, kind) =>
        WFAt(m, path);
        AddModelWF(At(m, path), kind);
        PutWF(m, path, AddModel(At(m, path), kind));
      case OAddPort(path, d) => AddPortAtWF(m, path, d);
      case OConnect(a, b) => ConnectWF(m, a, b);
      case ORenameModel(path, name) => RenameModelWF(m, path, name);
      case ORenamePort(r, name) => RenamePortWF(m, r, name);
      case ORmModel(path) => RemoveModelWF(m, path);
      case ORmPort(r) => RemovePortWF(m, r);
      case ORmConnection(path, i) =>
        WFAt(m, path);
        RmConnWF(At(m, path), i);
        PutWF(m, path, RmConn(At(m, path), i));
    }
  }

  /** A session: a sequence of documents, each obtained from the previous by an
      operation whose new names are fresh. */
  ghost predicate Session(docs: seq<Model>, ops: seq<Op>)
  {
    && |docs| == |ops| + 1
    && forall i :: 0 <= i < |ops| ==>
         Applicable(docs[i], ops[i]) && FreshOp(docs[i], ops[i]) && docs[i+1] == Apply(docs[i], ops[i])
  }

  /** Every document of every session stays well formed. */
  lemma {:induction false} SessionWF(docs: seq<Model>, ops: seq<Op>, i: nat)
    requires Session(docs, ops) && WF(docs[0]) && i < |docs|
    ensures WF(docs[i])
  {
    if i > 0 {
      SessionWF(docs, ops, i - 1);
      ApplyWF(docs[i-1], ops[i-1]);
    }
  }

  // Renames: exactly when they are safe, and how to undo them --------------------------

  /** A rename keeps the document well formed if and only if the name is fresh
      among the siblings. */
  lemma RenameModelExact(m: Model, path: seq<nat>, name: string)
    requires WF(m) && Valid(m, path)
    ensures WF(RenameModel(m, path, name)) <==> FreshModelName(m, path, name)
  {
    if FreshModelName(m, path, name) {
      RenameModelWF(m, path, name);
    } else {
      PathSplit(m, path);
      var h := At(m, Parent(path));
      var g := RenameChild(h, Last(path), name);
      WFAt(m, Parent(path));
      AtPut(m, Parent(path), g);
      assert Names(g.subs) == Names(h.subs)[Last(path) := name];
      RenamedDistinct(Names(h.subs), Last(path), name);
      if WF(RenameModel(m, path, name)) {
        WFAt(RenameModel(m, path, name), Parent(path));
      }
    }
  }

  lemma RenamePortExact(m: Model, r: PortRef, name: string)
    requires WF(m) && ValidPort(m, r)
    ensures WF(RenamePort(m, r, name)) <==> FreshPortName(m, r, name)
  {
    if FreshPortName(m, r, name) {
      RenamePortWF(m, r, name);
    } else {
      var ports := Ports(At(m, r.model), r.d);
      WFAt(m, r.model);
      RenamedDistinct(ports, r.p, name);
      if r.model != [] && WF(RenamePort(m, r, name)) {
        PathSplit(m, r.model);
        var h := At(m, Parent(r.model));
        var g := RenameSubPort(h, Last(r.model), r.d, r.p, name);
        assert Ports(g.subs[Last(r.model)], r.d) == ports[r.p := name];
        AtPut(m, Parent(r.model), g);
        WFAt(RenamePort(m, r, name), Parent(r.model));
      }
    }
  }

  /** Renaming a model back restores the document, whatever its parents and
      children are called. */
  lemma RenameModelBack(m: Model, path: seq<nat>, name: string)
    requires WF(m) && Valid(m, path) && FreshModelName(m, path, name)
    ensures Valid(RenameModel(m, path, name), path)
    ensures RenameModel(RenameModel(m, path, name), path, At(m, path).name) == m
  {
    if path == [] {
      RenameSelfBack(m, name);
    } else {
      PathSplit(m, path);
      var h := At(m, Parent(path));
      var k := Last(path);
      var g := RenameChild(h, k, name);
      var r := RenameModel(m, path, name);
      WFAt(m, Parent(path));
      AtPut(m, Parent(path), g);
      assert path == Parent(path) + [k];
      ValidExtend(r, Parent(path), k);
      RenameChildBack(h, k, name);
      PathSplit(r, path);
      PutPut(m, Parent(path), g, h);
      PutAt(m, Parent(path));
    }
  }

  lemma {:induction false} ValidExtend(m: Model, path: seq<nat>, k: nat)
    requires Valid(m, path) && k < |At(m, path).subs|
    ensures Valid(m, path + [k])
  {
    if path != [] {
      ValidExtend(m.subs[path[0]], path[1..], k);
      assert (path + [k])[1..] == path[1..] + [k];
    }
  }

  // What each operation does to the document ---------------------------------------------

  /** The documents differ at most at and below one model. */
  ghost predicate OnlyAt(m: Model, path: seq<nat>, g: Model)
    requires Valid(m, path)
  {
    Valid(g, path) && g == Put(m, path, At(g, path))
  }

  /** A model that is neither on the way to that model nor below it is the same. */
  lemma {:induction false} Elsewhere(m: Model, path: seq<nat>, g: Model, q: seq<nat>)
    requires Valid(m, path) && OnlyAt(m, path, g) && Valid(m, q) && !(path <= q) && !(q <= path)
    ensures Valid(g, q) && At(g, q) == At(m, q)
  {
    if path != [] && q != [] && path[0] == q[0] {
      Elsewhere(m.subs[path[0]], path[1..], g.subs[path[0]], q[1..]);
    }
  }

  /** Where a connection from one port node to another may be drawn, by their
      positions and directions alone: between siblings, from a model to one inside
      it, or out of a model to the one around it. */
  function Meeting(a: PortRef, b: PortRef): (r: Option<(seq<nat>, CType)>)
  {
    if a.d.Out? && b.d.In? then
      (if a.model != [] && b.model != [] && Parent(a.model) == Parent(b.model) then Some((Parent(a.model), Internal))
       else None)
    else if a.d == b.d == In then
      (if b.model != [] && Parent(b.model) == a.model then Some((a.model, Input)) else None)
    else if a.d == b.d == Out then
      (if a.model != [] && Parent(a.model) == b.model then Some((b.model, Output)) else None)
    else None
  }

  /** A port node as seen from a level. */
  function EndAt(path: seq<nat>, r: PortRef): (e: End)
    requires r.model == path || r.model != []
  {
    if r.model == path then Own(r.d, r.p) else Sub(Last(r.model), r.d, r.p)
  }

  /** What an operation means: which place of the document changes, and how. */
  ghost predicate Effect(m: Model, op: Op, g: Model)
    requires Applicable(m, op)
  {
    match op
    case OAddModel(path, kind) => OnlyAt(m, path, g) && ModelAdded(At(m, path), kind, At(g, path))
    case OAddPort(path, d) => OnlyAt(m, path, g) && PortAdded(At(m, path), d, At(g, path))
    case OConnect(a, b) =>
      (match Meeting(a, b)
       case None => g == m
       case Some(pt) =>
         && Valid(m, pt.0) && OnlyAt(m, pt.0, g)
         && ConnAdded(At(m, pt.0), Wire(pt.1, EndAt(pt.0, a), EndAt(pt.0, b)), At(g, pt.0)))
    case ORenameModel(path, name) =>
      if path == [] then g.name == name && g.kind == m.kind && g.ins == m.ins && g.outs == m.outs && g.subs == m.subs
                         && SameWiring(m, g)
      else PathSplit(m, path);
           OnlyAt(m, Parent(path), g) && ModelRenamed(At(m, Parent(path)), Last(path), name, At(g, Parent(path)))
    case ORenamePort(r, name) =>
      if r.model == [] then PortRenamed(m, r.d, r.p, name, g)
      else PathSplit(m, r.model);
           && OnlyAt(m, Parent(r.model), g)
           && SubPortRenamed(At(m, Parent(r.model)), Last(r.model), r.d, r.p, name, At(g, Parent(r.model)))
    case ORmModel(path) =>
      PathSplit(m, path);
      && OnlyAt(m, Parent(path), g)
      && exists idx :: ModelRemoved(At(m, Parent(path)), Last(path), At(g, Parent(path)), idx)
    case ORmPort(r) =>
      if r.model == [] then exists idx :: OwnPortRemoved(m, r.d, r.p, g, idx)
      else PathSplit(m, r.model);
           && OnlyAt(m, Parent(r.model), g)
           && exists inner, idx ::
                SubPortRemoved(At(m, Parent(r.model)), Last(r.model), r.d, r.p, At(g, Parent(r.model)), inner, idx)
    case ORmConnection(path, i) => OnlyAt(m, path, g) && ConnRemoved(At(m, path), i, At(g, path))
  }

  lemma PutOnly(m: Model, path: seq<nat>, x: Model)
    requires Valid(m, path)
    ensures OnlyAt(m, path, Put(m, path, x)) && At(Put(m, path, x), path) == x
  {
    AtPut(m, path, x);
  }

  lemma MeetingIs(m: Model, a: PortRef, b: PortRef)
    requires ValidPort(m, a) && ValidPort(m, b)
    ensures Connection(m, a, b).None? <==> Meeting(a, b).None?
    ensures Connection(m, a, b).Some? ==>
              var (path, c) := Connection(m, a, b).value;
              Meeting(a, b).value == (path, c.ctype)
  {
  }

  /** A submodel's port is found where it is. */
  lemma SubEndOf(m: Model, r: PortRef)
    requires WF(m) && ValidPort(m, r) && r.model != []
    ensures Valid(m, Parent(r.model))
    ensures SubEnd(At(m, Parent(r.model)).subs, At(m, r.model).name, r.d, Ports(At(m, r.model), r.d)[r.p])
         == Sub(Last(r.model), r.d, r.p)
  {
    PathSplit(m, r.model);
    var h := At(m, Parent(r.model));
    WFAt(m, Parent(r.model));
    WFAt(m, r.model);
    assert Names(h.subs)[Last(r.model)] == At(m, r.model).name;
    IndexAt(Names(h.subs), Last(r.model));
    IndexAt(Ports(At(m, r.model), r.d), r.p);
    SubEndAt(h.subs, At(m, r.model).name, r.d, Ports(At(m, r.model), r.d)[r.p], Last(r.model));
  }

  lemma OwnEndOf(m: Model, r: PortRef)
    requires WF(m) && ValidPort(m, r)
    ensures OwnEnd(At(m, r.model), At(m, r.model).name, r.d, Ports(At(m, r.model), r.d)[r.p]) == Own(r.d, r.p)
  {
    WFAt(m, r.model);
    IndexAt(Ports(At(m, r.model), r.d), r.p);
  }

  lemma MeetingWire(m: Model, a: PortRef, b: PortRef)
    requires WF(m) && ValidPort(m, a) && ValidPort(m, b) && Connection(m, a, b).Some?
    ensures Meeting(a, b).Some? && Valid(m, Meeting(a, b).value.0)
    ensures var (path, t) := Meeting(a, b).value;
            && (a.model == path || a.model != []) && (b.model == path || b.model != [])
            && WireOf(At(m, path), Connection(m, a, b).value.1) == Wire(t, EndAt(path, a), EndAt(path, b))
  {
    MeetingIs(m, a, b);
    var t := Meeting(a, b).value.1;
    if !t.Input? { SubEndOf(m, a); } else { OwnEndOf(m, a); }
    if !t.Output? { SubEndOf(m, b); } else { OwnEndOf(m, b); }
  }

  lemma ConnectEffect(m: Model, a: PortRef, b: PortRef)
    requires WF(m) && ValidPort(m, a) && ValidPort(m, b)
    ensures Effect(m, OConnect(a, b), Connect(m, a, b))
  {
    MeetingIs(m, a, b);
    if Connection(m, a, b).Some? {
      var (path, c) := Connection(m, a, b).value;
      MeetingWire(m, a, b);
      ConnectionHost(m, a, b);
      WFAt(m, path);
      AddConnEffect(At(m, path), c);
      PutOnly(m, path, AddConn(At(m, path), c));
    }
  }

  lemma RemoveModelEffect(m: Model, path: seq<nat>)
    requires WF(m) && path != [] && Valid(m, path)
    ensures Effect(m, ORmModel(path), RemoveModel(m, path))
  {
    PathSplit(m, path);
    var h := At(m, Parent(path));
    WFAt(m, Parent(path));
    var idx := RmModelEffect(h, Last(path));
    PutOnly(m, Parent(path), RmModel(h, Last(path)));
  }

  lemma RemovePortEffect(m: Model, r: PortRef)
    requires WF(m) && ValidPort(m, r)
    ensures Effect(m, ORmPort(r), RemovePort(m, r))
  {
    if r.model == [] {
      var idx := RmOwnPortEffect(m, r.d, r.p);
    } else {
      PathSplit(m, r.model);
      var h := At(m, Parent(r.model));
      WFAt(m, Parent(r.model));
      var inner, idx := RmSubPortEffect(h, Last(r.model), r.d, r.p);
      PutOnly(m, Parent(r.model), RmSubPort(h, Last(r.model), r.d, r.p));
    }
  }

  lemma RenameEffect(m: Model, path: seq<nat>, name: string)
    requires WF(m) && Valid(m, path) && FreshModelName(m, path, name)
    ensures Effect(m, ORenameModel(path, name), RenameModel(m, path, name))
  {
    if path == [] {
      RenameSelfWF(m, name);
    } else {
      PathSplit(m, path);
      var h := At(m, Parent(path));
      WFAt(m, Parent(path));
      RenameChildEffect(h, Last(path), name);
      PutOnly(m, Parent(path), RenameChild(h, Last(path), name));
    }
  }

  lemma RenamePortEffect(m: Model, r: PortRef, name: string)
    requires WF(m) && ValidPort(m, r) && FreshPortName(m, r, name)
    ensures Effect(m, ORenamePort(r, name), RenamePort(m, r, name))
  {
    if r.model == [] {
      RenameOwnPortEffect(m, r.d, r.p, name);
    } else {
      PathSplit(m, r.model);
      var h := At(m, Parent(r.model));
      WFAt(m, Parent(r.model));
      RenameSubPortEffect(h, Last(r.model), r.d, r.p, name);
      PutOnly(m, Parent(r.model), RenameSubPort(h, Last(r.model), r.d, r.p, name));
    }
  }

  /** Every operation on a well formed document does what it means. */
  lemma ApplyEffect(m: Model, op: Op)
    requires WF(m) && Applicable(m, op) && FreshOp(m, op)
    ensures Effect(m, op, Apply(m, op))
  {
    match op {
      case OAddModel(path, kind) =>
        AddModelEffect(At(m, path), kind);
        PutOnly(m, path, AddModel(At(m, path), kind));
      case OAddPort(path, d) =>
        AddPortEffect(At(m, path), d);
        PutOnly(m, path, AddPort(At(m, path), d));
      case OConnect(a, b) => ConnectEffect(m, a, b);
      case ORenameModel(path, name) => RenameEffect(m, path, name);
      case ORenamePort(r, name) => RenamePortEffect(m, r, name);
      case ORmModel(path) => RemoveModelEffect(m, path);
      case ORmPort(r) => RemovePortEffect(m, r);
      case ORmConnection(path, i) =>
        RmConnEffect(At(m, path), i);
        PutOnly(m, path, RmConn(At(m, path), i));
    }
  }

  // The editor object --------------------------------------------------------------------

  /** One pass over a connection list, rewriting entries in place. */
  method Rewrite(conns: seq<Conn>, f: Conn -> Conn) returns (r: seq<Conn>)
    ensures r == MapConns(conns, f)
  {
    r := conns;
    for i := 0 to |conns|
      invariant |r| == |conns|
      invariant forall j :: 0 <= j < i ==> r[j] == f(conns[j])
      invariant forall j :: i <= j < |conns| ==> r[j] == conns[j]
    {
      r := r[i := f(r[i])];
    }
  }

  /** One pass over a connection list, dropping entries. */
  method Drop(conns: seq<Conn>, drop: Conn -> bool) returns (r: seq<Conn>)
    ensures r == Keep(conns, drop)
  {
    r := [];
    for i := 0 to |conns|
      invariant r + Keep(conns[i..], drop) == Keep(conns, drop)
    {
      assert conns[i..][0] == conns[i] && conns[i..][1..] == conns[i+1..];
      if !drop(conns[i]) {
        assert r + ([conns[i]] + Keep(conns[i+1..], drop)) == (r + [conns[i]]) + Keep(conns[i+1..], drop);
        r := r + [conns[i]];
      }
    }
    assert Keep(conns[|conns|..], drop) == [];
  }

  /** existConnection: one pass over the list. */
  method Exists(conns: seq<Conn>, c: Conn) returns (found: bool)
    ensures found <==> c in conns
  {
    found := false;
    for i := 0 to |conns|
      invariant found <==> c in conns[..i]
    {
      assert conns[..i+1] == conns[..i] + [conns[i]];
      found := found || conns[i] == c;
    }
    assert conns[..|conns|] == conns;
  }

  /** Dropping in two passes is dropping once. */
  lemma {:induction false} KeepTwice(conns: seq<Conn>, first: Conn -> bool, second: Conn -> bool, both: Conn -> bool)
    requires forall c :: both(c) <==> first(c) || second(c)
    ensures Keep(Keep(conns, first), second) == Keep(conns, both)
  {
    if conns != [] {
      KeepTwice(conns[1..], first, second, both);
      if !first(conns[0]) {
        var rest := Keep(conns[1..], first);
        assert ([conns[0]] + rest)[1..] == rest;
      }
    }
  }

  /** The connections a level loses with a port of one of its submodels: the
      internal ones first, then those with the level's own ports. */
  method DropOuter(conns: seq<Conn>, d: Dir, model: string, port: string) returns (r: seq<Conn>)
    ensures r == Keep(conns, c => TouchesSubPort(c, d, model, port))
  {
    var inside := (c: Conn) => c.ctype.Internal? && TouchesSubPort(c, d, model, port);
    var border := (c: Conn) => !c.ctype.Internal? && TouchesSubPort(c, d, model, port);
    r := Drop(conns, inside);
    KeepTwice(conns, inside, border, c => TouchesSubPort(c, d, model, port));
    r := Drop(r, border);
  }

  class Editor {
    var root: Model

    constructor (root: Model)
      ensures this.root == root
    {
      this.root := root;
    }

    method Rename(path: seq<nat>, name: string)
      requires Valid(root, path)
      modifies this
      ensures root == Apply(old(root), ORenameModel(path, name))
      ensures WF(old(root)) ==> (WF(root) <==> FreshModelName(old(root), path, name))
      ensures WF(old(root)) && FreshModelName(old(root), path, name) ==>
                Effect(old(root), ORenameModel(path, name), root)
    {
      var m := At(root, path);
      var was := m.name;
      var inner := Rewrite(m.conns, c => InnerModel(c, was, name));
      var x := m.(name := name, conns := inner);
      if WF(root) {
        RenameModelExact(root, path, name);
        if FreshModelName(root, path, name) {
          RenameEffect(root, path, name);
        }
      }
      if path == [] {
        root := x;
      } else {
        PathSplit(root, path);
        var h := At(root, Parent(path));
        var outer := Rewrite(h.conns, c => OuterModel(c, was, name));
        root := Put(root, Parent(path), h.(subs := h.subs[Last(path) := x], conns := outer));
      }
    }

    method Remove(path: seq<nat>)
      requires path != [] && Valid(root, path)
      modifies this
      ensures root == Apply(old(root), ORmModel(path))
      ensures WF(old(root)) ==> WF(root) && Effect(old(root), ORmModel(path), root)
    {
      PathSplit(root, path);
      if WF(root) {
        RemoveModelWF(root, path);
        RemoveModelEffect(root, path);
      }
      var h := At(root, Parent(path));
      var name := h.subs[Last(path)].name;
      var left := Drop(h.conns, c => TouchesModel(c, name));
      root := Put(root, Parent(path), h.(subs := Without(h.subs, Last(path)), conns := left));
    }

    /** The connections of the level above first, then the model's own. */
    method RenamePortOf(r: PortRef, name: string)
      requires ValidPort(root, r)
      modifies this
      ensures root == Apply(old(root), ORenamePort(r, name))
      ensures WF(old(root)) ==> (WF(root) <==> FreshPortName(old(root), r, name))
      ensures WF(old(root)) && FreshPortName(old(root), r, name) ==> Effect(old(root), ORenamePort(r, name), root)
    {
      var m := At(root, r.model);
      var was := Ports(m, r.d)[r.p];
      var model := m.name;
      if WF(root) {
        RenamePortExact(root, r, name);
        if FreshPortName(root, r, name) {
          RenamePortEffect(root, r, name);
        }
      }
      var inner := Rewrite(m.conns, c => InnerPort(c, r.d, model, was, name));
      var x := WithPorts(m, r.d, Ports(m, r.d)[r.p := name]).(conns := inner);
      if r.model == [] {
        root := x;
      } else {
        PathSplit(root, r.model);
        var h := At(root, Parent(r.model));
        var outer := Rewrite(h.conns, c => OuterPort(c, r.d, model, was, name));
        root := Put(root, Parent(r.model), h.(subs := h.subs[Last(r.model) := x], conns := outer));
      }
    }

    method RemovePortOf(r: PortRef)
      requires ValidPort(root, r)
      modifies this
      ensures root == Apply(old(root), ORmPort(r))
      ensures WF(old(root)) ==> WF(root) && Effect(old(root), ORmPort(r), root)
    {
      var m := At(root, r.model);
      var port := Ports(m, r.d)[r.p];
      var model := m.name;
      if WF(root) {
        RemovePortWF(root, r);
        RemovePortEffect(root, r);
      }
      var inner := Drop(m.conns, c => TouchesOwnPort(c, r.d, model, port));
      var x := WithPorts(m, r.d, Without(Ports(m, r.d), r.p)).(conns := inner);
      if r.model == [] {
        root := x;
      } else {
        PathSplit(root, r.model);
        var h := At(root, Parent(r.model));
        var outer := DropOuter(h.conns, r.d, model, port);
        root := Put(root, Parent(r.model), h.(subs := h.subs[Last(r.model) := x], conns := outer));
      }
    }

    method AddModelTo(path: seq<nat>, kind: Kind)
      requires Valid(root, path)
      modifies this
      ensures root == Put(old(root), path, AddModel(At(old(root), path), kind))
      ensures WF(old(root)) ==> (WF(root) <==> At(old(root), path).kind.Coupled?)
      ensures OnlyAt(old(root), path, root) && ModelAdded(At(old(root), path), kind, At(root, path))
    {
      var h := At(root, path);
      AddModelEffect(h, kind);
      PutOnly(root, path, AddModel(h, kind));
      if WF(root) {
        WFAt(root, path);
        AddModelExact(h, kind);
        PutExact(root, path, AddModel(h, kind));
      }
      var name := N.ProvideName(Names(h.subs), if kind.Coupled? then "coupled" else "atomic");
      root := Put(root, path, h.(subs := h.subs + [NewModel(name, kind)]));
    }

    method AddPortTo(path: seq<nat>, d: Dir)
      requires Valid(root, path)
      modifies this
      ensures root == Apply(old(root), OAddPort(path, d))
      ensures WF(old(root)) ==> WF(root)
      ensures Effect(old(root), OAddPort(path, d), root)
    {
      var m := At(root, path);
      AddPortEffect(m, d);
      PutOnly(root, path, AddPort(m, d));
      if WF(root) {
        AddPortAtWF(root, path, d);
      }
      var name := N.ProvideName(Ports(m, d), "NewPort");
      root := Put(root, path, WithPorts(m, d, Ports(m, d) + [name]));
    }

    method ConnectPorts(a: PortRef, b: PortRef)
      requires ValidPort(root, a) && ValidPort(root, b)
      modifies this
      ensures root == Apply(old(root), OConnect(a, b))
      ensures WF(old(root)) ==> WF(root) && Effect(old(root), OConnect(a, b), root)
    {
      if WF(root) {
        ConnectWF(root, a, b);
        ConnectEffect(root, a, b);
      }
      var pc := Connection(root, a, b);
      if pc == None {
        return;
      }
      ConnectionHost(root, a, b);
      var (path, c) := pc.value;
      var h := At(root, path);
      var found := Exists(h.conns, c);
      if found {
        PutAt(root, path);
        return;
      }
      root := Put(root, path, h.(conns := h.conns + [c]));
    }

    method RemoveConnection(path: seq<nat>, i: nat)
      requires Valid(root, path) && i < |At(root, path).conns|
      modifies this
      ensures root == Apply(old(root), ORmConnection(path, i))
      ensures WF(old(root)) ==> WF(root)
      ensures Effect(old(root), ORmConnection(path, i), root)
    {
      RmConnEffect(At(root, path), i);
      PutOnly(root, path, RmConn(At(root, path), i));
      if WF(root) {
        ApplyWF(root, ORmConnection(path, i));
      }
      var h := At(root, path);
      root := Put(root, path, h.(conns := h.conns[..i] + h.conns[i+1..]));
    }
  }
}
