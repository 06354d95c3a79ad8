/** The editor with its undo stack: models as documents, each structural
    operation as a snapshot followed by a local edit, and what holds of every
    session of operations, undos and redos. */
module EditorUndo {
  import opened Common
  import opened VpzModel
  import opened VpzEdit
  import opened VpzRename
  import opened VpzEditor
  import D = Dom
  import X = XQuery
  import R = XQueryRoundTrip
  import S = DiffStack
  import F = DiffRefinement
  import E = DiffExact
  import N = Names

  // Models as documents ---------------------------------------------------------------------

  function PortNodes(ports: seq<string>): (r: seq<D.Node>)
    ensures |r| == |ports| && forall i :: 0 <= i < |r| ==> r[i] == D.Elem("port", map["name" := ports[i]], [])
  {
    seq(|ports|, i requires 0 <= i < |ports| => D.Elem("port", map["name" := ports[i]], []))
  }

  function TypeName(t: CType): (s: string)
  {
    match t case Input => "input" case Output => "output" case Internal => "internal"
  }

  function EndNode(tag: string, model: string, port: string): (n: D.Node)
  {
    D.Elem(tag, map["model" := model, "port" := port], [])
  }

  function ConnNode(c: Conn): (n: D.Node)
  {
    D.Elem("connection", map["type" := TypeName(c.ctype)],
        [EndNode("origin", c.om, c.op), EndNode("destination", c.dm, c.dp)])
  }

  function ConnNodes(conns: seq<Conn>): (r: seq<D.Node>)
    ensures |r| == |conns| && forall i :: 0 <= i < |r| ==> r[i] == ConnNode(conns[i])
  {
    seq(|conns|, i requires 0 <= i < |conns| => ConnNode(conns[i]))
  }

  function Attrs(m: Model): (r: map<string, string>)
    ensures "name" in r && r["name"] == m.name
  {
    map["name" := m.name, "type" := if m.kind.Coupled? then "coupled" else "atomic"]
  }

  /** The element of a model: its input ports, its output ports and, when it is
      coupled, its submodels and connections. */
  function Enc(m: Model): (n: D.Node)
    ensures n.Elem? && n.tag == "model" && n.Name() == m.name && n.attrs == Attrs(m)
  {
    var ports := [D.Elem("in", map[], PortNodes(m.ins)), D.Elem("out", map[], PortNodes(m.outs))];
    if m.kind.Atomic? then D.Elem("model", Attrs(m), ports)
    else D.Elem("model", Attrs(m),
      ports + [D.Elem("submodels", map[], seq(|m.subs|, i requires 0 <= i < |m.subs| => Enc(m.subs[i]))),
               D.Elem("connections", map[], ConnNodes(m.conns))])
  }

  function SubNodes(m: Model): (r: seq<D.Node>)
    ensures |r| == |m.subs| && forall i :: 0 <= i < |r| ==> r[i] == Enc(m.subs[i])
  {
    seq(|m.subs|, i requires 0 <= i < |m.subs| => Enc(m.subs[i]))
  }

  /** The whole document; `others` are the parts the structure edits ignore. */
  function Doc(m: Model, others: seq<D.Node>): (n: D.Node)
  {
    D.Elem("vle_project", map[], [Structures(m)] + others)
  }

  function Structures(m: Model): (n: D.Node)
  {
    D.Elem("structures", map[], [Enc(m)])
  }

  lemma Kids(m: Model)
    requires m.kind.Coupled?
    ensures Enc(m).kids == [D.Elem("in", map[], PortNodes(m.ins)), D.Elem("out", map[], PortNodes(m.outs)),
                            D.Elem("submodels", map[], SubNodes(m)), D.Elem("connections", map[], ConnNodes(m.conns))]
  {
  }

  /** The document determines the model. */
  lemma {:induction false} EncInjective(a: Model, b: Model)
    requires WF(a) && WF(b) && Enc(a) == Enc(b)
    ensures a == b
  {
    assert Attrs(a)["type"] == Attrs(b)["type"];
    SamePorts(a.ins, b.ins);
    SamePorts(a.outs, b.outs);
    if a.kind.Coupled? {
      Kids(a);
      Kids(b);
      SameConns(a.conns, b.conns);
      forall i | 0 <= i < |a.subs| ensures i < |b.subs| && a.subs[i] == b.subs[i] {
        assert SubNodes(a)[i] == SubNodes(b)[i];
        EncInjective(a.subs[i], b.subs[i]);
      }
    }
  }

  lemma SamePorts(a: seq<string>, b: seq<string>)
    ensures PortNodes(a) == PortNodes(b) <==> a == b
  {
    if PortNodes(a) == PortNodes(b) {
      forall i | 0 <= i < |a| ensures a[i] == b[i] {
        assert PortNodes(a)[i].attrs["name"] == PortNodes(b)[i].attrs["name"];
      }
    }
  }

  lemma SameConns(a: seq<Conn>, b: seq<Conn>)
    requires ConnNodes(a) == ConnNodes(b)
    ensures a == b
  {
    forall i | 0 <= i < |a| ensures a[i] == b[i] {
      SameConn(a[i], b[i]);
    }
  }

  lemma SameConn(a: Conn, b: Conn)
    requires ConnNode(a) == ConnNode(b)
    ensures a == b
  {
    var x, y := ConnNode(a), ConnNode(b);
    assert x.attrs["type"] == y.attrs["type"];
    assert x.kids[0].attrs["model"] == y.kids[0].attrs["model"] && x.kids[0].attrs["port"] == y.kids[0].attrs["port"];
    assert x.kids[1].attrs["model"] == y.kids[1].attrs["model"] && x.kids[1].attrs["port"] == y.kids[1].attrs["port"];
  }

  ghost predicate PlainName(s: string)
  {
    Free(s, '/') && Free(s, '"')
  }

  /** Model names a query can carry. */
  ghost predicate Plain(m: Model)
  {
    PlainName(m.name) && forall i :: 0 <= i < |m.subs| ==> Plain(m.subs[i])
  }

  ghost predicate Good(m: Model)
  {
    WF(m) && Plain(m)
  }

  // Addresses of models -----------------------------------------------------------------------

  /** Where the model at a path sits in the document. */
  function Place(path: seq<nat>): (p: D.Path)
  {
    if path == [] then [0, 0] else (Place(Parent(path)) + [2]) + [Last(path)]
  }

  lemma {:induction false} PlainAt(m: Model, path: seq<nat>)
    requires Plain(m) && Valid(m, path)
    ensures Plain(At(m, path))
  {
    if path != [] {
      PlainAt(m.subs[path[0]], path[1..]);
    }
  }

  lemma ChildProper(h: Model, k: nat)
    requires LocalOk(h) && Plain(h) && k < |h.subs|
    ensures X.ProperChild(X.VPZ, D.Elem("submodels", map[], SubNodes(h)), k)
  {
    var kids := SubNodes(h);
    assert Plain(h.subs[k]);
    assert X.Matches(kids[k], "model", Some(h.subs[k].name));
    forall j | 0 <= j < k ensures !X.Matches(kids[j], "model", Some(h.subs[k].name)) {
      assert Names(h.subs)[j] != Names(h.subs)[k];
    }
    assert "model" == X.VPZ.named[0];
  }

  lemma PartProper(h: Model, i: nat)
    requires i < |Enc(h).kids|
    ensures X.ProperChild(X.VPZ, Enc(h), i)
  {
    var kids := Enc(h).kids;
    assert kids[0].tag == "in" && kids[1].tag == "out";
    assert X.VPZ.uniq[1] == "submodels" && X.VPZ.uniq[2] == "in" && X.VPZ.uniq[3] == "out"
        && X.VPZ.uniq[4] == "connections";
    assert kids[i].tag in X.VPZ.uniq;
    assert X.Matches(kids[i], kids[i].tag, None);
    assert forall j :: 0 <= j < i ==> kids[j].tag != kids[i].tag;
  }

  lemma RootPlace(m: Model, others: seq<D.Node>)
    requires Plain(m)
    ensures D.Valid(Doc(m, others), [0]) && D.At(Doc(m, others), [0]) == Structures(m)
    ensures X.Addressable(X.VPZ, Doc(m, others), [0])
    ensures D.Valid(Doc(m, others), [0, 0]) && D.At(Doc(m, others), [0, 0]) == Enc(m)
    ensures X.Addressable(X.VPZ, Doc(m, others), [0, 0])
  {
    var doc := Doc(m, others);
    assert X.VPZ.uniq[0] == "structures" && X.VPZ.named[0] == "model";
    assert X.ProperChild(X.VPZ, doc, 0);
    X.ProperSnoc(X.VPZ, doc, [], 0);
    assert [] + [0] == [0];
    D.ValidExtend(doc, [], 0);
    assert X.ProperChild(X.VPZ, Structures(m), 0);
    X.ProperSnoc(X.VPZ, doc, [0], 0);
    D.ValidExtend(doc, [0], 0);
    assert [0] + [0] == [0, 0];
  }

  /** Every model has an address, and its element is there. */
  lemma {:induction false} PlaceOk(m: Model, others: seq<D.Node>, path: seq<nat>)
    requires Good(m) && Valid(m, path)
    ensures D.Valid(Doc(m, others), Place(path)) && D.At(Doc(m, others), Place(path)) == Enc(At(m, path))
    ensures X.Addressable(X.VPZ, Doc(m, others), Place(path))
    decreases |path|
  {
    if path == [] {
      RootPlace(m, others);
    } else {
      var doc, p, k := Doc(m, others), Place(Parent(path)), Last(path);
      PathSplit(m, path);
      PlaceOk(m, others, Parent(path));
      WFAt(m, Parent(path));
      PlainAt(m, Parent(path));
      var h := At(m, Parent(path));
      Kids(h);
      PartProper(h, 2);
      X.ProperSnoc(X.VPZ, doc, p, 2);
      D.ValidExtend(doc, p, 2);
      ChildProper(h, k);
      X.ProperSnoc(X.VPZ, doc, p + [2], k);
      D.ValidExtend(doc, p + [2], k);
    }
  }

  /** The four parts of a model's element have addresses too. */
  lemma PartPlace(m: Model, others: seq<D.Node>, path: seq<nat>, i: nat)
    requires Good(m) && Valid(m, path) && i < |Enc(At(m, path)).kids|
    ensures var p := Place(path) + [i];
            D.Valid(Doc(m, others), p) && D.At(Doc(m, others), p) == Enc(At(m, path)).kids[i]
            && X.Addressable(X.VPZ, Doc(m, others), p)
  {
    PlaceOk(m, others, path);
    PartProper(At(m, path), i);
    X.ProperSnoc(X.VPZ, Doc(m, others), Place(path), i);
    D.ValidExtend(Doc(m, others), Place(path), i);
  }

  // Replacing a model replaces its element ---------------------------------------------------------

  lemma {:induction false} PutExtend(n: D.Node, p: D.Path, i: nat, x: D.Node)
    requires D.Valid(n, p) && D.At(n, p).Elem? && i < |D.At(n, p).kids|
    ensures D.Valid(n, p + [i])
    ensures D.Put(n, p + [i], x) == D.Put(n, p, D.At(n, p).(kids := D.At(n, p).kids[i := x]))
  {
    D.ValidExtend(n, p, i);
    if p == [] {
      assert ([] + [i])[1..] == [];
      assert p + [i] == [i];
    } else {
      PutExtend(n.Kids()[p[0]], p[1..], i, x);
      assert (p + [i])[1..] == p[1..] + [i];
    }
  }

  lemma RootPut(m: Model, others: seq<D.Node>, x: Model)
    requires Plain(m)
    ensures D.Valid(Doc(m, others), [0]) && D.Put(Doc(m, others), [0], Structures(x)) == Doc(x, others)
    ensures D.Valid(Doc(m, others), [0, 0]) && D.Put(Doc(m, others), [0, 0], Enc(x)) == Doc(x, others)
  {
    RootPlace(m, others);
    var doc := Doc(m, others);
    PutExtend(doc, [0], 0, Enc(x));
    assert [0] + [0] == [0, 0];
    assert Structures(m).(kids := Structures(m).kids[0 := Enc(x)]) == Structures(x);
    PutExtend(doc, [], 0, Structures(x));
    assert [] + [0] == [0];
    assert ([Structures(m)] + others)[0 := Structures(x)] == [Structures(x)] + others;
  }

  lemma SubPut(h: Model, k: nat, x: Model)
    requires h.kind.Coupled? && k < |h.subs|
    ensures var subs := Enc(h).kids[2];
            Enc(h.(subs := h.subs[k := x])) == Enc(h).(kids := Enc(h).kids[2 := subs.(kids := subs.kids[k := Enc(x)])])
  {
    var g := h.(subs := h.subs[k := x]);
    Kids(h);
    Kids(g);
    assert SubNodes(g) == SubNodes(h)[k := Enc(x)];
  }

  lemma {:induction false} PutPlace(m: Model, others: seq<D.Node>, path: seq<nat>, x: Model)
    requires Good(m) && Valid(m, path)
    ensures D.Valid(Doc(m, others), Place(path))
    ensures D.Put(Doc(m, others), Place(path), Enc(x)) == Doc(Put(m, path, x), others)
    decreases |path|
  {
    PlaceOk(m, others, path);
    if path == [] {
      RootPut(m, others, x);
    } else {
      var doc, p, k := Doc(m, others), Place(Parent(path)), Last(path);
      PathSplit(m, path);
      PutSplit(m, path, x);
      PlaceOk(m, others, Parent(path));
      WFAt(m, Parent(path));
      var h := At(m, Parent(path));
      Kids(h);
      D.ValidExtend(doc, p, 2);
      PutExtend(doc, p + [2], k, Enc(x));
      var subs := Enc(h).kids[2];
      PutExtend(doc, p, 2, subs.(kids := subs.kids[k := Enc(x)]));
      SubPut(h, k, x);
      PutPlace(m, others, Parent(path), h.(subs := h.subs[k := x]));
    }
  }

  // Each operation is a local edit of the node it snapshots --------------------------------------------

  /** Replacing the node at p by y is a local edit that leads to the document
      of g. */
  ghost predicate LeadsTo(m: Model, others: seq<D.Node>, p: D.Path, y: D.Node, g: Model)
  {
    && D.Valid(Doc(m, others), p) && F.Local(X.VPZ, Doc(m, others), p, y)
    && D.Put(Doc(m, others), p, y) == Doc(g, others)
  }

  lemma WholeModel(m: Model, others: seq<D.Node>, path: seq<nat>, x: Model)
    requires Good(m) && Valid(m, path) && x.name == At(m, path).name
    ensures LeadsTo(m, others, Place(path), Enc(x), Put(m, path, x))
  {
    PlaceOk(m, others, path);
    PutPlace(m, others, path, x);
  }

  lemma OnePart(m: Model, others: seq<D.Node>, path: seq<nat>, i: nat, y: D.Node, x: Model)
    requires Good(m) && Valid(m, path) && i < |Enc(At(m, path)).kids|
    requires y.Elem? && y.tag == Enc(At(m, path)).kids[i].tag && y.attrs == map[]
    requires Enc(x) == Enc(At(m, path)).(kids := Enc(At(m, path)).kids[i := y])
    ensures LeadsTo(m, others, Place(path) + [i], y, Put(m, path, x))
  {
    PartPlace(m, others, path, i);
    PlaceOk(m, others, path);
    PutExtend(Doc(m, others), Place(path), i, y);
    PutPlace(m, others, path, x);
    assert Enc(At(m, path)).kids[i].attrs == map[];
  }

  /** What an operation hands to the undo stack: nothing, a null node, or a node
      together with what it becomes. */
  datatype Snapshot = NoSnapshot | NullSnapshot | Snapshot(p: D.Path, y: D.Node)

  function Snap(m: Model, op: Op): (r: Snapshot)
    requires Applicable(m, op)
  {
    match op
    case OAddModel(path, kind) =>
      Snapshot(Place(path) + [2], D.Elem("submodels", map[], SubNodes(AddModel(At(m, path), kind))))
    case OAddPort(path, d) =>
      var x := AddPort(At(m, path), d);
      Snapshot(Place(path) + [if d.In? then 0 else 1],
          D.Elem(if d.In? then "in" else "out", map[], PortNodes(Ports(x, d))))
    case OConnect(a, b) =>
      (match Connection(m, a, b)
       case None => if a.model == [] && b.model == [] && a.d.Out? && b.d.In? then NullSnapshot else NoSnapshot
       case Some(pc) =>
         ConnectionHost(m, a, b);
         var h := At(m, pc.0);
         if pc.1 in h.conns then NoSnapshot
         else Snapshot(Place(pc.0) + [3], D.Elem("connections", map[], ConnNodes(AddConn(h, pc.1).conns))))
    case ORenameModel(path, name) =>
      if path == [] then Snapshot([0], Structures(RenameSelf(m, name)))
      else
        PathSplit(m, path);
        Snapshot(Place(Parent(path)), Enc(RenameChild(At(m, Parent(path)), Last(path), name)))
    case ORenamePort(r, name) =>
      if r.model == [] then Snapshot(Place([]), Enc(RenameOwnPort(m, r.d, r.p, name)))
      else
        PathSplit(m, r.model);
        Snapshot(Place(Parent(r.model)), Enc(RenameSubPort(At(m, Parent(r.model)), Last(r.model), r.d, r.p, name)))
    case ORmModel(path) =>
      PathSplit(m, path);
      Snapshot(Place(Parent(path)), Enc(RmModel(At(m, Parent(path)), Last(path))))
    case ORmPort(r) =>
      if r.model == [] then Snapshot(Place([]), Enc(RmOwnPort(m, r.d, r.p)))
      else
        PathSplit(m, r.model);
        Snapshot(Place(Parent(r.model)), Enc(RmSubPort(At(m, Parent(r.model)), Last(r.model), r.d, r.p)))
    case ORmConnection(path, i) =>
      Snapshot(Place(path) + [3], D.Elem("connections", map[], ConnNodes(RmConn(At(m, path), i).conns)))
  }

  lemma AddModelLocal(m: Model, others: seq<D.Node>, path: seq<nat>, kind: Kind)
    requires Good(m) && Valid(m, path) && At(m, path).kind.Coupled?
    ensures LeadsTo(m, others, Place(path) + [2], D.Elem("submodels", map[], SubNodes(AddModel(At(m, path), kind))),
                    Put(m, path, AddModel(At(m, path), kind)))
  {
    var h, x := At(m, path), AddModel(At(m, path), kind);
    Kids(h);
    Kids(x);
    OnePart(m, others, path, 2, D.Elem("submodels", map[], SubNodes(x)), x);
  }

  lemma AddPortLocal(m: Model, others: seq<D.Node>, path: seq<nat>, d: Dir)
    requires Good(m) && Valid(m, path)
    ensures var x := AddPort(At(m, path), d);
            LeadsTo(m, others, Place(path) + [if d.In? then 0 else 1],
                    D.Elem(if d.In? then "in" else "out", map[], PortNodes(Ports(x, d))), Put(m, path, x))
  {
    var h, x := At(m, path), AddPort(At(m, path), d);
    var i := if d.In? then 0 else 1;
    var y := D.Elem(if d.In? then "in" else "out", map[], PortNodes(Ports(x, d)));
    assert SubNodes(h) == SubNodes(x);
    if h.kind.Coupled? {
      Kids(h);
      Kids(x);
    }
    assert Enc(x).kids == Enc(h).kids[i := y];
    OnePart(m, others, path, i, y, x);
  }

  lemma ConnsLocal(m: Model, others: seq<D.Node>, path: seq<nat>, conns: seq<Conn>)
    requires Good(m) && Valid(m, path) && At(m, path).kind.Coupled?
    ensures LeadsTo(m, others, Place(path) + [3], D.Elem("connections", map[], ConnNodes(conns)),
                    Put(m, path, At(m, path).(conns := conns)))
  {
    var h, x := At(m, path), At(m, path).(conns := conns);
    Kids(h);
    Kids(x);
    assert SubNodes(h) == SubNodes(x);
    OnePart(m, others, path, 3, D.Elem("connections", map[], ConnNodes(conns)), x);
  }

  lemma RootRenameLocal(m: Model, others: seq<D.Node>, name: string)
    requires Good(m)
    ensures LeadsTo(m, others, [0], Structures(RenameSelf(m, name)), RenameSelf(m, name))
  {
    RootPlace(m, others);
    RootPut(m, others, RenameSelf(m, name));
  }

  lemma ConnectLocal(m: Model, others: seq<D.Node>, a: PortRef, b: PortRef)
    requires Good(m) && Applicable(m, OConnect(a, b))
    ensures var r := Snap(m, OConnect(a, b));
            if r.Snapshot? then LeadsTo(m, others, r.p, r.y, Connect(m, a, b)) else Connect(m, a, b) == m
  {
    if Connection(m, a, b).Some? {
      ConnectionHost(m, a, b);
      var (path, c) := Connection(m, a, b).value;
      var h := At(m, path);
      WFAt(m, path);
      if c in h.conns {
        PutAt(m, path);
      } else {
        ConnsLocal(m, others, path, AddConn(h, c).conns);
      }
    }
  }

  /** Every operation replaces exactly the node it snapshots, keeping its tag
      and name, and the result is the document of the edited model; when it
      takes no snapshot it changes nothing. */
  lemma OpIsLocal(m: Model, others: seq<D.Node>, op: Op)
    requires Good(m) && Applicable(m, op)
    ensures var r := Snap(m, op);
            if r.Snapshot? then LeadsTo(m, others, r.p, r.y, Apply(m, op)) else Apply(m, op) == m
  {
    match op {
      case OAddModel(path, kind) => AddModelLocal(m, others, path, kind);
      case OAddPort(path, d) => AddPortLocal(m, others, path, d);
      case OConnect(a, b) => ConnectLocal(m, others, a, b);
      case ORenameModel(path, name) =>
        if path == [] {
          RootRenameLocal(m, others, name);
        } else {
          PathSplit(m, path);
          WholeModel(m, others, Parent(path), RenameChild(At(m, Parent(path)), Last(path), name));
        }
      case ORenamePort(r, name) =>
        if r.model == [] {
          WholeModel(m, others, [], RenameOwnPort(m, r.d, r.p, name));
        } else {
          PathSplit(m, r.model);
          WholeModel(m, others, Parent(r.model), RenameSubPort(At(m, Parent(r.model)), Last(r.model), r.d, r.p, name));
        }
      case ORmModel(path) =>
        PathSplit(m, path);
        WholeModel(m, others, Parent(path), RmModel(At(m, Parent(path)), Last(path)));
      case ORmPort(r) =>
        if r.model == [] {
          WholeModel(m, others, [], RmOwnPort(m, r.d, r.p));
        } else {
          PathSplit(m, r.model);
          WholeModel(m, others, Parent(r.model), RmSubPort(At(m, Parent(r.model)), Last(r.model), r.d, r.p));
        }
      case ORmConnection(path, i) =>
        WFAt(m, path);
        ConnsLocal(m, others, path, RmConn(At(m, path), i).conns);
    }
  }

  // Names stay addressable ----------------------------------------------------------------------------

  ghost predicate PlainOp(op: Op)
  {
    op.ORenameModel? ==> PlainName(op.name)
  }

  lemma FreshPlain(prefix: string, names: seq<string>)
    requires PlainName(prefix)
    ensures PlainName(N.FreshName(prefix, names))
  {
    var k := N.FirstFree(prefix, names, 0);
    N.DecFree(k, '/');
    N.DecFree(k, '"');
    assert "_"[0] == '_';
  }

  lemma {:induction false} PlainPut(m: Model, path: seq<nat>, x: Model)
    requires Plain(m) && Valid(m, path) && Plain(x)
    ensures Plain(Put(m, path, x))
  {
    if path != [] {
      PlainPut(m.subs[path[0]], path[1..], x);
    }
  }

  lemma PlainSubs(m: Model, x: Model)
    requires PlainName(x.name) && Plain(m) && x.subs == m.subs
    ensures Plain(x)
  {
  }

  lemma PlainChild(h: Model, k: nat, y: Model, g: Model)
    requires Plain(h) && k < |h.subs| && PlainName(y.name) && y.subs == h.subs[k].subs
    requires g.name == h.name && g.subs == h.subs[k := y]
    ensures Plain(g)
  {
    PlainSubs(h.subs[k], y);
  }

  lemma PlainAdd(h: Model, kind: Kind)
    requires Plain(h)
    ensures Plain(AddModel(h, kind))
  {
    var prefix := if kind.Coupled? then "coupled" else "atomic";
    FreshPlain(prefix, Names(h.subs));
    var g := AddModel(h, kind);
    forall i | 0 <= i < |g.subs| ensures Plain(g.subs[i]) {
      assert i < |h.subs| ==> g.subs[i] == h.subs[i];
    }
  }

  lemma PlainPort(m: Model, r: PortRef, y: Model, g: Model)
    requires Plain(m) && ValidPort(m, r) && y.name == At(m, r.model).name && y.subs == At(m, r.model).subs
    requires r.model != [] ==>
               Valid(m, Parent(r.model)) && Last(r.model) < |At(m, Parent(r.model)).subs|
               && g.name == At(m, Parent(r.model)).name && g.subs == At(m, Parent(r.model)).subs[Last(r.model) := y]
    ensures if r.model == [] then Plain(y) else Plain(Put(m, Parent(r.model), g))
  {
    PlainAt(m, r.model);
    if r.model == [] {
      PlainSubs(m, y);
    } else {
      PathSplit(m, r.model);
      PlainAt(m, Parent(r.model));
      PlainChild(At(m, Parent(r.model)), Last(r.model), y, g);
      PlainPut(m, Parent(r.model), g);
    }
  }

  lemma PlainRenameModel(m: Model, path: seq<nat>, name: string)
    requires Plain(m) && Valid(m, path) && PlainName(name)
    ensures Plain(RenameModel(m, path, name))
  {
    if path == [] {
      PlainSubs(m, RenameSelf(m, name));
    } else {
      PathSplit(m, path);
      var h, k := At(m, Parent(path)), Last(path);
      PlainAt(m, Parent(path));
      PlainChild(h, k, RenameSelf(h.subs[k], name), RenameChild(h, k, name));
      PlainPut(m, Parent(path), RenameChild(h, k, name));
    }
  }

  lemma PlainApply(m: Model, op: Op)
    requires Plain(m) && Applicable(m, op) && PlainOp(op)
    ensures Plain(Apply(m, op))
  {
    match op {
      case OAddModel(path, kind) =>
        PlainAt(m, path);
        PlainAdd(At(m, path), kind);
        PlainPut(m, path, AddModel(At(m, path), kind));
      case OAddPort(path, d) =>
        PlainAt(m, path);
        PlainSubs(At(m, path), AddPort(At(m, path), d));
        PlainPut(m, path, AddPort(At(m, path), d));
      case OConnect(a, b) =>
        if Connection(m, a, b).Some? {
          ConnectionHost(m, a, b);
          var (path, c) := Connection(m, a, b).value;
          PlainAt(m, path);
          PlainSubs(At(m, path), AddConn(At(m, path), c));
          PlainPut(m, path, AddConn(At(m, path), c));
        }
      case ORenameModel(path, name) => PlainRenameModel(m, path, name);
      case ORenamePort(r, name) =>
        if r.model != [] { PathSplit(m, r.model); }
        PlainPort(m, r, RenameOwnPort(At(m, r.model), r.d, r.p, name),
                  if r.model == [] then m else RenameSubPort(At(m, Parent(r.model)), Last(r.model), r.d, r.p, name));
      case ORmModel(path) =>
        PathSplit(m, path);
        var h := At(m, Parent(path));
        PlainAt(m, Parent(path));
        assert Plain(RmModel(h, Last(path)));
        PlainPut(m, Parent(path), RmModel(h, Last(path)));
      case ORmPort(r) =>
        if r.model != [] { PathSplit(m, r.model); }
        PlainPort(m, r, RmOwnPort(At(m, r.model), r.d, r.p),
                  if r.model == [] then m else RmSubPort(At(m, Parent(r.model)), Last(r.model), r.d, r.p));
      case ORmConnection(path, i) =>
        PlainAt(m, path);
        PlainSubs(At(m, path), RmConn(At(m, path), i));
        PlainPut(m, path, RmConn(At(m, path), i));
    }
  }

  // Sessions ----------------------------------------------------------------------------------------------

  datatype Act = Do(op: Op) | Undo | Redo

  /** The reference: the models the user has been through, where in the document
      each operation took place, and where the user is. */
  datatype Models = Models(past: seq<Model>, places: seq<Option<D.Path>>, cur: nat)

  /** The place an operation adds to the list. */
  function PlaceOf(m: Model, op: Op): (p: Option<D.Path>)
    requires Applicable(m, op)
  {
    var r := Snap(m, op);
    if r.Snapshot? then Some(r.p) else None
  }

  ghost predicate Possible(s: S.Stack, h: Models, a: Act)
  {
    && h.cur < |h.past| == |h.places|
    && match a
       case Do(op) =>
         && Applicable(h.past[h.cur], op) && FreshOp(h.past[h.cur], op) && PlainOp(op) && s.curr + 1 < |s.diffs|
         && F.Safe(h.places[..h.cur+1] + [PlaceOf(h.past[h.cur], op)])
       case Undo => true
       case Redo => s.curr + 1 < |s.diffs|
  }

  function ModelStep(h: Models, a: Act): (r: Models)
    requires h.cur < |h.past| == |h.places| && (a.Do? ==> Applicable(h.past[h.cur], a.op))
  {
    match a
    case Do(op) =>
      var m := h.past[h.cur];
      if Snap(m, op).NoSnapshot? then h
      else Models(h.past[..h.cur+1] + [Apply(m, op)], h.places[..h.cur+1] + [PlaceOf(m, op)], h.cur + 1)
    case Undo => if h.cur == 0 then h else h.(cur := h.cur - 1)
    case Redo => if h.cur + 1 < |h.past| then h.(cur := h.cur + 1) else h
  }

  /** What the editor does: snapshot and edit, or move along the stack. */
  function StackStep(s: S.Stack, m: Model, a: Act): (r: S.Stack)
    requires a.Do? ==> Applicable(m, a.op) && (Snap(m, a.op).Snapshot? ==> D.Valid(s.Doc(), Snap(m, a.op).p))
    requires a.Undo? ==> s.curr < |s.diffs|
    requires a.Redo? ==> s.curr + 1 < |s.diffs|
  {
    match a
    case Do(op) =>
      (match Snap(m, op)
       case NoSnapshot => s
       case NullSnapshot => S.SnapshotNull(s)
       case Snapshot(p, y) => F.Edit(X.VPZ, s, p, y, "null", S.NoArgs))
    case Undo => S.Undo(X.VPZ, s)
    case Redo => S.Redo(X.VPZ, s)
  }

  function Docs(past: seq<Model>, others: seq<D.Node>): (r: seq<D.Node>)
    ensures |r| == |past| && forall i :: 0 <= i < |r| ==> r[i] == Doc(past[i], others)
  {
    seq(|past|, i requires 0 <= i < |past| => Doc(past[i], others))
  }

  function AsHistory(h: Models, others: seq<D.Node>): (r: F.History)
  {
    F.History(Docs(h.past, others), h.places, h.cur)
  }

  ghost predicate AllGood(past: seq<Model>)
  {
    forall i :: 0 <= i < |past| ==> Good(past[i])
  }

  ghost predicate Tracks(s: S.Stack, h: Models, others: seq<D.Node>)
  {
    F.Rel(X.VPZ, s, AsHistory(h, others)) && AllGood(h.past)
  }

  function Grown(h: Models, g: Model, place: Option<D.Path>): (r: Models)
    requires h.cur < |h.past| == |h.places|
  {
    Models(h.past[..h.cur+1] + [g], h.places[..h.cur+1] + [place], h.cur + 1)
  }

  lemma DocsAppend(h: Models, g: Model, place: Option<D.Path>, others: seq<D.Node>)
    requires h.cur < |h.past| == |h.places|
    ensures F.Append(AsHistory(h, others), Doc(g, others), place) == AsHistory(Grown(h, g, place), others)
  {
    assert Docs(h.past[..h.cur+1] + [g], others) == Docs(h.past, others)[..h.cur+1] + [Doc(g, others)];
  }

  lemma GoodAppend(past: seq<Model>, n: nat, g: Model)
    requires AllGood(past) && n <= |past| && Good(g)
    ensures AllGood(past[..n] + [g])
  {
    forall i | 0 <= i < n + 1 ensures Good((past[..n] + [g])[i]) {
      assert i < n ==> (past[..n] + [g])[i] == past[i];
    }
  }

  /** A plain edit, on the stack and on the list of documents. */
  lemma PlainEdit(s: S.Stack, h: F.History, p: D.Path, y: D.Node)
    requires F.Rel(X.VPZ, s, h) && s.curr + 1 < |s.diffs| && F.Local(X.VPZ, s.Doc(), p, y)
    requires F.Safe(h.places[..h.cur+1] + [Some(p)])
    ensures F.Rel(X.VPZ, F.Edit(X.VPZ, s, p, y, "null", S.NoArgs), F.Append(h, D.Put(s.Doc(), p, y), Some(p)))
  {
    R.VpzGrammarOk();
    F.EditKept(X.VPZ, s, h, p, y, "null", S.NoArgs);
  }

  lemma EditTracks(s: S.Stack, h: Models, others: seq<D.Node>, p: D.Path, y: D.Node, g: Model)
    requires Tracks(s, h, others) && s.curr + 1 < |s.diffs| && Good(g)
    requires LeadsTo(h.past[h.cur], others, p, y, g) && F.Safe(h.places[..h.cur+1] + [Some(p)])
    ensures D.Valid(s.Doc(), p)
    ensures Tracks(F.Edit(X.VPZ, s, p, y, "null", S.NoArgs), Grown(h, g, Some(p)), others)
  {
    assert s.Doc() == Doc(h.past[h.cur], others);
    DocsAppend(h, g, Some(p), others);
    GoodAppend(h.past, h.cur + 1, g);
    PlainEdit(s, AsHistory(h, others), p, y);
  }

  lemma NullTracks(s: S.Stack, h: Models, others: seq<D.Node>)
    requires Tracks(s, h, others) && s.curr + 1 < |s.diffs|
    ensures Tracks(S.SnapshotNull(s), Grown(h, h.past[h.cur], None), others)
  {
    assert s.Doc() == Doc(h.past[h.cur], others);
    DocsAppend(h, h.past[h.cur], None, others);
    GoodAppend(h.past, h.cur + 1, h.past[h.cur]);
    F.NullRefines(X.VPZ, s, AsHistory(h, others));
  }

  lemma GoodApply(m: Model, op: Op)
    requires Good(m) && Applicable(m, op) && FreshOp(m, op) && PlainOp(op)
    ensures Good(Apply(m, op))
  {
    ApplyWF(m, op);
    PlainApply(m, op);
  }

  lemma DoTracks(s: S.Stack, h: Models, others: seq<D.Node>, op: Op)
    requires Tracks(s, h, others) && Possible(s, h, Do(op))
    ensures Snap(h.past[h.cur], op).Snapshot? ==> D.Valid(s.Doc(), Snap(h.past[h.cur], op).p)
    ensures Tracks(StackStep(s, h.past[h.cur], Do(op)), ModelStep(h, Do(op)), others)
  {
    var (m, r) := (h.past[h.cur], Snap(h.past[h.cur], op));
    OpIsLocal(m, others, op);
    match r {
      case NoSnapshot =>
      case NullSnapshot => NullTracks(s, h, others);
      case Snapshot(p, y) =>
        GoodApply(m, op);
        EditTracks(s, h, others, p, y, Apply(m, op));
    }
  }

  lemma StepTracks(s: S.Stack, h: Models, others: seq<D.Node>, a: Act)
    requires Tracks(s, h, others) && Possible(s, h, a)
    ensures a.Do? && Snap(h.past[h.cur], a.op).Snapshot? ==> D.Valid(s.Doc(), Snap(h.past[h.cur], a.op).p)
    ensures s.curr < |s.diffs|
    ensures Tracks(StackStep(s, h.past[h.cur], a), ModelStep(h, a), others)
  {
    R.VpzGrammarOk();
    match a {
      case Do(op) => DoTracks(s, h, others, op);
      case Undo => if s.curr > 0 { F.UndoRefines(X.VPZ, s, AsHistory(h, others)); }
      case Redo => F.RedoRefines(X.VPZ, s, AsHistory(h, others));
    }
  }

  /** A session of the editor next to its reference. */
  ghost predicate Runs(ss: seq<S.Stack>, hs: seq<Models>, acts: seq<Act>)
  {
    && |ss| == |hs| == |acts| + 1
    && forall i :: 0 <= i < |acts| ==>
         && Possible(ss[i], hs[i], acts[i])
         && (var m := hs[i].past[hs[i].cur];
             && (acts[i].Do? && Snap(m, acts[i].op).Snapshot? ==> D.Valid(ss[i].Doc(), Snap(m, acts[i].op).p))
             && ss[i].curr < |ss[i].diffs|
             && ss[i+1] == StackStep(ss[i], m, acts[i]) && hs[i+1] == ModelStep(hs[i], acts[i]))
  }

  /** Over every session of operations, undos and redos, within the stack's
      capacity and with safe places, the document is exactly that of the
      current model of the reference, and that model is well formed. */
  lemma {:induction false} EditorWithUndo(m: Model, others: seq<D.Node>, ss: seq<S.Stack>, hs: seq<Models>,
                                          acts: seq<Act>, i: nat)
    requires Good(m) && Runs(ss, hs, acts) && i < |ss|
    requires ss[0] == S.Fresh(Doc(m, others)) && hs[0] == Models([m], [None], 0)
    ensures Tracks(ss[i], hs[i], others)
    ensures ss[i].Doc() == Doc(hs[i].past[hs[i].cur], others) && WF(hs[i].past[hs[i].cur])
  {
    if i == 0 {
      F.FreshRel(X.VPZ, Doc(m, others));
      assert Docs([m], others) == [Doc(m, others)];
    } else {
      EditorWithUndo(m, others, ss, hs, acts, i - 1);
      StepTracks(ss[i-1], hs[i-1], others, acts[i-1]);
    }
  }

  // A session the editor gets wrong -------------------------------------------------------------------

  /** The stack with the list of models, whatever the places. */
  ghost predicate Follows(s: S.Stack, h: Models, others: seq<D.Node>)
  {
    && F.Kept(X.VPZ, s, AsHistory(h, others)) && E.AllReal(s, AsHistory(h, others)) && AllGood(h.past)
    && h.cur + 1 == |h.past| && |s.diffs| == S.CAPACITY
  }

  lemma KeptEdit(s: S.Stack, h: F.History, p: D.Path, y: D.Node, t: S.Stack, k: F.History)
    requires F.Kept(X.VPZ, s, h) && s.curr + 1 < |s.diffs| && F.Local(X.VPZ, s.Doc(), p, y) && E.AllReal(s, h)
    requires h.cur + 1 == |h.versions|
    requires t == F.Edit(X.VPZ, s, p, y, "null", S.NoArgs) && k == F.Append(h, D.Put(s.Doc(), p, y), Some(p))
    ensures F.Kept(X.VPZ, t, k) && E.AllReal(t, k) && |t.diffs| == |s.diffs|
  {
    R.VpzGrammarOk();
    F.EditKept(X.VPZ, s, h, p, y, "null", S.NoArgs);
    assert h.places[..h.cur+1] == h.places;
    StillReal(s, h, t, k);
  }

  /** One operation, on the stack and on the list. */
  lemma DoKept(s: S.Stack, h: Models, others: seq<D.Node>, op: Op, t: S.Stack)
    requires Follows(s, h, others) && h.cur + 2 < S.CAPACITY
    requires Applicable(h.past[h.cur], op) && FreshOp(h.past[h.cur], op) && PlainOp(op)
    requires Snap(h.past[h.cur], op).Snapshot?
    requires D.Valid(s.Doc(), Snap(h.past[h.cur], op).p) && t == StackStep(s, h.past[h.cur], Do(op))
    ensures var places := h.places + [Some(Snap(h.past[h.cur], op).p)];
            Follows(t, Models(h.past + [Apply(h.past[h.cur], op)], places, h.cur + 1), others)
  {
    var (m, r) := (h.past[h.cur], Snap(h.past[h.cur], op));
    OpIsLocal(m, others, op);
    GoodApply(m, op);
    assert s.Doc() == Doc(m, others);
    assert h.past[..h.cur+1] == h.past && h.places[..h.cur+1] == h.places;
    DocsAppend(h, Apply(m, op), Some(r.p), others);
    GoodAppend(h.past, h.cur + 1, Apply(m, op));
    KeptEdit(s, AsHistory(h, others), r.p, r.y, t, AsHistory(Grown(h, Apply(m, op), Some(r.p)), others));
  }

  lemma StillReal(s: S.Stack, h: F.History, t: S.Stack, k: F.History)
    requires F.Base(X.VPZ, t, k) && E.AllReal(s, h) && |h.places| >= 1 && |k.places| == |h.places| + 1
    requires k.places[..|h.places|] == h.places && k.places[|h.places|].Some?
    ensures E.AllReal(t, k)
  {
    forall i | 1 <= i < |k.places| ensures F.Real(t, k, i) {
      assert F.EntryOk(X.VPZ, t, k, i);
      if i < |h.places| {
        assert F.Real(s, h, i);
        assert k.places[i] == k.places[..|h.places|][i];
      }
    }
  }

  /** A coupled submodel is renamed, one of its own submodels gets an input port
      and is then renamed. */
  ghost predicate ThreeOps(m: Model, a: nat, b: nat, n1: string, n2: string)
  {
    && Good(m) && Valid(m, [a, b]) && PlainName(n1) && PlainName(n2)
    && FreshModelName(m, [a], n1)
    && var m1 := Apply(m, ORenameModel([a], n1));
       && Valid(m1, [a, b])
       && var m2 := Apply(m1, OAddPort([a, b], In));
          Valid(m2, [a, b]) && FreshModelName(m2, [a, b], n2)
  }

  /** The places of the three operations. */
  lemma ThreePlaces(a: nat, b: nat)
    ensures Parent([a]) == [] && Parent([a, b]) == [a] && Place([]) == [0, 0] && Place([a]) == [0, 0, 2, a]
    ensures Place([a, b]) + [0] == [0, 0, 2, a, 2, b, 0]
  {
    assert Parent([a]) == [] && Last([a]) == a;
    assert Parent([a, b]) == [a] && Last([a, b]) == b;
  }

  lemma ThreeCover(ps: seq<Option<D.Path>>, a: nat, b: nat)
    requires ps == [None, Some([0, 0]), Some([0, 0, 2, a, 2, b, 0]), Some([0, 0, 2, a])]
    ensures E.LastCover(ps, 1, 3)
  {
    assert [0, 0, 2, a][..2] == [0, 0];
  }

  /** What is inside the second place is also inside the third. */
  lemma BackToFirst(v1: D.Node, v2: D.Node, v3: D.Node, p2: D.Path, p3: D.Path)
    requires D.Valid(v1, p2) && D.Valid(v2, p2) && v2 == D.Put(v1, p2, D.At(v2, p2)) && p3 <= p2
    requires D.Valid(v2, p3) && D.Valid(v3, p3) && v3 == D.Put(v2, p3, D.At(v3, p3)) && D.Valid(v1, p3)
    ensures D.Put(v3, p3, D.At(v1, p3)) == v1
  {
    D.PutPut(v2, p3, D.At(v3, p3), D.At(v1, p3));
    F.PutHides(v1, p2, D.At(v2, p2), p3, D.At(v1, p3));
    D.PutAt(v1, p3);
  }

  /** The stack after the three operations, with its history. */
  ghost predicate AfterThree(m: Model, others: seq<D.Node>, a: nat, b: nat, m1: Model, m2: Model, m3: Model, s: S.Stack)
  {
    Follows(s, Models([m, m1, m2, m3], [None, Some([0, 0]), Some([0, 0, 2, a, 2, b, 0]), Some([0, 0, 2, a])], 3),
        others)
  }

  lemma StartsFollowing(m: Model, others: seq<D.Node>)
    requires Good(m)
    ensures Follows(S.Fresh(Doc(m, others)), Models([m], [None], 0), others)
  {
    F.FreshRel(X.VPZ, Doc(m, others));
    assert Docs([m], others) == [Doc(m, others)];
  }

  /** The three operations, done one after the other. */
  ghost predicate DoneThree(m: Model, others: seq<D.Node>, a: nat, b: nat, n1: string, n2: string, ms: seq<Model>,
                            ss: seq<S.Stack>)
  {
    && ThreeOps(m, a, b, n1, n2) && |ms| == |ss| == 4 && ms[0] == m && ss[0] == S.Fresh(Doc(m, others))
    && StepDone(ms[0], ss[0], ORenameModel([a], n1), ms[1], ss[1])
    && StepDone(ms[1], ss[1], OAddPort([a, b], In), ms[2], ss[2])
    && StepDone(ms[2], ss[2], ORenameModel([a, b], n2), ms[3], ss[3])
  }

  ghost predicate StepDone(m: Model, s: S.Stack, op: Op, g: Model, t: S.Stack)
  {
    && Applicable(m, op) && Snap(m, op).Snapshot? && D.Valid(s.Doc(), Snap(m, op).p)
    && g == Apply(m, op) && t == StackStep(s, m, Do(op))
  }

  lemma DoStep(s: S.Stack, h: Models, others: seq<D.Node>, op: Op, g: Model, t: S.Stack, p: D.Path)
    requires Follows(s, h, others) && h.cur + 2 < S.CAPACITY && StepDone(h.past[h.cur], s, op, g, t)
    requires FreshOp(h.past[h.cur], op) && PlainOp(op) && Snap(h.past[h.cur], op).p == p
    ensures Follows(t, Models(h.past + [g], h.places + [Some(p)], h.cur + 1), others)
  {
    DoKept(s, h, others, op, t);
  }

  lemma StepOne(m: Model, others: seq<D.Node>, a: nat, n1: string, m1: Model, s0: S.Stack, s1: S.Stack)
    requires Good(m) && s0 == S.Fresh(Doc(m, others)) && StepDone(m, s0, ORenameModel([a], n1), m1, s1)
    requires PlainName(n1) && FreshModelName(m, [a], n1)
    ensures Follows(s1, Models([m, m1], [None, Some([0, 0])], 1), others)
  {
    ThreePlaces(a, 0);
    StartsFollowing(m, others);
    var h0 := Models([m], [None], 0);
    DoStep(s0, h0, others, ORenameModel([a], n1), m1, s1, [0, 0]);
    assert Models([m, m1], [None, Some([0, 0])], 1) == Models(h0.past + [m1], h0.places + [Some([0, 0])], 1);
  }

  lemma StepTwo(m: Model, others: seq<D.Node>, a: nat, b: nat, m1: Model, m2: Model, s1: S.Stack, s2: S.Stack)
    requires Follows(s1, Models([m, m1], [None, Some([0, 0])], 1), others)
    requires StepDone(m1, s1, OAddPort([a, b], In), m2, s2)
    ensures Follows(s2, Models([m, m1, m2], [None, Some([0, 0]), Some([0, 0, 2, a, 2, b, 0])], 2), others)
  {
    ThreePlaces(a, b);
    var (h1, p) := (Models([m, m1], [None, Some([0, 0])], 1), [0, 0, 2, a, 2, b, 0]);
    DoStep(s1, h1, others, OAddPort([a, b], In), m2, s2, p);
    assert Models([m, m1, m2], [None, Some([0, 0]), Some(p)], 2) == Models(h1.past + [m2], h1.places + [Some(p)], 2);
  }

  lemma StepThree(m: Model, others: seq<D.Node>, a: nat, b: nat, n2: string, m1: Model, m2: Model, m3: Model,
                  s2: S.Stack, s3: S.Stack)
    requires Follows(s2, Models([m, m1, m2], [None, Some([0, 0]), Some([0, 0, 2, a, 2, b, 0])], 2), others)
    requires StepDone(m2, s2, ORenameModel([a, b], n2), m3, s3) && PlainName(n2) && FreshModelName(m2, [a, b], n2)
    ensures AfterThree(m, others, a, b, m1, m2, m3, s3)
  {
    ThreePlaces(a, b);
    var (h2, p) := (Models([m, m1, m2], [None, Some([0, 0]), Some([0, 0, 2, a, 2, b, 0])], 2), [0, 0, 2, a]);
    DoStep(s2, h2, others, ORenameModel([a, b], n2), m3, s3, p);
    assert h2.past + [m3] == [m, m1, m2, m3];
    assert h2.places + [Some(p)] == [None, Some([0, 0]), Some([0, 0, 2, a, 2, b, 0]), Some(p)];
  }

  lemma ThreeSteps(m: Model, others: seq<D.Node>, a: nat, b: nat, n1: string, n2: string, ms: seq<Model>,
                   ss: seq<S.Stack>)
    requires DoneThree(m, others, a, b, n1, n2, ms, ss)
    ensures AfterThree(m, others, a, b, ms[1], ms[2], ms[3], ss[3])
  {
    StepOne(m, others, a, n1, ms[1], ss[0], ss[1]);
    StepTwo(m, others, a, b, ms[1], ms[2], ss[1], ss[2]);
    StepThree(m, others, a, b, n2, ms[1], ms[2], ms[3], ss[2], ss[3]);
  }

  lemma PortWasAdded(m1: Model, path: seq<nat>)
    requires Valid(m1, path)
    ensures Apply(m1, OAddPort(path, In)) != m1
  {
    var x := AddPort(At(m1, path), In);
    assert |x.ins| == |At(m1, path).ins| + 1;
    AtPut(m1, path, x);
  }

  lemma ThreeBack(m: Model, others: seq<D.Node>, a: nat, b: nat, m1: Model, m2: Model, m3: Model, s: S.Stack)
    requires AfterThree(m, others, a, b, m1, m2, m3, s)
    ensures E.Walk(E.Mover(X.VPZ), s, E.ShortSession(1, 3)).Doc() == Doc(m1, others)
  {
    var ps := [None, Some([0, 0]), Some([0, 0, 2, a, 2, b, 0]), Some([0, 0, 2, a])];
    var h := AsHistory(Models([m, m1, m2, m3], ps, 3), others);
    R.VpzGrammarOk();
    ThreeCover(ps, a, b);
    E.KeptDescends(X.VPZ, s, h);
    ThreeShown(s, h);
    ThreeVersions(s, h, a, b);
  }

  lemma ThreeShown(s: S.Stack, h: F.History)
    requires E.AtTop(X.VPZ, s, h, 3) && E.LastCover(h.places, 1, 3)
    ensures 1 < |h.versions| && D.Valid(h.versions[1], h.places[3].value)
    ensures E.Ending(h, 3, D.At(h.versions[1], h.places[3].value))(E.Walk(E.Mover(X.VPZ), s, E.ShortSession(1, 3)))
  {
    E.BeforeTop(X.VPZ, s, h, 1, 0, 3);
    E.ShortOutcome(X.VPZ, s, h, 1, 3);
  }

  lemma ThreeVersions(s: S.Stack, h: F.History, a: nat, b: nat)
    requires F.Base(X.VPZ, s, h) && |h.versions| == 4
    requires h.places == [None, Some([0, 0]), Some([0, 0, 2, a, 2, b, 0]), Some([0, 0, 2, a])]
    requires D.Valid(h.versions[1], [0, 0, 2, a])
    ensures D.Valid(h.versions[3], [0, 0, 2, a])
    ensures D.Put(h.versions[3], [0, 0, 2, a], D.At(h.versions[1], [0, 0, 2, a])) == h.versions[1]
  {
    assert F.EntryOk(X.VPZ, s, h, 2) && F.EntryOk(X.VPZ, s, h, 3);
    assert [0, 0, 2, a, 2, b, 0][..4] == [0, 0, 2, a];
    BackToFirst(h.versions[1], h.versions[2], h.versions[3], [0, 0, 2, a, 2, b, 0], [0, 0, 2, a]);
  }

  /** Undoing all three, redoing all three and undoing one shows the model after
      the first operation, where that after the second should show: the port
      is lost. */
  lemma PortIsLost(m: Model, others: seq<D.Node>, a: nat, b: nat, n1: string, n2: string, ms: seq<Model>,
                   ss: seq<S.Stack>)
    requires DoneThree(m, others, a, b, n1, n2, ms, ss)
    ensures E.Walk(E.Mover(X.VPZ), ss[3], E.ShortSession(1, 3)).Doc() == Doc(ms[1], others) && ms[1] != ms[2]
  {
    ThreeSteps(m, others, a, b, n1, n2, ms, ss);
    ThreeBack(m, others, a, b, ms[1], ms[2], ms[3], ss[3]);
    PortWasAdded(ms[1], [a, b]);
  }
}
