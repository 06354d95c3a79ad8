/** The structure part of an experiment document: a tree of coupled and atomic
    models with ports, and typed connections that refer to models and ports by
    name. */
module VpzModel {
  datatype Dir = In | Out
  datatype Kind = Atomic | Coupled
  datatype CType = Input | Output | Internal

  /** A connection element: its type and the model and port names of its origin
      and of its destination. */
  datatype Conn = Conn(ctype: CType, om: string, op: string, dm: string, dp: string)

  datatype Model = Model(name: string, kind: Kind, ins: seq<string>, outs: seq<string>,
                         subs: seq<Model>, conns: seq<Conn>)

  function Ports(m: Model, d: Dir): (r: seq<string>)
  {
    if d.In? then m.ins else m.outs
  }

  function WithPorts(m: Model, d: Dir, ports: seq<string>): (r: Model)
    ensures Ports(r, d) == ports
    ensures forall e :: e != d ==> Ports(r, e) == Ports(m, e)
    ensures r.name == m.name && r.kind == m.kind && r.subs == m.subs && r.conns == m.conns
  {
    if d.In? then m.(ins := ports) else m.(outs := ports)
  }

  ghost predicate Distinct<T>(s: seq<T>)
  {
    forall i, j :: 0 <= i < j < |s| ==> s[i] != s[j]
  }

  function Names(subs: seq<Model>): (r: seq<string>)
    ensures |r| == |subs|
    ensures forall i :: 0 <= i < |subs| ==> r[i] == subs[i].name
  {
    seq(|subs|, i requires 0 <= i < |subs| => subs[i].name)
  }

  /** Some submodel of that name has that port. */
  ghost predicate HasPort(subs: seq<Model>, name: string, d: Dir, port: string)
  {
    exists i :: 0 <= i < |subs| && subs[i].name == name && port in Ports(subs[i], d)
  }

  /** Both ends of a connection denote existing ports of the direction its type
      demands: an input goes from an own input to a submodel's input, an output
      from a submodel's output to an own output, an internal connection from a
      submodel's output to a submodel's input. */
  ghost predicate Resolves(m: Model, c: Conn)
  {
    match c.ctype
    case Input => c.om == m.name && c.op in m.ins && HasPort(m.subs, c.dm, In, c.dp)
    case Output => HasPort(m.subs, c.om, Out, c.op) && c.dm == m.name && c.dp in m.outs
    case Internal => HasPort(m.subs, c.om, Out, c.op) && HasPort(m.subs, c.dm, In, c.dp)
  }

  ghost predicate AllResolve(m: Model)
  {
    forall i :: 0 <= i < |m.conns| ==> Resolves(m, m.conns[i])
  }

  ghost predicate LocalOk(m: Model)
  {
    && Distinct(m.ins) && Distinct(m.outs)
    && Distinct(Names(m.subs))
    && Distinct(m.conns)
    && AllResolve(m)
    && (m.kind.Atomic? ==> m.subs == [] && m.conns == [])
  }

  /** A well formed document: names are unique among siblings, every connection
      resolves and none is written twice, at every level. */
  ghost predicate WF(m: Model)
  {
    LocalOk(m) && forall i :: 0 <= i < |m.subs| ==> WF(m.subs[i])
  }

  // Addressing -----------------------------------------------------------------

  predicate Valid(m: Model, path: seq<nat>)
  {
    path == [] || (path[0] < |m.subs| && Valid(m.subs[path[0]], path[1..]))
  }

  function At(m: Model, path: seq<nat>): (r: Model)
    requires Valid(m, path)
  {
    if path == [] then m else At(m.subs[path[0]], path[1..])
  }

  function Put(m: Model, path: seq<nat>, x: Model): (r: Model)
    requires Valid(m, path)
  {
    if path == [] then x
    else m.(subs := m.subs[path[0] := Put(m.subs[path[0]], path[1..], x)])
  }

  /** What the level above can see of a model. */
  ghost predicate SameFace(a: Model, b: Model)
  {
    a.name == b.name && a.ins == b.ins && a.outs == b.outs
  }

  lemma {:induction false} AtPut(m: Model, path: seq<nat>, x: Model)
    requires Valid(m, path)
    ensures Valid(Put(m, path, x), path) && At(Put(m, path, x), path) == x
  {
    if path != [] {
      AtPut(m.subs[path[0]], path[1..], x);
    }
  }

  lemma {:induction false} PutAt(m: Model, path: seq<nat>)
    requires Valid(m, path)
    ensures Put(m, path, At(m, path)) == m
  {
    if path != [] {
      PutAt(m.subs[path[0]], path[1..]);
    }
  }

  lemma {:induction false} PutPut(m: Model, path: seq<nat>, x: Model, y: Model)
    requires Valid(m, path)
    ensures Valid(Put(m, path, x), path) && Put(Put(m, path, x), path, y) == Put(m, path, y)
  {
    if path != [] {
      PutPut(m.subs[path[0]], path[1..], x, y);
      var k := path[0];
      var a := Put(m.subs[k], path[1..], x);
      assert m.subs[k := a][k := Put(a, path[1..], y)] == m.subs[k := Put(m.subs[k], path[1..], y)];
    }
  }

  lemma {:induction false} WFAt(m: Model, path: seq<nat>)
    requires WF(m) && Valid(m, path)
    ensures WF(At(m, path))
  {
    if path != [] {
      WFAt(m.subs[path[0]], path[1..]);
    }
  }

  /** Ports are found the same way when one submodel changes behind its face. */
  lemma HasPortReplace(subs: seq<Model>, k: nat, x: Model, name: string, d: Dir, port: string)
    requires k < |subs| && SameFace(subs[k], x)
    requires HasPort(subs, name, d, port)
    ensures HasPort(subs[k := x], name, d, port)
  {
    var i :| 0 <= i < |subs| && subs[i].name == name && port in Ports(subs[i], d);
    assert subs[k := x][i].name == name && port in Ports(subs[k := x][i], d);
  }

  lemma ReplaceChildOk(h: Model, k: nat, x: Model)
    requires LocalOk(h) && k < |h.subs| && SameFace(h.subs[k], x)
    ensures LocalOk(h.(subs := h.subs[k := x]))
  {
    var g := h.(subs := h.subs[k := x]);
    assert Names(g.subs) == Names(h.subs);
    forall i | 0 <= i < |g.conns| ensures Resolves(g, g.conns[i]) {
      var c := h.conns[i];
      assert Resolves(h, c);
      if !c.ctype.Input? { HasPortReplace(h.subs, k, x, c.om, Out, c.op); }
      if !c.ctype.Output? { HasPortReplace(h.subs, k, x, c.dm, In, c.dp); }
    }
  }

  /** An edit behind the face of a model keeps the whole document well formed. */
  lemma {:induction false} PutWF(m: Model, path: seq<nat>, x: Model)
    requires WF(m) && Valid(m, path) && WF(x) && SameFace(At(m, path), x)
    ensures WF(Put(m, path, x)) && SameFace(m, Put(m, path, x))
  {
    if path != [] {
      var k := path[0];
      PutWF(m.subs[k], path[1..], x);
      ReplaceChildOk(m, k, Put(m.subs[k], path[1..], x));
    }
  }

  /** Replacing a model by one with the same face is safe exactly when the new
      one is well formed. */
  lemma PutExact(m: Model, path: seq<nat>, x: Model)
    requires WF(m) && Valid(m, path) && SameFace(At(m, path), x)
    ensures WF(Put(m, path, x)) <==> WF(x)
  {
    AtPut(m, path, x);
    if WF(x) {
      PutWF(m, path, x);
    } else if WF(Put(m, path, x)) {
      WFAt(Put(m, path, x), path);
    }
  }
}
