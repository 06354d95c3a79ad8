/** Renaming models and ports. Connections refer to names, so a rename rewrites
    them, guided by the connection type alone; what must not change is which
    ports are wired to which, even when a model, its parent and its children
    all carry the same name. */
module VpzRename {
  import opened VpzModel

  function Ren(x: string, was: string, next: string): (r: string)
  {
    if x == was then next else x
  }

  /** At the level that contains the renamed model. */
  function OuterModel(c: Conn, was: string, next: string): (r: Conn)
  {
    match c.ctype
    case Input => c.(dm := Ren(c.dm, was, next))
    case Output => c.(om := Ren(c.om, was, next))
    case Internal => c.(om := Ren(c.om, was, next), dm := Ren(c.dm, was, next))
  }

  /** Inside the renamed model. */
  function InnerModel(c: Conn, was: string, next: string): (r: Conn)
  {
    match c.ctype
    case Input => c.(om := Ren(c.om, was, next))
    case Output => c.(dm := Ren(c.dm, was, next))
    case Internal => c
  }

  function OuterPort(c: Conn, d: Dir, model: string, was: string, next: string): (r: Conn)
  {
    if d.In? then (if !c.ctype.Output? && c.dm == model then c.(dp := Ren(c.dp, was, next)) else c)
    else (if !c.ctype.Input? && c.om == model then c.(op := Ren(c.op, was, next)) else c)
  }

  function InnerPort(c: Conn, d: Dir, model: string, was: string, next: string): (r: Conn)
  {
    if d.In? then (if c.ctype.Input? && c.om == model then c.(op := Ren(c.op, was, next)) else c)
    else (if c.ctype.Output? && c.dm == model then c.(dp := Ren(c.dp, was, next)) else c)
  }

  function MapConns(conns: seq<Conn>, f: Conn -> Conn): (r: seq<Conn>)
    ensures |r| == |conns|
    ensures forall i :: 0 <= i < |conns| ==> r[i] == f(conns[i])
  {
    seq(|conns|, i requires 0 <= i < |conns| => f(conns[i]))
  }

  /** The model's own name and its inner connections. */
  function RenameSelf(m: Model, next: string): (r: Model)
  {
    var was := m.name;
    m.(name := next, conns := MapConns(m.conns, c => InnerModel(c, was, next)))
  }

  /** renameModelIntoCoupled: the k-th submodel, seen from the level above. */
  function RenameChild(h: Model, k: nat, next: string): (r: Model)
    requires k < |h.subs|
  {
    var was := h.subs[k].name;
    h.(subs := h.subs[k := RenameSelf(h.subs[k], next)], conns := MapConns(h.conns, c => OuterModel(c, was, next)))
  }

  function RenameOwnPort(m: Model, d: Dir, p: nat, next: string): (r: Model)
    requires p < |Ports(m, d)|
  {
    var (name, was) := (m.name, Ports(m, d)[p]);
    WithPorts(m, d, Ports(m, d)[p := next]).(conns := MapConns(m.conns, c => InnerPort(c, d, name, was, next)))
  }

  function RenameSubPort(h: Model, k: nat, d: Dir, p: nat, next: string): (r: Model)
    requires k < |h.subs| && p < |Ports(h.subs[k], d)|
  {
    var (name, was) := (h.subs[k].name, Ports(h.subs[k], d)[p]);
    h.(subs := h.subs[k := RenameOwnPort(h.subs[k], d, p, next)],
       conns := MapConns(h.conns, c => OuterPort(c, d, name, was, next)))
  }

  // Wiring -------------------------------------------------------------------------

  /** A port node: of the model itself, or of a submodel; by position, not by
      name. `Dangling` is a name that denotes nothing. */
  datatype End = Own(d: Dir, p: nat) | Sub(k: nat, d: Dir, p: nat) | Dangling
  datatype Wire = Wire(ctype: CType, from: End, to: End)

  function IndexOf(s: seq<string>, x: string): (k: nat)
    ensures k <= |s|
    ensures k < |s| ==> s[k] == x
    ensures forall i :: 0 <= i < k ==> s[i] != x
  {
    if s == [] || s[0] == x then 0 else 1 + IndexOf(s[1..], x)
  }

  function OwnEnd(m: Model, name: string, d: Dir, port: string): (e: End)
  {
    var p := IndexOf(Ports(m, d), port);
    if name == m.name && p < |Ports(m, d)| then Own(d, p) else Dangling
  }

  function SubEnd(subs: seq<Model>, name: string, d: Dir, port: string): (e: End)
  {
    var k := IndexOf(Names(subs), name);
    if k == |subs| then Dangling
    else
      var p := IndexOf(Ports(subs[k], d), port);
      if p < |Ports(subs[k], d)| then Sub(k, d, p) else Dangling
  }

  /** The two port nodes a connection joins. */
  function WireOf(m: Model, c: Conn): (w: Wire)
  {
    match c.ctype
    case Input => Wire(Input, OwnEnd(m, c.om, In, c.op), SubEnd(m.subs, c.dm, In, c.dp))
    case Output => Wire(Output, SubEnd(m.subs, c.om, Out, c.op), OwnEnd(m, c.dm, Out, c.dp))
    case Internal => Wire(Internal, SubEnd(m.subs, c.om, Out, c.op), SubEnd(m.subs, c.dm, In, c.dp))
  }

  ghost predicate SameWires(a: Model, b: Model)
  {
    && |a.conns| == |b.conns|
    && forall i :: 0 <= i < |a.conns| ==> WireOf(a, a.conns[i]) == WireOf(b, b.conns[i])
  }

  /** The same tree of models and ports with the same wiring at every level. */
  ghost predicate SameWiring(a: Model, b: Model)
  {
    && a.kind == b.kind && |a.ins| == |b.ins| && |a.outs| == |b.outs| && |a.subs| == |b.subs|
    && SameWires(a, b)
    && forall i :: 0 <= i < |a.subs| ==> SameWiring(a.subs[i], b.subs[i])
  }

  lemma {:induction false} WiringReflexive(m: Model)
    ensures SameWiring(m, m)
  {
    forall i | 0 <= i < |m.subs| ensures SameWiring(m.subs[i], m.subs[i]) {
      WiringReflexive(m.subs[i]);
    }
  }

  /** A distinct list with one entry renamed to something new: positions stay. */
  lemma IndexRename(s: seq<string>, k: nat, next: string, x: string)
    requires Distinct(s) && k < |s| && (next == s[k] || next !in s) && x in s
    ensures IndexOf(s[k := next], Ren(x, s[k], next)) == IndexOf(s, x)
  {
    var t, y := s[k := next], Ren(x, s[k], next);
    var i := IndexOf(s, x);
    assert i < |s| && t[i] == y;
    assert forall j :: 0 <= j < |s| && j != i ==> t[j] != y;
  }

  lemma RenamedDistinct(s: seq<string>, k: nat, next: string)
    requires Distinct(s) && k < |s|
    ensures Distinct(s[k := next]) <==> next == s[k] || next !in s
  {
    if next != s[k] && next in s {
      var j :| 0 <= j < |s| && s[j] == next;
      assert s[k := next][j] == s[k := next][k];
    }
  }

  lemma EndResolves(m: Model, name: string, d: Dir, port: string)
    requires Distinct(Names(m.subs))
    ensures HasPort(m.subs, name, d, port) <==> SubEnd(m.subs, name, d, port) != Dangling
  {
    var k := IndexOf(Names(m.subs), name);
    if HasPort(m.subs, name, d, port) {
      var i :| 0 <= i < |m.subs| && m.subs[i].name == name && port in Ports(m.subs[i], d);
      assert Names(m.subs)[i] == name;
      assert i == k;
    }
  }

  /** Resolving is having no dangling end. */
  lemma ResolvesIffWired(m: Model, c: Conn)
    requires Distinct(Names(m.subs))
    ensures Resolves(m, c) <==> WireOf(m, c).from != Dangling && WireOf(m, c).to != Dangling
  {
    EndResolves(m, c.om, Out, c.op);
    EndResolves(m, c.dm, In, c.dp);
  }

  // Renaming a model ---------------------------------------------------------------

  lemma SelfWires(m: Model, next: string, c: Conn)
    requires Resolves(m, c)
    ensures WireOf(RenameSelf(m, next), InnerModel(c, m.name, next)) == WireOf(m, c)
  {
  }

  /** Rewriting the inner connections is injective on resolving connections. */
  lemma SelfDistinct(m: Model, next: string)
    requires LocalOk(m)
    ensures Distinct(RenameSelf(m, next).conns)
  {
    var g := RenameSelf(m, next);
    forall i, j | 0 <= i < j < |g.conns| ensures g.conns[i] != g.conns[j] {
      assert Resolves(m, m.conns[i]) && Resolves(m, m.conns[j]);
    }
  }

  lemma RenameSelfWF(m: Model, next: string)
    requires WF(m)
    ensures WF(RenameSelf(m, next)) && SameWiring(m, RenameSelf(m, next))
  {
    var g := RenameSelf(m, next);
    SelfDistinct(m, next);
    forall i | 0 <= i < |g.conns| ensures Resolves(g, g.conns[i]) && WireOf(g, g.conns[i]) == WireOf(m, m.conns[i]) {
      assert Resolves(m, m.conns[i]);
      SelfWires(m, next, m.conns[i]);
      ResolvesIffWired(m, m.conns[i]);
      ResolvesIffWired(g, g.conns[i]);
    }
    forall i | 0 <= i < |m.subs| ensures SameWiring(m.subs[i], g.subs[i]) {
      WiringReflexive(m.subs[i]);
    }
  }

  lemma RenameSelfBack(m: Model, next: string)
    requires WF(m)
    ensures RenameSelf(RenameSelf(m, next), m.name) == m
  {
    var g := RenameSelf(RenameSelf(m, next), m.name);
    forall i | 0 <= i < |m.conns| ensures g.conns[i] == m.conns[i] {
      assert Resolves(m, m.conns[i]);
    }
    assert g.conns == m.conns;
  }

  ghost predicate FreshFor(s: seq<string>, k: nat, next: string)
    requires k < |s|
  {
    next == s[k] || next !in s
  }

  lemma SubEndAt(subs: seq<Model>, name: string, d: Dir, port: string, k: nat)
    requires k < |subs| && IndexOf(Names(subs), name) == k && port in Ports(subs[k], d)
    ensures SubEnd(subs, name, d, port) == Sub(k, d, IndexOf(Ports(subs[k], d), port))
  {
  }

  lemma ChildEnd(h: Model, k: nat, next: string, name: string, d: Dir, port: string)
    requires LocalOk(h) && k < |h.subs| && FreshFor(Names(h.subs), k, next) && HasPort(h.subs, name, d, port)
    ensures SubEnd(RenameChild(h, k, next).subs, Ren(name, h.subs[k].name, next), d, port)
            == SubEnd(h.subs, name, d, port)
  {
    var g := RenameChild(h, k, next);
    var i :| 0 <= i < |h.subs| && h.subs[i].name == name && port in Ports(h.subs[i], d);
    assert Names(h.subs)[i] == name && IndexOf(Names(h.subs), name) == i;
    assert Names(g.subs) == Names(h.subs)[k := next];
    IndexRename(Names(h.subs), k, next, name);
    SubEndAt(h.subs, name, d, port, i);
    SubEndAt(g.subs, Ren(name, h.subs[k].name, next), d, port, i);
  }

  lemma ChildWires(h: Model, k: nat, next: string, c: Conn)
    requires LocalOk(h) && k < |h.subs| && FreshFor(Names(h.subs), k, next) && Resolves(h, c)
    ensures WireOf(RenameChild(h, k, next), OuterModel(c, h.subs[k].name, next)) == WireOf(h, c)
  {
    if !c.ctype.Input? { ChildEnd(h, k, next, c.om, Out, c.op); }
    if !c.ctype.Output? { ChildEnd(h, k, next, c.dm, In, c.dp); }
  }

  lemma HasPortName(subs: seq<Model>, name: string, d: Dir, port: string)
    requires HasPort(subs, name, d, port)
    ensures name in Names(subs)
  {
    var i :| 0 <= i < |subs| && subs[i].name == name && port in Ports(subs[i], d);
    assert Names(subs)[i] == name;
  }

  lemma ResolvedNames(h: Model, c: Conn)
    requires Resolves(h, c)
    ensures !c.ctype.Input? ==> c.om in Names(h.subs)
    ensures !c.ctype.Output? ==> c.dm in Names(h.subs)
  {
    if !c.ctype.Input? { HasPortName(h.subs, c.om, Out, c.op); }
    if !c.ctype.Output? { HasPortName(h.subs, c.dm, In, c.dp); }
  }

  lemma ChildDistinct(h: Model, k: nat, next: string)
    requires LocalOk(h) && k < |h.subs| && FreshFor(Names(h.subs), k, next)
    ensures Distinct(RenameChild(h, k, next).conns)
  {
    var g := RenameChild(h, k, next);
    forall i, j | 0 <= i < j < |g.conns| ensures g.conns[i] != g.conns[j] {
      assert Resolves(h, h.conns[i]) && Resolves(h, h.conns[j]);
      ResolvedNames(h, h.conns[i]);
      ResolvedNames(h, h.conns[j]);
    }
  }

  /** A fresh name keeps the level well formed and its wiring as it was. */
  lemma RenameChildWF(h: Model, k: nat, next: string)
    requires WF(h) && k < |h.subs| && FreshFor(Names(h.subs), k, next)
    ensures WF(RenameChild(h, k, next)) && SameFace(h, RenameChild(h, k, next))
    ensures SameWiring(h, RenameChild(h, k, next))
  {
    var g := RenameChild(h, k, next);
    assert Names(g.subs) == Names(h.subs)[k := next];
    RenamedDistinct(Names(h.subs), k, next);
    RenameSelfWF(h.subs[k], next);
    ChildDistinct(h, k, next);
    forall i | 0 <= i < |g.conns| ensures Resolves(g, g.conns[i]) && WireOf(g, g.conns[i]) == WireOf(h, h.conns[i]) {
      assert Resolves(h, h.conns[i]);
      ChildWires(h, k, next, h.conns[i]);
      ResolvesIffWired(h, h.conns[i]);
      ResolvesIffWired(g, g.conns[i]);
    }
    forall i | 0 <= i < |h.subs| ensures SameWiring(h.subs[i], g.subs[i]) {
      WiringReflexive(h.subs[i]);
    }
  }

  lemma RenameChildBack(h: Model, k: nat, next: string)
    requires WF(h) && k < |h.subs| && FreshFor(Names(h.subs), k, next)
    ensures RenameChild(RenameChild(h, k, next), k, h.subs[k].name) == h
  {
    var g := RenameChild(h, k, next);
    var b := RenameChild(g, k, h.subs[k].name);
    RenameSelfBack(h.subs[k], next);
    assert b.subs == h.subs;
    forall i | 0 <= i < |h.conns| ensures b.conns[i] == h.conns[i] {
      assert Resolves(h, h.conns[i]);
      ResolvedNames(h, h.conns[i]);
    }
    assert b.conns == h.conns;
  }

  // Renaming a port ----------------------------------------------------------------

  lemma OwnPortWires(m: Model, d: Dir, p: nat, next: string, c: Conn)
    requires LocalOk(m) && p < |Ports(m, d)| && FreshFor(Ports(m, d), p, next) && Resolves(m, c)
    ensures WireOf(RenameOwnPort(m, d, p, next), InnerPort(c, d, m.name, Ports(m, d)[p], next)) == WireOf(m, c)
  {
    if c.ctype.Input? && d.In? { IndexRename(m.ins, p, next, c.op); }
    if c.ctype.Output? && d.Out? { IndexRename(m.outs, p, next, c.dp); }
  }

  lemma OwnPortDistinct(m: Model, d: Dir, p: nat, next: string)
    requires LocalOk(m) && p < |Ports(m, d)| && FreshFor(Ports(m, d), p, next)
    ensures Distinct(RenameOwnPort(m, d, p, next).conns)
  {
    var g := RenameOwnPort(m, d, p, next);
    forall i, j | 0 <= i < j < |g.conns| ensures g.conns[i] != g.conns[j] {
      assert Resolves(m, m.conns[i]) && Resolves(m, m.conns[j]);
    }
  }

  lemma RenameOwnPortWF(m: Model, d: Dir, p: nat, next: string)
    requires WF(m) && p < |Ports(m, d)| && FreshFor(Ports(m, d), p, next)
    ensures WF(RenameOwnPort(m, d, p, next)) && SameWiring(m, RenameOwnPort(m, d, p, next))
  {
    var g := RenameOwnPort(m, d, p, next);
    RenamedDistinct(Ports(m, d), p, next);
    OwnPortDistinct(m, d, p, next);
    forall i | 0 <= i < |g.conns| ensures Resolves(g, g.conns[i]) && WireOf(g, g.conns[i]) == WireOf(m, m.conns[i]) {
      assert Resolves(m, m.conns[i]);
      OwnPortWires(m, d, p, next, m.conns[i]);
      ResolvesIffWired(m, m.conns[i]);
      ResolvesIffWired(g, g.conns[i]);
    }
    forall i | 0 <= i < |m.subs| ensures SameWiring(m.subs[i], g.subs[i]) {
      WiringReflexive(m.subs[i]);
    }
  }

  lemma SubPortEnd(h: Model, k: nat, d: Dir, p: nat, next: string, name: string, e: Dir, port: string)
    requires WF(h) && k < |h.subs| && p < |Ports(h.subs[k], d)| && FreshFor(Ports(h.subs[k], d), p, next)
    requires HasPort(h.subs, name, e, port)
    ensures var q := if e == d && name == h.subs[k].name then Ren(port, Ports(h.subs[k], d)[p], next) else port;
            SubEnd(RenameSubPort(h, k, d, p, next).subs, name, e, q) == SubEnd(h.subs, name, e, port)
  {
    var g := RenameSubPort(h, k, d, p, next);
    assert Names(g.subs) == Names(h.subs);
    var i :| 0 <= i < |h.subs| && h.subs[i].name == name && port in Ports(h.subs[i], e);
    assert Names(h.subs)[i] == name && IndexOf(Names(h.subs), name) == i;
    SubEndAt(h.subs, name, e, port, i);
    if e == d && i == k {
      RenamedPortEnd(h, k, d, p, next, port);
    } else {
      assert i != k ==> Names(h.subs)[i] != Names(h.subs)[k];
      assert Ports(g.subs[i], e) == Ports(h.subs[i], e);
      SubEndAt(g.subs, name, e, port, i);
    }
  }

  lemma RenamedPortEnd(h: Model, k: nat, d: Dir, p: nat, next: string, port: string)
    requires WF(h) && k < |h.subs| && p < |Ports(h.subs[k], d)| && FreshFor(Ports(h.subs[k], d), p, next)
    requires port in Ports(h.subs[k], d)
    ensures SubEnd(RenameSubPort(h, k, d, p, next).subs, h.subs[k].name, d, Ren(port, Ports(h.subs[k], d)[p], next))
         == SubEnd(h.subs, h.subs[k].name, d, port)
  {
    var (g, name, ports) := (RenameSubPort(h, k, d, p, next), h.subs[k].name, Ports(h.subs[k], d));
    assert Names(g.subs) == Names(h.subs);
    assert Names(h.subs)[k] == name && IndexOf(Names(h.subs), name) == k;
    SubEndAt(h.subs, name, d, port, k);
    IndexRename(ports, p, next, port);
    var q := Ren(port, ports[p], next);
    assert Ports(g.subs[k], d) == ports[p := next];
    assert IndexOf(ports[p := next], q) < |ports|;
    SubEndAt(g.subs, name, d, q, k);
  }

  lemma SubPortWires(h: Model, k: nat, d: Dir, p: nat, next: string, c: Conn)
    requires WF(h) && k < |h.subs| && p < |Ports(h.subs[k], d)| && FreshFor(Ports(h.subs[k], d), p, next)
    requires Resolves(h, c)
    ensures WireOf(RenameSubPort(h, k, d, p, next), OuterPort(c, d, h.subs[k].name, Ports(h.subs[k], d)[p], next)) ==
            WireOf(h, c)
  {
    if !c.ctype.Input? { SubPortEnd(h, k, d, p, next, c.om, Out, c.op); }
    if !c.ctype.Output? { SubPortEnd(h, k, d, p, next, c.dm, In, c.dp); }
  }

  /** The end of a resolving connection at a submodel is a port of that model. */
  lemma ResolvedPort(h: Model, k: nat, d: Dir, c: Conn)
    requires LocalOk(h) && k < |h.subs| && Resolves(h, c)
    ensures d.In? && !c.ctype.Output? && c.dm == h.subs[k].name ==> c.dp in h.subs[k].ins
    ensures d.Out? && !c.ctype.Input? && c.om == h.subs[k].name ==> c.op in h.subs[k].outs
  {
    if d.In? && !c.ctype.Output? && c.dm == h.subs[k].name {
      var i :| 0 <= i < |h.subs| && h.subs[i].name == c.dm && c.dp in Ports(h.subs[i], In);
      assert Names(h.subs)[i] == Names(h.subs)[k];
    }
    if d.Out? && !c.ctype.Input? && c.om == h.subs[k].name {
      var i :| 0 <= i < |h.subs| && h.subs[i].name == c.om && c.op in Ports(h.subs[i], Out);
      assert Names(h.subs)[i] == Names(h.subs)[k];
    }
  }

  /** A fresh name keeps two resolving connections apart. */
  lemma OuterPortApart(h: Model, k: nat, d: Dir, p: nat, next: string, a: Conn, b: Conn)
    requires LocalOk(h) && k < |h.subs| && p < |Ports(h.subs[k], d)| && FreshFor(Ports(h.subs[k], d), p, next)
    requires Resolves(h, a) && Resolves(h, b) && a != b
    ensures var (name, was) := (h.subs[k].name, Ports(h.subs[k], d)[p]);
            OuterPort(a, d, name, was, next) != OuterPort(b, d, name, was, next)
  {
    ResolvedPort(h, k, d, a);
    ResolvedPort(h, k, d, b);
  }

  lemma SubPortDistinct(h: Model, k: nat, d: Dir, p: nat, next: string)
    requires LocalOk(h) && k < |h.subs| && p < |Ports(h.subs[k], d)| && FreshFor(Ports(h.subs[k], d), p, next)
    ensures Distinct(RenameSubPort(h, k, d, p, next).conns)
  {
    var g := RenameSubPort(h, k, d, p, next);
    forall i, j | 0 <= i < j < |g.conns| ensures g.conns[i] != g.conns[j] {
      OuterPortApart(h, k, d, p, next, h.conns[i], h.conns[j]);
    }
  }

  lemma RenameSubPortWF(h: Model, k: nat, d: Dir, p: nat, next: string)
    requires WF(h) && k < |h.subs| && p < |Ports(h.subs[k], d)| && FreshFor(Ports(h.subs[k], d), p, next)
    ensures WF(RenameSubPort(h, k, d, p, next)) && SameFace(h, RenameSubPort(h, k, d, p, next))
    ensures SameWiring(h, RenameSubPort(h, k, d, p, next))
  {
    var g := RenameSubPort(h, k, d, p, next);
    assert Names(g.subs) == Names(h.subs);
    RenameOwnPortWF(h.subs[k], d, p, next);
    SubPortDistinct(h, k, d, p, next);
    forall i | 0 <= i < |g.conns| ensures Resolves(g, g.conns[i]) && WireOf(g, g.conns[i]) == WireOf(h, h.conns[i]) {
      assert Resolves(h, h.conns[i]);
      SubPortWires(h, k, d, p, next, h.conns[i]);
      ResolvesIffWired(h, h.conns[i]);
      ResolvesIffWired(g, g.conns[i]);
    }
    forall i | 0 <= i < |h.subs| ensures SameWiring(h.subs[i], g.subs[i]) {
      WiringReflexive(h.subs[i]);
    }
  }

  // The whole document ---------------------------------------------------------------

  lemma FaceWires(h: Model, k: nat, x: Model, c: Conn)
    requires k < |h.subs| && SameFace(h.subs[k], x)
    ensures WireOf(h.(subs := h.subs[k := x]), c) == WireOf(h, c)
  {
    assert Names(h.subs[k := x]) == Names(h.subs);
  }

  /** Wiring is kept everywhere when it is kept behind the face of one model. */
  lemma {:induction false} PutWiring(m: Model, path: seq<nat>, x: Model)
    requires Valid(m, path) && SameFace(At(m, path), x) && SameWiring(At(m, path), x)
    ensures SameWiring(m, Put(m, path, x)) && SameFace(m, Put(m, path, x))
  {
    if path != [] {
      var k := path[0];
      var y := Put(m.subs[k], path[1..], x);
      PutWiring(m.subs[k], path[1..], x);
      forall i | 0 <= i < |m.conns| ensures WireOf(m, m.conns[i]) == WireOf(m.(subs := m.subs[k := y]), m.conns[i]) {
        FaceWires(m, k, y, m.conns[i]);
      }
      forall i | 0 <= i < |m.subs| ensures SameWiring(m.subs[i], m.subs[k := y][i]) {
        WiringReflexive(m.subs[i]);
      }
    }
  }
}
