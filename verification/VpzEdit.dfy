/** The structural edits of the document, each as the change it makes to the
    model it acts on, and the proof that each keeps the document well formed. */
module VpzEdit {
  import opened VpzModel
  import N = Names

  // Additions --------------------------------------------------------------------

  function NewModel(name: string, kind: Kind): (m: Model)
  {
    Model(name, kind, [], [], [], [])
  }

  function AddModel(h: Model, kind: Kind): (r: Model)
  {
    var prefix := if kind.Coupled? then "coupled" else "atomic";
    h.(subs := h.subs + [NewModel(N.FreshName(prefix, Names(h.subs)), kind)])
  }

  function AddPort(m: Model, d: Dir): (r: Model)
  {
    WithPorts(m, d, Ports(m, d) + [N.FreshName("NewPort", Ports(m, d))])
  }

  /** A connection is added unless it exists. */
  function AddConn(h: Model, c: Conn): (r: Model)
  {
    if c in h.conns then h else h.(conns := h.conns + [c])
  }

  lemma HasPortPrefix(subs: seq<Model>, more: seq<Model>, name: string, d: Dir, port: string)
    requires HasPort(subs, name, d, port)
    ensures HasPort(subs + more, name, d, port)
  {
    var i :| 0 <= i < |subs| && subs[i].name == name && port in Ports(subs[i], d);
    assert (subs + more)[i] == subs[i];
  }

  lemma AddModelWF(h: Model, kind: Kind)
    requires WF(h) && h.kind.Coupled?
    ensures WF(AddModel(h, kind)) && SameFace(h, AddModel(h, kind))
  {
    var g := AddModel(h, kind);
    var x := g.subs[|h.subs|];
    assert g.subs == h.subs + [x];
    forall i | 0 <= i < |g.conns| ensures Resolves(g, g.conns[i]) {
      var c := h.conns[i];
      assert Resolves(h, c);
      if !c.ctype.Input? { HasPortPrefix(h.subs, [x], c.om, Out, c.op); }
      if !c.ctype.Output? { HasPortPrefix(h.subs, [x], c.dm, In, c.dp); }
    }
    assert WF(x);
  }

  /** A new model keeps the document well formed exactly when its parent is a
      coupled model. */
  lemma AddModelExact(h: Model, kind: Kind)
    requires WF(h)
    ensures WF(AddModel(h, kind)) <==> h.kind.Coupled?
    ensures SameFace(h, AddModel(h, kind))
  {
    if h.kind.Coupled? {
      AddModelWF(h, kind);
    } else {
      assert |AddModel(h, kind).subs| > 0;
    }
  }

  lemma AddConnWF(h: Model, c: Conn)
    requires WF(h) && h.kind.Coupled? && Resolves(h, c)
    ensures WF(AddConn(h, c)) && SameFace(h, AddConn(h, c))
  {
    var g := AddConn(h, c);
    forall i | 0 <= i < |g.conns| ensures Resolves(g, g.conns[i]) {
      assert i < |h.conns| ==> Resolves(h, h.conns[i]);
      assert Resolves(h, g.conns[i]);
    }
  }

  /** More ports never hurt: seen from inside and from the level above. */
  lemma GrowFace(m: Model, x: Model)
    requires WF(m) && x.name == m.name && x.kind == m.kind && x.subs == m.subs && x.conns == m.conns
    requires m.ins <= x.ins && m.outs <= x.outs && Distinct(x.ins) && Distinct(x.outs)
    ensures WF(x)
  {
    forall i | 0 <= i < |x.conns| ensures Resolves(x, x.conns[i]) {
      assert Resolves(m, m.conns[i]);
    }
  }

  lemma GrowChild(h: Model, k: nat, x: Model)
    requires WF(h) && k < |h.subs| && WF(x) && x.name == h.subs[k].name
    requires h.subs[k].ins <= x.ins && h.subs[k].outs <= x.outs
    ensures WF(h.(subs := h.subs[k := x]))
  {
    var g := h.(subs := h.subs[k := x]);
    assert Names(g.subs) == Names(h.subs);
    forall i | 0 <= i < |g.conns| ensures Resolves(g, g.conns[i]) {
      var c := h.conns[i];
      assert Resolves(h, c);
      if !c.ctype.Input? { GrowHasPort(h.subs, k, x, c.om, Out, c.op); }
      if !c.ctype.Output? { GrowHasPort(h.subs, k, x, c.dm, In, c.dp); }
    }
  }

  lemma GrowHasPort(subs: seq<Model>, k: nat, x: Model, name: string, d: Dir, port: string)
    requires k < |subs| && x.name == subs[k].name && subs[k].ins <= x.ins && subs[k].outs <= x.outs
    requires HasPort(subs, name, d, port)
    ensures HasPort(subs[k := x], name, d, port)
  {
    var i :| 0 <= i < |subs| && subs[i].name == name && port in Ports(subs[i], d);
    assert subs[k := x][i].name == name && port in Ports(subs[k := x][i], d);
  }

  lemma AddPortWF(m: Model, d: Dir)
    requires WF(m)
    ensures WF(AddPort(m, d))
    ensures m.ins <= AddPort(m, d).ins && m.outs <= AddPort(m, d).outs && AddPort(m, d).name == m.name
  {
    GrowFace(m, AddPort(m, d));
  }

  // Removals -----------------------------------------------------------------------

  function Keep(conns: seq<Conn>, drop: Conn -> bool): (r: seq<Conn>)
  {
    if conns == [] then []
    else if drop(conns[0]) then Keep(conns[1..], drop)
    else [conns[0]] + Keep(conns[1..], drop)
  }

  lemma {:induction false} KeepMembers(conns: seq<Conn>, drop: Conn -> bool, c: Conn)
    ensures c in Keep(conns, drop) <==> c in conns && !drop(c)
  {
    if conns != [] {
      KeepMembers(conns[1..], drop, c);
      assert c in conns <==> c == conns[0] || c in conns[1..];
    }
  }

  lemma {:induction false} KeepDistinct(conns: seq<Conn>, drop: Conn -> bool)
    requires Distinct(conns)
    ensures Distinct(Keep(conns, drop))
  {
    if conns != [] {
      KeepDistinct(conns[1..], drop);
      KeepMembers(conns[1..], drop, conns[0]);
    }
  }

  /** The connections a level loses with one of its submodels. */
  predicate TouchesModel(c: Conn, name: string)
  {
    match c.ctype
    case Input => c.dm == name
    case Output => c.om == name
    case Internal => c.om == name || c.dm == name
  }

  /** The connections a level loses with a port of one of its submodels. */
  predicate TouchesSubPort(c: Conn, d: Dir, model: string, port: string)
  {
    if d.In? then !c.ctype.Output? && c.dm == model && c.dp == port
    else !c.ctype.Input? && c.om == model && c.op == port
  }

  /** The connections a coupled model loses with one of its own ports. */
  predicate TouchesOwnPort(c: Conn, d: Dir, model: string, port: string)
  {
    if d.In? then c.ctype.Input? && c.om == model && c.op == port
    else c.ctype.Output? && c.dm == model && c.dp == port
  }

  function Without<T>(s: seq<T>, k: nat): (r: seq<T>)
    requires k < |s|
    ensures |r| == |s| - 1
    ensures forall i :: 0 <= i < |r| ==> r[i] == s[if i < k then i else i + 1]
  {
    s[..k] + s[k+1..]
  }

  lemma WithoutDistinct<T>(s: seq<T>, k: nat)
    requires k < |s| && Distinct(s)
    ensures Distinct(Without(s, k))
    ensures forall x :: x in Without(s, k) <==> x in s && x != s[k]
  {
    forall x | x in s && x != s[k] ensures x in Without(s, k) {
      var i :| 0 <= i < |s| && s[i] == x;
      assert Without(s, k)[if i < k then i else i - 1] == x;
    }
  }

  function RmModel(h: Model, k: nat): (r: Model)
    requires k < |h.subs|
  {
    var name := h.subs[k].name;
    h.(subs := Without(h.subs, k), conns := Keep(h.conns, c => TouchesModel(c, name)))
  }

  function RmOwnPort(m: Model, d: Dir, p: nat): (r: Model)
    requires p < |Ports(m, d)|
  {
    var (name, port) := (m.name, Ports(m, d)[p]);
    WithPorts(m, d, Without(Ports(m, d), p)).(conns := Keep(m.conns, c => TouchesOwnPort(c, d, name, port)))
  }

  function RmSubPort(h: Model, k: nat, d: Dir, p: nat): (r: Model)
    requires k < |h.subs| && p < |Ports(h.subs[k], d)|
  {
    var (name, port) := (h.subs[k].name, Ports(h.subs[k], d)[p]);
    h.(subs := h.subs[k := RmOwnPort(h.subs[k], d, p)], conns := Keep(h.conns, c => TouchesSubPort(c, d, name, port)))
  }

  function RmConn(h: Model, i: nat): (r: Model)
    requires i < |h.conns|
  {
    h.(conns := Without(h.conns, i))
  }

  lemma HasPortLeft(h: Model, k: nat, name: string, d: Dir, port: string)
    requires LocalOk(h) && k < |h.subs| && HasPort(Without(h.subs, k), name, d, port)
    ensures HasPort(h.subs, name, d, port) && name != h.subs[k].name
  {
    var rest := Without(h.subs, k);
    var i :| 0 <= i < |rest| && rest[i].name == name && port in Ports(rest[i], d);
    var j := if i < k then i else i + 1;
    assert h.subs[j] == rest[i];
    assert Names(h.subs)[j] != Names(h.subs)[k];
  }

  lemma HasPortStays(h: Model, k: nat, name: string, d: Dir, port: string)
    requires k < |h.subs| && HasPort(h.subs, name, d, port) && name != h.subs[k].name
    ensures HasPort(Without(h.subs, k), name, d, port)
  {
    var rest := Without(h.subs, k);
    var j :| 0 <= j < |h.subs| && h.subs[j].name == name && port in Ports(h.subs[j], d);
    var i := if j < k then j else j - 1;
    assert rest[i] == h.subs[j];
  }

  /** A port of another submodel survives the removal of the k-th. */
  lemma HasPortWithout(h: Model, k: nat, name: string, d: Dir, port: string)
    requires LocalOk(h) && k < |h.subs|
    ensures HasPort(Without(h.subs, k), name, d, port) <==>
            HasPort(h.subs, name, d, port) && name != h.subs[k].name
  {
    if HasPort(Without(h.subs, k), name, d, port) {
      HasPortLeft(h, k, name, d, port);
    } else if HasPort(h.subs, name, d, port) && name != h.subs[k].name {
      HasPortStays(h, k, name, d, port);
    }
  }

  /** Removing a submodel keeps exactly the connections that still resolve. */
  lemma RmModelExact(h: Model, k: nat, c: Conn)
    requires LocalOk(h) && k < |h.subs| && c in h.conns
    ensures c in RmModel(h, k).conns <==> Resolves(RmModel(h, k), c)
  {
    var name := h.subs[k].name;
    KeepMembers(h.conns, c => TouchesModel(c, name), c);
    assert Resolves(h, c);
    HasPortWithout(h, k, c.om, Out, c.op);
    HasPortWithout(h, k, c.dm, In, c.dp);
  }

  lemma KeptResolve(h: Model, g: Model, drop: Conn -> bool)
    requires g.conns == Keep(h.conns, drop) && Distinct(h.conns)
    requires forall c :: c in h.conns && !drop(c) ==> Resolves(g, c)
    ensures Distinct(g.conns) && AllResolve(g)
  {
    KeepDistinct(h.conns, drop);
    forall i | 0 <= i < |g.conns| ensures Resolves(g, g.conns[i]) {
      KeepMembers(h.conns, drop, g.conns[i]);
    }
  }

  lemma RmModelWF(h: Model, k: nat)
    requires WF(h) && k < |h.subs|
    ensures WF(RmModel(h, k)) && SameFace(h, RmModel(h, k))
  {
    var g := RmModel(h, k);
    var name := h.subs[k].name;
    assert Names(g.subs) == Without(Names(h.subs), k);
    WithoutDistinct(Names(h.subs), k);
    forall c | c in h.conns && !TouchesModel(c, name) ensures Resolves(g, c) {
      KeepMembers(h.conns, c => TouchesModel(c, name), c);
      RmModelExact(h, k, c);
    }
    KeptResolve(h, g, c => TouchesModel(c, name));
  }

  /** Removing an own port keeps exactly the connections that still resolve. */
  lemma RmOwnPortExact(m: Model, d: Dir, p: nat, c: Conn)
    requires LocalOk(m) && p < |Ports(m, d)| && c in m.conns
    ensures c in RmOwnPort(m, d, p).conns <==> Resolves(RmOwnPort(m, d, p), c)
  {
    var (name, port) := (m.name, Ports(m, d)[p]);
    KeepMembers(m.conns, c => TouchesOwnPort(c, d, name, port), c);
    WithoutDistinct(Ports(m, d), p);
    assert Resolves(m, c);
  }

  lemma RmOwnPortWF(m: Model, d: Dir, p: nat)
    requires WF(m) && p < |Ports(m, d)|
    ensures WF(RmOwnPort(m, d, p))
  {
    var g := RmOwnPort(m, d, p);
    var (name, port) := (m.name, Ports(m, d)[p]);
    WithoutDistinct(Ports(m, d), p);
    forall c | c in m.conns && !TouchesOwnPort(c, d, name, port) ensures Resolves(g, c) {
      KeepMembers(m.conns, c => TouchesOwnPort(c, d, name, port), c);
      RmOwnPortExact(m, d, p, c);
    }
    KeptResolve(m, g, c => TouchesOwnPort(c, d, name, port));
  }

  /** Ports of the level above after one submodel has lost a port. */
  lemma HasPortLess(h: Model, k: nat, d: Dir, p: nat, name: string, e: Dir, port: string)
    requires LocalOk(h) && k < |h.subs| && p < |Ports(h.subs[k], d)| && Distinct(Ports(h.subs[k], d))
    ensures HasPort(h.subs[k := RmOwnPort(h.subs[k], d, p)], name, e, port) <==>
            HasPort(h.subs, name, e, port) && !(e == d && name == h.subs[k].name && port == Ports(h.subs[k], d)[p])
  {
    var x := RmOwnPort(h.subs[k], d, p);
    var subs := h.subs[k := x];
    WithoutDistinct(Ports(h.subs[k], d), p);
    if HasPort(subs, name, e, port) {
      var i :| 0 <= i < |subs| && subs[i].name == name && port in Ports(subs[i], e);
      assert h.subs[i].name == name && port in Ports(h.subs[i], e);
      assert i != k ==> Names(h.subs)[i] != Names(h.subs)[k];
    }
    if HasPort(h.subs, name, e, port) && !(e == d && name == h.subs[k].name && port == Ports(h.subs[k], d)[p]) {
      var i :| 0 <= i < |h.subs| && h.subs[i].name == name && port in Ports(h.subs[i], e);
      assert subs[i].name == name && port in Ports(subs[i], e);
    }
  }

  lemma RmSubPortExact(h: Model, k: nat, d: Dir, p: nat, c: Conn)
    requires LocalOk(h) && k < |h.subs| && p < |Ports(h.subs[k], d)| && Distinct(Ports(h.subs[k], d)) && c in h.conns
    ensures c in RmSubPort(h, k, d, p).conns <==> Resolves(RmSubPort(h, k, d, p), c)
  {
    var (name, port) := (h.subs[k].name, Ports(h.subs[k], d)[p]);
    KeepMembers(h.conns, c => TouchesSubPort(c, d, name, port), c);
    assert Resolves(h, c);
    HasPortLess(h, k, d, p, c.om, Out, c.op);
    HasPortLess(h, k, d, p, c.dm, In, c.dp);
  }

  lemma RmSubPortWF(h: Model, k: nat, d: Dir, p: nat)
    requires WF(h) && k < |h.subs| && p < |Ports(h.subs[k], d)|
    ensures WF(RmSubPort(h, k, d, p)) && SameFace(h, RmSubPort(h, k, d, p))
  {
    var g := RmSubPort(h, k, d, p);
    var (name, port) := (h.subs[k].name, Ports(h.subs[k], d)[p]);
    RmOwnPortWF(h.subs[k], d, p);
    assert Names(g.subs) == Names(h.subs);
    forall c | c in h.conns && !TouchesSubPort(c, d, name, port) ensures Resolves(g, c) {
      KeepMembers(h.conns, c => TouchesSubPort(c, d, name, port), c);
      RmSubPortExact(h, k, d, p, c);
    }
    KeptResolve(h, g, c => TouchesSubPort(c, d, name, port));
  }

  lemma RmConnWF(h: Model, i: nat)
    requires WF(h) && i < |h.conns|
    ensures WF(RmConn(h, i)) && SameFace(h, RmConn(h, i))
  {
    var g := RmConn(h, i);
    WithoutDistinct(h.conns, i);
    forall j | 0 <= j < |g.conns| ensures Resolves(g, g.conns[j]) {
      assert Resolves(h, h.conns[if j < i then j else j + 1]);
    }
  }
}
