/** What each edit does to one level of the document, told by the positions of
    models and ports instead of their names: which submodel, port or connection
    goes, comes or changes, and that everything else stays and stays wired. */
module VpzEffect {
  import opened VpzModel
  import opened VpzEdit
  import opened VpzRename
  import N = Names

  // Kept in order -----------------------------------------------------------------

  /** The new list holds the entries of the old one at these places, in order. */
  ghost predicate KeptInOrder<T>(was: seq<T>, kept: seq<T>, idx: seq<nat>)
  {
    && |idx| == |kept|
    && (forall i, j :: 0 <= i < j < |idx| ==> idx[i] < idx[j])
    && forall j :: 0 <= j < |idx| ==> idx[j] < |was| && kept[j] == was[idx[j]]
  }

  lemma {:induction false} KeepInOrder(conns: seq<Conn>, drop: Conn -> bool) returns (idx: seq<nat>)
    ensures KeptInOrder(conns, Keep(conns, drop), idx)
    ensures forall i :: 0 <= i < |conns| ==> (i in idx <==> !drop(conns[i]))
  {
    if conns == [] {
      idx := [];
    } else {
      var rest := KeepInOrder(conns[1..], drop);
      var moved := seq(|rest|, j requires 0 <= j < |rest| => rest[j] + 1);
      MovedOrder(conns, Keep(conns[1..], drop), rest, moved);
      MovedMembers(conns, rest, moved);
      idx := moved;
      if !drop(conns[0]) {
        OneInFront(conns, Keep(conns[1..], drop), moved);
        idx := [0] + moved;
      }
      forall i | 0 < i < |conns| ensures i in idx <==> !drop(conns[i]) {
        assert conns[i] == conns[1..][i-1];
      }
    }
  }

  lemma MovedOrder<T>(s: seq<T>, kept: seq<T>, rest: seq<nat>, moved: seq<nat>)
    requires s != [] && KeptInOrder(s[1..], kept, rest)
    requires |moved| == |rest| && forall j :: 0 <= j < |rest| ==> moved[j] == rest[j] + 1
    ensures KeptInOrder(s, kept, moved)
  {
  }

  lemma MovedMembers<T>(s: seq<T>, rest: seq<nat>, moved: seq<nat>)
    requires |moved| == |rest| && forall j :: 0 <= j < |rest| ==> moved[j] == rest[j] + 1
    ensures 0 !in moved && forall i :: 0 < i < |s| ==> (i in moved <==> i - 1 in rest)
  {
    forall i | 0 < i < |s| ensures i in moved <==> i - 1 in rest {
      if i - 1 in rest {
        var j :| 0 <= j < |rest| && rest[j] == i - 1;
        assert moved[j] == i;
      }
    }
  }

  lemma OneInFront<T>(s: seq<T>, kept: seq<T>, idx: seq<nat>)
    requires s != [] && KeptInOrder(s, kept, idx) && 0 !in idx
    ensures KeptInOrder(s, [s[0]] + kept, [0] + idx)
  {
    var all := [0] + idx;
    forall i, j | 0 <= i < j < |all| ensures all[i] < all[j] {
      assert idx[j-1] in idx;
    }
  }

  // Ends by position -----------------------------------------------------------------

  /** A name in a list of different names stands at one place. */
  lemma IndexAt(s: seq<string>, i: nat)
    requires Distinct(s) && i < |s|
    ensures IndexOf(s, s[i]) == i
  {
  }

  lemma IndexWithout(s: seq<string>, k: nat, x: string)
    requires Distinct(s) && k < |s| && x in s && x != s[k]
    ensures var i := IndexOf(s, x); IndexOf(Without(s, k), x) == if i < k then i else i - 1
  {
    var i := IndexOf(s, x);
    var r := Without(s, k);
    WithoutDistinct(s, k);
    IndexAt(r, if i < k then i else i - 1);
  }

  ghost predicate AtSub(w: Wire, k: nat)
  {
    (w.from.Sub? && w.from.k == k) || (w.to.Sub? && w.to.k == k)
  }

  ghost predicate AtEnd(w: Wire, e: End)
  {
    w.from == e || w.to == e
  }

  function MoveWire(w: Wire, f: End -> End): (r: Wire)
  {
    Wire(w.ctype, f(w.from), f(w.to))
  }

  /** Positions once the k-th submodel is gone. */
  function PastModel(k: nat): (f: End -> End)
  {
    (e: End) => if e.Sub? && e.k > k then Sub(e.k - 1, e.d, e.p) else e
  }

  /** Positions once an own port is gone. */
  function PastOwnPort(d: Dir, p: nat): (f: End -> End)
  {
    (e: End) => if e.Own? && e.d == d && e.p > p then Own(d, e.p - 1) else e
  }

  /** Positions once a port of the k-th submodel is gone. */
  function PastSubPort(k: nat, d: Dir, p: nat): (f: End -> End)
  {
    (e: End) => if e.Sub? && e.k == k && e.d == d && e.p > p then Sub(k, d, e.p - 1) else e
  }

  // Removing a submodel ------------------------------------------------------------------

  /** Exactly the k-th submodel is gone, with exactly the connections that had an
      end at it; the others are in order and join the same ports. */
  ghost predicate ModelRemoved(h: Model, k: nat, g: Model, idx: seq<nat>)
  {
    && k < |h.subs| && SameFace(h, g) && g.kind == h.kind
    && |g.subs| == |h.subs| - 1
    && (forall i :: 0 <= i < |g.subs| ==> g.subs[i] == h.subs[if i < k then i else i + 1])
    && KeptInOrder(h.conns, g.conns, idx)
    && (forall i :: 0 <= i < |h.conns| ==> (i in idx <==> !AtSub(WireOf(h, h.conns[i]), k)))
    && forall j :: 0 <= j < |idx| ==> WireOf(g, g.conns[j]) == MoveWire(WireOf(h, h.conns[idx[j]]), PastModel(k))
  }

  lemma SubEndIs(h: Model, name: string, d: Dir, port: string) returns (i: nat)
    requires Distinct(Names(h.subs)) && HasPort(h.subs, name, d, port)
    ensures i < |h.subs| && h.subs[i].name == name && port in Ports(h.subs[i], d)
    ensures SubEnd(h.subs, name, d, port) == Sub(i, d, IndexOf(Ports(h.subs[i], d), port))
  {
    i :| 0 <= i < |h.subs| && h.subs[i].name == name && port in Ports(h.subs[i], d);
    assert Names(h.subs)[i] == name;
    IndexAt(Names(h.subs), i);
    SubEndAt(h.subs, name, d, port, i);
  }

  lemma TouchesAtSub(h: Model, k: nat, c: Conn)
    requires Distinct(Names(h.subs)) && k < |h.subs| && Resolves(h, c)
    ensures TouchesModel(c, h.subs[k].name) <==> AtSub(WireOf(h, c), k)
  {
    if !c.ctype.Input? {
      var i := SubEndIs(h, c.om, Out, c.op);
      assert i != k ==> Names(h.subs)[i] != Names(h.subs)[k];
    }
    if !c.ctype.Output? {
      var i := SubEndIs(h, c.dm, In, c.dp);
      assert i != k ==> Names(h.subs)[i] != Names(h.subs)[k];
    }
  }

  lemma SubEndWithout(h: Model, k: nat, name: string, d: Dir, port: string)
    requires Distinct(Names(h.subs)) && k < |h.subs| && HasPort(h.subs, name, d, port) && name != h.subs[k].name
    ensures SubEnd(Without(h.subs, k), name, d, port) == PastModel(k)(SubEnd(h.subs, name, d, port))
  {
    var i := SubEndIs(h, name, d, port);
    var rest := Without(h.subs, k);
    assert Names(rest) == Without(Names(h.subs), k);
    assert Names(h.subs)[i] == name;
    IndexAt(Names(h.subs), i);
    IndexWithout(Names(h.subs), k, name);
    var j := if i < k then i else i - 1;
    assert rest[j] == h.subs[i];
    SubEndAt(rest, name, d, port, j);
  }

  lemma WireWithout(h: Model, k: nat, g: Model, c: Conn)
    requires Distinct(Names(h.subs)) && k < |h.subs| && Resolves(h, c) && !TouchesModel(c, h.subs[k].name)
    requires SameFace(h, g) && g.subs == Without(h.subs, k)
    ensures WireOf(g, c) == MoveWire(WireOf(h, c), PastModel(k))
  {
    if !c.ctype.Input? { SubEndWithout(h, k, c.om, Out, c.op); }
    if !c.ctype.Output? { SubEndWithout(h, k, c.dm, In, c.dp); }
  }

  lemma RmModelEffect(h: Model, k: nat) returns (idx: seq<nat>)
    requires LocalOk(h) && k < |h.subs|
    ensures ModelRemoved(h, k, RmModel(h, k), idx)
  {
    var g := RmModel(h, k);
    var name := h.subs[k].name;
    idx := KeepInOrder(h.conns, c => TouchesModel(c, name));
    forall i | 0 <= i < |h.conns| ensures i in idx <==> !AtSub(WireOf(h, h.conns[i]), k) {
      assert Resolves(h, h.conns[i]);
      TouchesAtSub(h, k, h.conns[i]);
    }
    forall j | 0 <= j < |idx|
      ensures WireOf(g, g.conns[j]) == MoveWire(WireOf(h, h.conns[idx[j]]), PastModel(k))
    {
      assert idx[j] in idx && Resolves(h, h.conns[idx[j]]);
      WireWithout(h, k, g, h.conns[idx[j]]);
    }
  }

  // Removing a port ------------------------------------------------------------------------

  /** Exactly the p-th port of that direction is gone, with exactly the inner
      connections that had an end at it. */
  ghost predicate OwnPortRemoved(m: Model, d: Dir, p: nat, g: Model, idx: seq<nat>)
  {
    && g.name == m.name && g.kind == m.kind && g.subs == m.subs
    && (forall e :: e != d ==> Ports(g, e) == Ports(m, e))
    && p < |Ports(m, d)| && |Ports(g, d)| == |Ports(m, d)| - 1
    && (forall i :: 0 <= i < |Ports(g, d)| ==> Ports(g, d)[i] == Ports(m, d)[if i < p then i else i + 1])
    && KeptInOrder(m.conns, g.conns, idx)
    && (forall i :: 0 <= i < |m.conns| ==> (i in idx <==> !AtEnd(WireOf(m, m.conns[i]), Own(d, p))))
    && forall j :: 0 <= j < |idx| ==> WireOf(g, g.conns[j]) == MoveWire(WireOf(m, m.conns[idx[j]]), PastOwnPort(d, p))
  }

  lemma TouchesAtOwn(m: Model, d: Dir, p: nat, c: Conn)
    requires LocalOk(m) && p < |Ports(m, d)| && Resolves(m, c)
    ensures TouchesOwnPort(c, d, m.name, Ports(m, d)[p]) <==> AtEnd(WireOf(m, c), Own(d, p))
  {
    IndexAt(Ports(m, d), p);
    if !c.ctype.Input? { var i := SubEndIs(m, c.om, Out, c.op); }
    if !c.ctype.Output? { var i := SubEndIs(m, c.dm, In, c.dp); }
  }

  lemma WireOwnWithout(m: Model, d: Dir, p: nat, g: Model, c: Conn)
    requires LocalOk(m) && p < |Ports(m, d)| && Resolves(m, c) && !TouchesOwnPort(c, d, m.name, Ports(m, d)[p])
    requires g.name == m.name && g.subs == m.subs && Ports(g, d) == Without(Ports(m, d), p)
    requires forall e :: e != d ==> Ports(g, e) == Ports(m, e)
    ensures WireOf(g, c) == MoveWire(WireOf(m, c), PastOwnPort(d, p))
  {
    assert Distinct(Ports(m, d));
    if c.ctype.Input? {
      OwnEndWithout(m, d, p, g, In, c.op);
      var i := SubEndIs(m, c.dm, In, c.dp);
    } else if c.ctype.Output? {
      OwnEndWithout(m, d, p, g, Out, c.dp);
      var i := SubEndIs(m, c.om, Out, c.op);
    } else {
      var i := SubEndIs(m, c.om, Out, c.op);
      var j := SubEndIs(m, c.dm, In, c.dp);
    }
  }

  lemma OwnEndWithout(m: Model, d: Dir, p: nat, g: Model, e: Dir, port: string)
    requires Distinct(Ports(m, d)) && p < |Ports(m, d)| && port in Ports(m, e)
    requires e == d ==> port != Ports(m, d)[p]
    requires g.name == m.name && Ports(g, d) == Without(Ports(m, d), p) && (e != d ==> Ports(g, e) == Ports(m, e))
    ensures OwnEnd(g, m.name, e, port) == PastOwnPort(d, p)(OwnEnd(m, m.name, e, port))
  {
    if e == d {
      IndexWithout(Ports(m, d), p, port);
      WithoutDistinct(Ports(m, d), p);
    }
  }

  lemma RmOwnPortEffect(m: Model, d: Dir, p: nat) returns (idx: seq<nat>)
    requires LocalOk(m) && p < |Ports(m, d)|
    ensures OwnPortRemoved(m, d, p, RmOwnPort(m, d, p), idx)
  {
    var (g, name, port) := (RmOwnPort(m, d, p), m.name, Ports(m, d)[p]);
    idx := KeepInOrder(m.conns, c => TouchesOwnPort(c, d, name, port));
    forall i | 0 <= i < |m.conns| ensures i in idx <==> !AtEnd(WireOf(m, m.conns[i]), Own(d, p)) {
      assert Resolves(m, m.conns[i]);
      TouchesAtOwn(m, d, p, m.conns[i]);
    }
    forall j | 0 <= j < |idx|
      ensures WireOf(g, g.conns[j]) == MoveWire(WireOf(m, m.conns[idx[j]]), PastOwnPort(d, p))
    {
      assert idx[j] in idx && Resolves(m, m.conns[idx[j]]);
      WireOwnWithout(m, d, p, g, m.conns[idx[j]]);
    }
  }

  /** Seen from the level above: only the k-th submodel changes, by losing that
      port, and exactly the connections with an end at the port go. */
  ghost predicate SubPortRemoved(h: Model, k: nat, d: Dir, p: nat, g: Model, inner: seq<nat>, idx: seq<nat>)
  {
    && SameFace(h, g) && g.kind == h.kind && k < |h.subs| == |g.subs|
    && (forall i :: 0 <= i < |h.subs| && i != k ==> g.subs[i] == h.subs[i])
    && OwnPortRemoved(h.subs[k], d, p, g.subs[k], inner)
    && KeptInOrder(h.conns, g.conns, idx)
    && (forall i :: 0 <= i < |h.conns| ==> (i in idx <==> !AtEnd(WireOf(h, h.conns[i]), Sub(k, d, p))))
    && forall j :: 0 <= j < |idx| ==>
         WireOf(g, g.conns[j]) == MoveWire(WireOf(h, h.conns[idx[j]]), PastSubPort(k, d, p))
  }

  lemma SubEndAtPort(h: Model, k: nat, d: Dir, p: nat, name: string, e: Dir, port: string)
    requires Distinct(Names(h.subs)) && k < |h.subs| && p < |Ports(h.subs[k], d)| && Distinct(Ports(h.subs[k], d))
    requires HasPort(h.subs, name, e, port)
    ensures SubEnd(h.subs, name, e, port) == Sub(k, d, p) <==>
              e == d && name == h.subs[k].name && port == Ports(h.subs[k], d)[p]
  {
    IndexAt(Ports(h.subs[k], d), p);
    var i := SubEndIs(h, name, e, port);
    assert i != k ==> Names(h.subs)[i] != Names(h.subs)[k];
  }

  lemma TouchesAtSubPort(h: Model, k: nat, d: Dir, p: nat, c: Conn)
    requires Distinct(Names(h.subs)) && k < |h.subs| && p < |Ports(h.subs[k], d)| && Distinct(Ports(h.subs[k], d))
    requires Resolves(h, c)
    ensures TouchesSubPort(c, d, h.subs[k].name, Ports(h.subs[k], d)[p]) <==> AtEnd(WireOf(h, c), Sub(k, d, p))
  {
    if !c.ctype.Input? { SubEndAtPort(h, k, d, p, c.om, Out, c.op); }
    if !c.ctype.Output? { SubEndAtPort(h, k, d, p, c.dm, In, c.dp); }
  }

  lemma SubEndLess(h: Model, k: nat, d: Dir, p: nat, g: Model, name: string, e: Dir, port: string)
    requires Distinct(Names(h.subs)) && k < |h.subs| && p < |Ports(h.subs[k], d)| && Distinct(Ports(h.subs[k], d))
    requires g.subs == h.subs[k := RmOwnPort(h.subs[k], d, p)] && HasPort(h.subs, name, e, port)
    requires !(e == d && name == h.subs[k].name && port == Ports(h.subs[k], d)[p])
    ensures SubEnd(g.subs, name, e, port) == PastSubPort(k, d, p)(SubEnd(h.subs, name, e, port))
  {
    var i := SubEndIs(h, name, e, port);
    assert Names(g.subs) == Names(h.subs) && Names(h.subs)[i] == name;
    IndexAt(Names(h.subs), i);
    if i == k && e == d {
      PortLess(h.subs[k], d, p, port);
    }
    SubEndAt(g.subs, name, e, port, i);
  }

  lemma PortLess(m: Model, d: Dir, p: nat, port: string)
    requires p < |Ports(m, d)| && Distinct(Ports(m, d)) && port in Ports(m, d) && port != Ports(m, d)[p]
    ensures var (i, after) := (IndexOf(Ports(m, d), port), Ports(RmOwnPort(m, d, p), d));
            port in after && i != p && IndexOf(after, port) == if i > p then i - 1 else i
  {
    WithoutDistinct(Ports(m, d), p);
    IndexWithout(Ports(m, d), p, port);
  }

  lemma WireLess(h: Model, k: nat, d: Dir, p: nat, g: Model, c: Conn)
    requires Distinct(Names(h.subs)) && k < |h.subs| && p < |Ports(h.subs[k], d)| && Distinct(Ports(h.subs[k], d))
    requires SameFace(h, g) && g.subs == h.subs[k := RmOwnPort(h.subs[k], d, p)] && Resolves(h, c)
    requires !TouchesSubPort(c, d, h.subs[k].name, Ports(h.subs[k], d)[p])
    ensures WireOf(g, c) == MoveWire(WireOf(h, c), PastSubPort(k, d, p))
  {
    if !c.ctype.Input? { SubEndLess(h, k, d, p, g, c.om, Out, c.op); }
    if !c.ctype.Output? { SubEndLess(h, k, d, p, g, c.dm, In, c.dp); }
  }

  lemma RmSubPortEffect(h: Model, k: nat, d: Dir, p: nat) returns (inner: seq<nat>, idx: seq<nat>)
    requires WF(h) && k < |h.subs| && p < |Ports(h.subs[k], d)|
    ensures SubPortRemoved(h, k, d, p, RmSubPort(h, k, d, p), inner, idx)
  {
    var (g, name, port) := (RmSubPort(h, k, d, p), h.subs[k].name, Ports(h.subs[k], d)[p]);
    assert WF(h.subs[k]);
    inner := RmOwnPortEffect(h.subs[k], d, p);
    idx := KeepInOrder(h.conns, c => TouchesSubPort(c, d, name, port));
    forall i | 0 <= i < |h.conns| ensures i in idx <==> !AtEnd(WireOf(h, h.conns[i]), Sub(k, d, p)) {
      assert Resolves(h, h.conns[i]);
      TouchesAtSubPort(h, k, d, p, h.conns[i]);
    }
    forall j | 0 <= j < |idx|
      ensures WireOf(g, g.conns[j]) == MoveWire(WireOf(h, h.conns[idx[j]]), PastSubPort(k, d, p))
    {
      assert idx[j] in idx && Resolves(h, h.conns[idx[j]]);
      WireLess(h, k, d, p, g, h.conns[idx[j]]);
    }
  }

  // Adding ------------------------------------------------------------------------------------

  /** The prefix itself, or the prefix with the smallest number that makes it a
      name not taken. */
  ghost predicate FirstOffer(prefix: string, taken: seq<string>, name: string)
  {
    && name !in taken
    && exists k: nat :: name == N.Candidate(prefix, k) && forall j :: 0 <= j < k ==> N.Candidate(prefix, j) in taken
  }

  lemma FreshIsFirst(prefix: string, taken: seq<string>)
    ensures FirstOffer(prefix, taken, N.FreshName(prefix, taken))
  {
    var k := N.FirstFree(prefix, taken, 0);
    assert N.FreshName(prefix, taken) == N.Candidate(prefix, k);
  }

  /** One submodel more, at the end, under the first name offered, empty. */
  ghost predicate ModelAdded(h: Model, kind: Kind, g: Model)
  {
    && SameFace(h, g) && g.kind == h.kind && g.conns == h.conns
    && |g.subs| == |h.subs| + 1 && (forall i :: 0 <= i < |h.subs| ==> g.subs[i] == h.subs[i])
    && var x := g.subs[|h.subs|];
       && FirstOffer(if kind.Coupled? then "coupled" else "atomic", Names(h.subs), x.name) && x.kind == kind
       && x.ins == [] && x.outs == [] && x.subs == [] && x.conns == []
  }

  lemma AddModelEffect(h: Model, kind: Kind)
    ensures ModelAdded(h, kind, AddModel(h, kind))
  {
    FreshIsFirst(if kind.Coupled? then "coupled" else "atomic", Names(h.subs));
  }

  /** One port more, at the end, under the first name offered. */
  ghost predicate PortAdded(m: Model, d: Dir, g: Model)
  {
    && g.name == m.name && g.kind == m.kind && g.subs == m.subs && g.conns == m.conns
    && (forall e :: e != d ==> Ports(g, e) == Ports(m, e))
    && |Ports(g, d)| == |Ports(m, d)| + 1 && Ports(m, d) <= Ports(g, d)
    && FirstOffer("NewPort", Ports(m, d), Ports(g, d)[|Ports(m, d)|])
  }

  lemma AddPortEffect(m: Model, d: Dir)
    ensures PortAdded(m, d, AddPort(m, d))
  {
    FreshIsFirst("NewPort", Ports(m, d));
  }

  /** Two resolving connections that join the same ports are one. */
  lemma WireInjective(h: Model, a: Conn, b: Conn)
    requires Distinct(Names(h.subs)) && Resolves(h, a) && Resolves(h, b) && WireOf(h, a) == WireOf(h, b)
    ensures a == b
  {
    if !a.ctype.Input? {
      EndInjective(h, a.om, b.om, Out, a.op, b.op);
    }
    if !a.ctype.Output? {
      EndInjective(h, a.dm, b.dm, In, a.dp, b.dp);
    }
  }

  lemma EndInjective(h: Model, m: string, n: string, d: Dir, p: string, q: string)
    requires Distinct(Names(h.subs)) && HasPort(h.subs, m, d, p) && HasPort(h.subs, n, d, q)
    requires SubEnd(h.subs, m, d, p) == SubEnd(h.subs, n, d, q)
    ensures m == n && p == q
  {
    var i := SubEndIs(h, m, d, p);
    var j := SubEndIs(h, n, d, q);
  }

  /** Some connection of the level joins these two ends. */
  ghost predicate Joined(h: Model, w: Wire)
  {
    exists i :: 0 <= i < |h.conns| && WireOf(h, h.conns[i]) == w
  }

  /** The two ends are joined, by one new connection if they were not. */
  ghost predicate ConnAdded(h: Model, w: Wire, g: Model)
  {
    && SameFace(h, g) && g.kind == h.kind && g.subs == h.subs
    && h.conns <= g.conns && |g.conns| == |h.conns| + (if Joined(h, w) then 0 else 1)
    && (forall i :: 0 <= i < |h.conns| ==> WireOf(g, h.conns[i]) == WireOf(h, h.conns[i]))
    && Joined(g, w)
  }

  lemma AddConnEffect(h: Model, c: Conn)
    requires LocalOk(h) && Resolves(h, c)
    ensures ConnAdded(h, WireOf(h, c), AddConn(h, c))
  {
    var g := AddConn(h, c);
    JoinedExact(h, c);
    forall x ensures WireOf(g, x) == WireOf(h, x) {
      SameWireOf(h, g, x);
    }
    var i := if c in h.conns then IndexOfConn(h.conns, c) else |h.conns|;
    assert WireOf(g, g.conns[i]) == WireOf(h, c);
  }

  function IndexOfConn(conns: seq<Conn>, c: Conn): (i: nat)
    requires c in conns
    ensures i < |conns| && conns[i] == c
  {
    if conns[0] == c then 0 else 1 + IndexOfConn(conns[1..], c)
  }

  lemma SameWireOf(h: Model, g: Model, c: Conn)
    requires SameFace(h, g) && g.subs == h.subs
    ensures WireOf(g, c) == WireOf(h, c)
  {
  }

  /** The ends of a resolving connection are joined exactly when it is there. */
  lemma JoinedExact(h: Model, c: Conn)
    requires LocalOk(h) && Resolves(h, c)
    ensures Joined(h, WireOf(h, c)) <==> c in h.conns
  {
    if Joined(h, WireOf(h, c)) {
      var i :| 0 <= i < |h.conns| && WireOf(h, h.conns[i]) == WireOf(h, c);
      assert Resolves(h, h.conns[i]);
      WireInjective(h, h.conns[i], c);
    }
    if c in h.conns {
      assert WireOf(h, h.conns[IndexOfConn(h.conns, c)]) == WireOf(h, c);
    }
  }

  /** Exactly the i-th connection is gone. */
  ghost predicate ConnRemoved(h: Model, i: nat, g: Model)
  {
    && SameFace(h, g) && g.kind == h.kind && g.subs == h.subs && i < |h.conns| && |g.conns| == |h.conns| - 1
    && forall j :: 0 <= j < |g.conns| ==> g.conns[j] == h.conns[if j < i then j else j + 1]
  }

  lemma RmConnEffect(h: Model, i: nat)
    requires i < |h.conns|
    ensures ConnRemoved(h, i, RmConn(h, i))
  {
  }

  // Renaming ------------------------------------------------------------------------------------

  /** Only the k-th submodel has another name; nothing is wired otherwise. */
  ghost predicate ModelRenamed(h: Model, k: nat, name: string, g: Model)
  {
    && SameFace(h, g) && g.kind == h.kind && k < |h.subs| == |g.subs|
    && (forall i :: 0 <= i < |h.subs| && i != k ==> g.subs[i] == h.subs[i])
    && g.subs[k].name == name && g.subs[k].ins == h.subs[k].ins && g.subs[k].outs == h.subs[k].outs
    && g.subs[k].subs == h.subs[k].subs && SameWiring(h, g)
  }

  lemma RenameChildEffect(h: Model, k: nat, name: string)
    requires WF(h) && k < |h.subs| && FreshFor(Names(h.subs), k, name)
    ensures ModelRenamed(h, k, name, RenameChild(h, k, name))
  {
    RenameChildWF(h, k, name);
  }

  /** Only the p-th port of that direction has another name. */
  ghost predicate PortRenamed(m: Model, d: Dir, p: nat, name: string, g: Model)
  {
    && g.name == m.name && g.kind == m.kind && g.subs == m.subs
    && (forall e :: e != d ==> Ports(g, e) == Ports(m, e))
    && p < |Ports(m, d)| == |Ports(g, d)| && Ports(g, d)[p] == name
    && (forall i :: 0 <= i < |Ports(m, d)| && i != p ==> Ports(g, d)[i] == Ports(m, d)[i])
    && SameWiring(m, g)
  }

  lemma RenameOwnPortEffect(m: Model, d: Dir, p: nat, name: string)
    requires WF(m) && p < |Ports(m, d)| && FreshFor(Ports(m, d), p, name)
    ensures PortRenamed(m, d, p, name, RenameOwnPort(m, d, p, name))
  {
    RenameOwnPortWF(m, d, p, name);
  }

  ghost predicate SubPortRenamed(h: Model, k: nat, d: Dir, p: nat, name: string, g: Model)
  {
    && SameFace(h, g) && g.kind == h.kind && k < |h.subs| == |g.subs|
    && (forall i :: 0 <= i < |h.subs| && i != k ==> g.subs[i] == h.subs[i])
    && PortRenamed(h.subs[k], d, p, name, g.subs[k]) && SameWiring(h, g)
  }

  lemma RenameSubPortEffect(h: Model, k: nat, d: Dir, p: nat, name: string)
    requires WF(h) && k < |h.subs| && p < |Ports(h.subs[k], d)| && FreshFor(Ports(h.subs[k], d), p, name)
    ensures SubPortRenamed(h, k, d, p, name, RenameSubPort(h, k, d, p, name))
  {
    assert WF(h.subs[k]);
    RenameSubPortWF(h, k, d, p, name);
    RenameOwnPortEffect(h.subs[k], d, p, name);
  }
}
