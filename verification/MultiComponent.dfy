/** A DEVS model made of many components: the step machine that plays output,
    then internal, external or confluent transitions, then time advance, over
    an event list and a set of imminent components. The event list is the one
    the documentation describes (at most one event per component, popped
    earliest first); the transition logic is as written. */
module MultiComponent {
  import opened Common

  /** The list of components, as functions of its state. A transition returns
      the changes it announces to other components; `None` stands for infinity. */
  datatype Components<!S, !E, !C> = Components(
    start: (S, nat, real) -> (S, Option<real>),
    internal: (S, nat, real) -> (S, seq<(nat, C)>),
    external: (S, nat, seq<E>, real) -> (S, seq<(nat, C)>),
    confluent: (S, nat, real, seq<E>) -> (S, seq<(nat, C)>),
    react: (S, nat, seq<(nat, C)>) -> S,
    advance: (S, nat) -> Option<real>,
    influenced: E -> seq<nat>)

  type Queue = map<nat, real>
  type Changes<C> = map<nat, seq<(nat, C)>>
  type Bags<E> = map<nat, seq<E>>

  /** One call made to a component. */
  datatype Call = CInternal(id: nat) | CExternal(id: nat) | CConfluent(id: nat) | CReact(id: nat) | CAdvance(id: nat)

  /** Any order in which a set may be walked through. */
  ghost predicate Enumerates(order: seq<nat>, s: set<nat>)
  {
    && (forall i, j :: 0 <= i < j < |order| ==> order[i] != order[j])
    && (forall x :: x in order <==> x in s)
  }

  // Bags of external events ---------------------------------------------------------------

  function AddEvent<E>(bags: Bags<E>, id: nat, e: E): (r: Bags<E>)
  {
    bags[id := (if id in bags then bags[id] else []) + [e]]
  }

  function AddEvents<E>(bags: Bags<E>, ids: seq<nat>, e: E): (r: Bags<E>)
    decreases |ids|
  {
    if ids == [] then bags else AddEvents(AddEvent(bags, ids[0], e), ids[1..], e)
  }

  function BagsFrom<S, E, C>(f: Components<S, E, C>, bags: Bags<E>, events: seq<E>): (r: Bags<E>)
    decreases |events|
  {
    if events == [] then bags else BagsFrom(f, AddEvents(bags, f.influenced(events[0]), events[0]), events[1..])
  }

  /** getModelExternalEventList: two nested loops. */
  method BuildBags<S, E, C>(f: Components<S, E, C>, events: seq<E>) returns (bags: Bags<E>)
    ensures bags == BagsFrom(f, map[], events)
  {
    bags := map[];
    for i := 0 to |events|
      invariant BagsFrom(f, map[], events) == BagsFrom(f, bags, events[i..])
    {
      assert events[i..][0] == events[i] && events[i..][1..] == events[i+1..];
      var models := f.influenced(events[i]);
      ghost var goal := AddEvents(bags, models, events[i]);
      for j := 0 to |models|
        invariant goal == AddEvents(bags, models[j..], events[i])
      {
        assert models[j..][0] == models[j] && models[j..][1..] == models[j+1..];
        bags := AddEvent(bags, models[j], events[i]);
      }
    }
  }

  /** As many copies of an event as the component occurs among its targets. */
  function Copies<E>(ids: seq<nat>, id: nat, e: E): (r: seq<E>)
  {
    if ids == [] then [] else (if ids[0] == id then [e] else []) + Copies(ids[1..], id, e)
  }

  /** What a component should receive, in order. */
  function Received<S, E, C>(f: Components<S, E, C>, events: seq<E>, id: nat): (r: seq<E>)
    decreases |events|
  {
    if events == [] then [] else Copies(f.influenced(events[0]), id, events[0]) + Received(f, events[1..], id)
  }

  function BagOf<E>(bags: Bags<E>, id: nat): (r: seq<E>)
  {
    if id in bags then bags[id] else []
  }

  ghost predicate NoEmptyBag<E>(bags: Bags<E>)
  {
    forall id :: id in bags ==> bags[id] != []
  }

  lemma {:induction false} AddEventsBag<E>(bags: Bags<E>, ids: seq<nat>, e: E, id: nat)
    requires NoEmptyBag(bags)
    ensures NoEmptyBag(AddEvents(bags, ids, e))
    ensures BagOf(AddEvents(bags, ids, e), id) == BagOf(bags, id) + Copies(ids, id, e)
    decreases |ids|
  {
    if ids != [] {
      AddEventsBag(AddEvent(bags, ids[0], e), ids[1..], e, id);
    }
  }

  lemma {:induction false} BagsFromBag<S, E, C>(f: Components<S, E, C>, bags: Bags<E>, events: seq<E>, id: nat)
    requires NoEmptyBag(bags)
    ensures NoEmptyBag(BagsFrom(f, bags, events))
    ensures BagOf(BagsFrom(f, bags, events), id) == BagOf(bags, id) + Received(f, events, id)
    decreases |events|
  {
    if events != [] {
      AddEventsBag(bags, f.influenced(events[0]), events[0], id);
      BagsFromBag(f, AddEvents(bags, f.influenced(events[0]), events[0]), events[1..], id);
    }
  }

  /** A component is perturbed exactly when some event reaches it, and its bag
      is those events in order of arrival. */
  lemma BagContents<S, E, C>(f: Components<S, E, C>, events: seq<E>, id: nat)
    ensures var bags := BagsFrom(f, map[], events);
            (id in bags <==> Received(f, events, id) != []) && (id in bags ==> bags[id] == Received(f, events, id))
  {
    BagsFromBag(f, map[], events, id);
    assert BagOf<E>(map[], id) == [];
  }

  // Changes ---------------------------------------------------------------------------------

  function PushChanges<C>(m: Changes<C>, from: nat, list: seq<(nat, C)>): (r: Changes<C>)
    decreases |list|
  {
    if list == [] then m
    else
      var (to, c) := list[0];
      PushChanges(m[to := (if to in m then m[to] else []) + [(from, c)]], from, list[1..])
  }

  // Calls to the components, in a given order ---------------------------------------------------

  /** The components, the changes announced so far, and the calls made so far. */
  datatype Run<S, C> = Run(s: S, changes: Changes<C>, calls: seq<Call>)

  function CallInternal<S, E, C>(f: Components<S, E, C>, r: Run<S, C>, id: nat, t: real): (q: Run<S, C>)
  {
    var (s, list) := f.internal(r.s, id, t);
    Run(s, PushChanges(r.changes, id, list), r.calls + [CInternal(id)])
  }

  function CallExternal<S, E, C>(f: Components<S, E, C>, r: Run<S, C>, id: nat, bag: seq<E>, t: real): (q: Run<S, C>)
  {
    var (s, list) := f.external(r.s, id, bag, t);
    Run(s, PushChanges(r.changes, id, list), r.calls + [CExternal(id)])
  }

  function CallConfluent<S, E, C>(f: Components<S, E, C>, r: Run<S, C>, id: nat, events: seq<E>, t: real)
    : (q: Run<S, C>)
  {
    var (s, list) := f.confluent(r.s, id, t, events);
    Run(s, PushChanges(r.changes, id, list), r.calls + [CConfluent(id)])
  }

  function RunInternal<S, E, C>(f: Components<S, E, C>, r: Run<S, C>, order: seq<nat>, t: real): (q: Run<S, C>)
    decreases |order|
  {
    if order == [] then r
    else CallInternal(f, RunInternal(f, r, order[..|order|-1], t), order[|order|-1], t)
  }

  function RunExternal<S, E, C>(f: Components<S, E, C>, r: Run<S, C>, order: seq<nat>, bags: Bags<E>, t: real)
    : (q: Run<S, C>)
    decreases |order|
  {
    if order == [] then r
    else
      var id := order[|order|-1];
      CallExternal(f, RunExternal(f, r, order[..|order|-1], bags, t), id, BagOf(bags, id), t)
  }

  /** The imminent components of a confluent step: one found among the perturbed
      makes a confluent transition, is handed the whole list of events, and is
      erased from the perturbed; any other makes an internal transition. */
  function RunConfluent<S, E, C>(f: Components<S, E, C>, r: Run<S, C>, order: seq<nat>, bags: Bags<E>, events: seq<E>,
                                 t: real)
    : (q: (Run<S, C>, Bags<E>))
    decreases |order|
  {
    if order == [] then (r, bags)
    else
      var (r1, left) := RunConfluent(f, r, order[..|order|-1], bags, events, t);
      var id := order[|order|-1];
      if id in left then (CallConfluent(f, r1, id, events, t), left - {id}) else (CallInternal(f, r1, id, t), left)
  }

  function RunReact<S, E, C>(f: Components<S, E, C>, s: S, calls: seq<Call>, order: seq<nat>, m: Changes<C>)
    : (q: (S, seq<Call>))
    decreases |order|
  {
    if order == [] then (s, calls)
    else
      var (s1, calls1) := RunReact(f, s, calls, order[..|order|-1], m);
      var id := order[|order|-1];
      (f.react(s1, id, if id in m then m[id] else []), calls1 + [CReact(id)])
  }

  // The event list ----------------------------------------------------------------------------

  ghost predicate IsTop(q: Queue, t: real)
  {
    (exists i :: i in q && q[i] == t) && forall i :: i in q ==> t <= q[i]
  }

  function Earliest(q: Queue): (r: set<nat>)
  {
    set i | i in q && forall j :: j in q ==> q[i] <= q[j]
  }

  lemma EarliestAtTop(q: Queue, t: real)
    requires IsTop(q, t)
    ensures Earliest(q) == set i | i in q && q[i] == t
  {
    var k :| k in q && q[k] == t;
    forall i | i in q ensures i in Earliest(q) <==> q[i] == t {
    }
  }

  /** Asking the time advance of the listed components, with the calls made; None
      when one of them is negative, which is a modelling error. */
  function AskAll<S, E, C>(f: Components<S, E, C>, s: S, order: seq<nat>, t: real, q: Queue, calls: seq<Call>)
    : (r: Option<(Queue, seq<Call>)>)
    decreases |order|
  {
    if order == [] then Some((q, calls))
    else match AskAll(f, s, order[..|order|-1], t, q, calls)
      case None => None
      case Some(qc) =>
        var id := order[|order|-1];
        match f.advance(s, id)
        case None => Some((qc.0, qc.1 + [CAdvance(id)]))
        case Some(tn) => if tn < 0.0 then None else Some((qc.0[id := t + tn], qc.1 + [CAdvance(id)]))
  }

  /** The event list a flat DEVS coordinator would keep: components that moved
      are rescheduled from their time advance, the others are left alone. */
  function Rescheduled<S, E, C>(f: Components<S, E, C>, s: S, q: Queue, moved: set<nat>, t: real): (r: Queue)
  {
    map i | i in q.Keys + moved && (i in moved ==> f.advance(s, i).Some?) ::
      if i in moved then t + f.advance(s, i).value else q[i]
  }

  ghost predicate NoneNegative<S, E, C>(f: Components<S, E, C>, s: S, moved: set<nat>)
  {
    forall i :: i in moved && f.advance(s, i).Some? ==> f.advance(s, i).value >= 0.0
  }

  lemma {:induction false} AskAllIs<S, E, C>(f: Components<S, E, C>, s: S, order: seq<nat>, t: real, q: Queue,
                                             calls: seq<Call>, moved: set<nat>)
    requires Enumerates(order, moved) && moved !! q.Keys
    ensures AskAll(f, s, order, t, q, calls).Some? <==> NoneNegative(f, s, moved)
    ensures NoneNegative(f, s, moved) ==> AskAll(f, s, order, t, q, calls).value.0 == Rescheduled(f, s, q, moved, t)
    decreases |order|
  {
    if order == [] {
      assert moved == {};
      assert Rescheduled(f, s, q, moved, t) == q;
    } else {
      var (front, i) := (order[..|order|-1], order[|order|-1]);
      var rest := moved - {i};
      assert i in order;
      EnumeratesFront(order, moved);
      AskAllIs(f, s, front, t, q, calls, rest);
      AskOne(f, s, q, rest, moved, i, t);
    }
  }

  lemma AskOne<S, E, C>(f: Components<S, E, C>, s: S, q: Queue, rest: set<nat>, moved: set<nat>, i: nat, t: real)
    requires moved !! q.Keys && i in moved && rest == moved - {i}
    ensures NoneNegative(f, s, moved)
            <==> NoneNegative(f, s, rest) && (f.advance(s, i).Some? ==> f.advance(s, i).value >= 0.0)
    ensures Rescheduled(f, s, q, moved, t) ==
            if f.advance(s, i).Some? then Rescheduled(f, s, q, rest, t)[i := t + f.advance(s, i).value]
            else Rescheduled(f, s, q, rest, t)
  {
    assert moved == rest + {i};
  }

  lemma EnumeratesFront(order: seq<nat>, s: set<nat>)
    requires Enumerates(order, s) && order != []
    ensures Enumerates(order[..|order|-1], s - {order[|order|-1]})
  {
    var (front, last) := (order[..|order|-1], order[|order|-1]);
    assert order == front + [last];
    forall x ensures x in front <==> x in s - {last} {
      assert x in order <==> x == last || x in front;
      assert forall i :: 0 <= i < |front| ==> front[i] == order[i];
    }
  }

  /** One more element of a set walked through. */
  lemma EnumeratesMore(order: seq<nat>, s: set<nat>, x: nat)
    requires Enumerates(order, s) && x !in s
    ensures Enumerates(order + [x], s + {x})
  {
  }

  /** Walking through a set, with some elements left. */
  lemma WalkOn(order: seq<nat>, all: set<nat>, left: set<nat>, x: nat)
    requires left <= all && x in left && Enumerates(order, all - left)
    ensures Enumerates(order + [x], all - (left - {x})) && left - {x} <= all
    ensures (order + [x])[..|order + [x]|-1] == order && (order + [x])[|order + [x]|-1] == x
  {
    EnumeratesMore(order, all - left, x);
    assert all - (left - {x}) == all - left + {x};
  }
}
