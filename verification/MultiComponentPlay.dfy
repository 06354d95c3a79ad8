/** What the components of a multi-component model are asked, with every
    argument, and what they tell each other: the steps of the model are replays
    of the questions, and a component reacts to exactly the changes announced to
    it, in the order in which they were announced. */
module MultiComponentPlay {
  import opened Common
  import opened MultiComponent
  import opened MultiComponentCycle

  /** A question to a component, in full. */
  datatype Ask<E, C> =
    | AskInternal(id: nat, t: real)
    | AskExternal(id: nat, bag: seq<E>, t: real)
    | AskConfluent(id: nat, t: real, events: seq<E>)
    | AskReact(id: nat, list: seq<(nat, C)>)

  /** The answer: the components afterwards and the changes announced. */
  function Answer<S, E, C>(f: Components<S, E, C>, s: S, a: Ask<E, C>): (r: (S, seq<(nat, C)>))
  {
    match a
    case AskInternal(id, t) => f.internal(s, id, t)
    case AskExternal(id, bag, t) => f.external(s, id, bag, t)
    case AskConfluent(id, t, events) => f.confluent(s, id, t, events)
    case AskReact(id, list) => (f.react(s, id, list), [])
  }

  /** The components after a list of questions. */
  function Replay<S, E, C>(f: Components<S, E, C>, s: S, asks: seq<Ask<E, C>>): (r: S)
  {
    if asks == [] then s else Answer(f, Replay(f, s, asks[..|asks|-1]), asks[|asks|-1]).0
  }

  /** Of one answer, the part addressed to one component. */
  function Addressed<C>(list: seq<(nat, C)>, from: nat, to: nat): (r: seq<(nat, C)>)
  {
    if list == [] then []
    else (if list[0].0 == to then [(from, list[0].1)] else []) + Addressed(list[1..], from, to)
  }

  /** Everything announced to one component, in the order of the questions. */
  function Announced<S, E, C>(f: Components<S, E, C>, s: S, asks: seq<Ask<E, C>>, to: nat): (r: seq<(nat, C)>)
  {
    if asks == [] then []
    else
      var (front, last) := (asks[..|asks|-1], asks[|asks|-1]);
      Announced(f, s, front, to) + Addressed(Answer(f, Replay(f, s, front), last).1, last.id, to)
  }

  function CallOf<E, C>(a: Ask<E, C>): (c: Call)
  {
    match a
    case AskInternal(id, _) => CInternal(id)
    case AskExternal(id, _, _) => CExternal(id)
    case AskConfluent(id, _, _) => CConfluent(id)
    case AskReact(id, _) => CReact(id)
  }

  function CallsOf<E, C>(asks: seq<Ask<E, C>>): (calls: seq<Call>)
    ensures |calls| == |asks| && forall k :: 0 <= k < |asks| ==> calls[k] == CallOf(asks[k])
  {
    seq(|asks|, k requires 0 <= k < |asks| => CallOf(asks[k]))
  }

  lemma {:induction false} ReplayAppend<S, E, C>(f: Components<S, E, C>, s: S, a: seq<Ask<E, C>>, b: seq<Ask<E, C>>)
    ensures Replay(f, s, a + b) == Replay(f, Replay(f, s, a), b)
    decreases |b|
  {
    if b == [] {
      assert a + b == a;
    } else {
      var n := |b| - 1;
      assert (a + b)[..|a + b|-1] == a + b[..n] && (a + b)[|a + b|-1] == b[n];
      ReplayAppend(f, s, a, b[..n]);
    }
  }

  lemma {:induction false} AnnouncedAppend<S, E, C>(f: Components<S, E, C>, s: S, a: seq<Ask<E, C>>, b: seq<Ask<E, C>>,
                                                    to: nat)
    ensures Announced(f, s, a + b, to) == Announced(f, s, a, to) + Announced(f, Replay(f, s, a), b, to)
    decreases |b|
  {
    if b == [] {
      assert a + b == a;
    } else {
      var (front, last) := (b[..|b|-1], b[|b|-1]);
      assert a + b == (a + front) + [last] && b == front + [last];
      ReplayAppend(f, s, a, front);
      AnnouncedAppend(f, s, a, front, to);
      OneMore(f, s, a + front, last, to);
      OneMore(f, Replay(f, s, a), front, last, to);
    }
  }

  // Collecting changes ------------------------------------------------------------------------

  function ListOf<C>(ch: Changes<C>, to: nat): (r: seq<(nat, C)>)
  {
    if to in ch then ch[to] else []
  }

  ghost predicate NoEmptyList<C>(ch: Changes<C>)
  {
    forall to :: to in ch ==> ch[to] != []
  }

  lemma {:induction false} PushAppends<C>(ch: Changes<C>, from: nat, list: seq<(nat, C)>, to: nat)
    requires NoEmptyList(ch)
    ensures NoEmptyList(PushChanges(ch, from, list))
    ensures ListOf(PushChanges(ch, from, list), to) == ListOf(ch, to) + Addressed(list, from, to)
    decreases |list|
  {
    if list != [] {
      var (id, c) := list[0];
      PushAppends(ch[id := ListOf(ch, id) + [(from, c)]], from, list[1..], to);
    }
  }

  /** A run that started from r has asked these questions: the components are
      where they lead, the log names them, and the changes are what was told. */
  ghost predicate Asked<S, E, C>(f: Components<S, E, C>, r: Run<S, C>, asks: seq<Ask<E, C>>, q: Run<S, C>)
  {
    && q.s == Replay(f, r.s, asks)
    && q.calls == r.calls + CallsOf(asks)
    && NoEmptyList(q.changes)
    && forall to :: ListOf(q.changes, to) == ListOf(r.changes, to) + Announced(f, r.s, asks, to)
  }

  lemma NothingAsked<S, E, C>(f: Components<S, E, C>, r: Run<S, C>)
    requires NoEmptyList(r.changes)
    ensures Asked(f, r, [], r)
  {
    assert r.calls + [] == r.calls;
  }

  lemma OneMore<S, E, C>(f: Components<S, E, C>, s: S, asks: seq<Ask<E, C>>, a: Ask<E, C>, to: nat)
    ensures Replay(f, s, asks + [a]) == Answer(f, Replay(f, s, asks), a).0
    ensures Announced(f, s, asks + [a], to)
         == Announced(f, s, asks, to) + Addressed(Answer(f, Replay(f, s, asks), a).1, a.id, to)
  {
    var all := asks + [a];
    assert all[..|all|-1] == asks && all[|all|-1] == a;
  }

  lemma CallsMore<E, C>(calls: seq<Call>, a: seq<Ask<E, C>>, b: seq<Ask<E, C>>)
    ensures calls + CallsOf(a + b) == (calls + CallsOf(a)) + CallsOf(b)
  {
  }

  lemma AskedMore<S, E, C>(f: Components<S, E, C>, r: Run<S, C>, asks: seq<Ask<E, C>>, q: Run<S, C>, a: Ask<E, C>,
                           n: Run<S, C>)
    requires Asked(f, r, asks, q)
    requires n.s == Answer(f, q.s, a).0 && n.calls == q.calls + [CallOf(a)]
    requires n.changes == PushChanges(q.changes, a.id, Answer(f, q.s, a).1)
    ensures Asked(f, r, asks + [a], n)
  {
    var list := Answer(f, q.s, a).1;
    OneMore(f, r.s, asks, a, 0);
    CallsMore(r.calls, asks, [a]);
    assert CallsOf([a]) == [CallOf(a)];
    PushAppends(q.changes, a.id, list, 0);
    forall to ensures ListOf(n.changes, to) == ListOf(r.changes, to) + Announced(f, r.s, asks + [a], to) {
      OneMore(f, r.s, asks, a, to);
      PushAppends(q.changes, a.id, list, to);
      Together(ListOf(r.changes, to), Announced(f, r.s, asks, to), Addressed(list, a.id, to));
    }
  }

  lemma Together<T>(a: seq<T>, b: seq<T>, c: seq<T>)
    ensures (a + b) + c == a + (b + c)
  {
  }

  lemma AskedTwice<S, E, C>(f: Components<S, E, C>, r: Run<S, C>, a: seq<Ask<E, C>>, q: Run<S, C>, b: seq<Ask<E, C>>,
                            n: Run<S, C>)
    requires Asked(f, r, a, q) && Asked(f, q, b, n)
    ensures Asked(f, r, a + b, n)
  {
    ReplayAppend(f, r.s, a, b);
    CallsMore(r.calls, a, b);
    forall to ensures ListOf(n.changes, to) == ListOf(r.changes, to) + Announced(f, r.s, a + b, to) {
      AnnouncedAppend(f, r.s, a, b, to);
      Together(ListOf(r.changes, to), Announced(f, r.s, a, to), Announced(f, q.s, b, to));
    }
  }

  // The questions of each transition ------------------------------------------------------------

  function Internals<E, C>(order: seq<nat>, t: real): (asks: seq<Ask<E, C>>)
    ensures |asks| == |order| && forall k :: 0 <= k < |order| ==> asks[k] == AskInternal(order[k], t)
  {
    seq(|order|, k requires 0 <= k < |order| => AskInternal(order[k], t))
  }

  /** Every perturbed component is handed the events that reach it. */
  function Externals<S, E, C>(f: Components<S, E, C>, order: seq<nat>, events: seq<E>, t: real): (asks: seq<Ask<E, C>>)
    ensures |asks| == |order|
    ensures forall k :: 0 <= k < |order| ==> asks[k] == AskExternal(order[k], Received(f, events, order[k]), t)
  {
    seq(|order|, k requires 0 <= k < |order| => AskExternal(order[k], Received(f, events, order[k]), t))
  }

  /** Every imminent component that some event reaches is handed all events. */
  function Confluents<S, E, C>(f: Components<S, E, C>, order: seq<nat>, events: seq<E>, t: real): (asks: seq<Ask<E, C>>)
    ensures |asks| == |order|
    ensures forall k :: 0 <= k < |order| ==>
              asks[k] == if Received(f, events, order[k]) == [] then AskInternal(order[k], t)
                         else AskConfluent(order[k], t, events)
  {
    seq(|order|, k requires 0 <= k < |order| =>
          if Received(f, events, order[k]) == [] then AskInternal(order[k], t) else AskConfluent(order[k], t, events))
  }

  /** Every changed component is handed what was announced to it. */
  function Reactions<S, E, C>(f: Components<S, E, C>, s: S, asks: seq<Ask<E, C>>, reacts: seq<nat>): (r: seq<Ask<E, C>>)
    ensures |r| == |reacts|
    ensures forall k :: 0 <= k < |reacts| ==> r[k] == AskReact(reacts[k], Announced(f, s, asks, reacts[k]))
  {
    seq(|reacts|, k requires 0 <= k < |reacts| => AskReact(reacts[k], Announced(f, s, asks, reacts[k])))
  }

  lemma {:induction false} InternalAsked<S, E, C>(f: Components<S, E, C>, r: Run<S, C>, order: seq<nat>, t: real)
    requires NoEmptyList(r.changes)
    ensures Asked(f, r, Internals(order, t), RunInternal(f, r, order, t))
    decreases |order|
  {
    if order == [] {
      NothingAsked(f, r);
      assert Internals<E, C>(order, t) == [];
    } else {
      var (front, id) := (order[..|order|-1], order[|order|-1]);
      InternalAsked(f, r, front, t);
      AskedMore(f, r, Internals(front, t), RunInternal(f, r, front, t), AskInternal(id, t),
                RunInternal(f, r, order, t));
      assert Internals<E, C>(order, t) == Internals(front, t) + [AskInternal(id, t)];
    }
  }

  /** The bags hold, for the components listed, what they receive. */
  ghost predicate BagsFor<S, E, C>(f: Components<S, E, C>, bags: Bags<E>, events: seq<E>, order: seq<nat>)
  {
    forall id :: id in order ==> BagOf(bags, id) == Received(f, events, id)
  }

  lemma {:induction false} ExternalAsked<S, E, C>(f: Components<S, E, C>, r: Run<S, C>, order: seq<nat>, bags: Bags<E>,
                                                  events: seq<E>, t: real)
    requires NoEmptyList(r.changes) && BagsFor(f, bags, events, order)
    ensures Asked(f, r, Externals(f, order, events, t), RunExternal(f, r, order, bags, t))
    decreases |order|
  {
    if order == [] {
      NothingAsked(f, r);
      assert Externals(f, order, events, t) == [];
    } else {
      var (front, id) := (order[..|order|-1], order[|order|-1]);
      assert id in order && forall x :: x in front ==> x in order;
      ExternalAsked(f, r, front, bags, events, t);
      ExternalsSnoc(f, order, events, t);
      AskedMore(f, r, Externals(f, front, events, t), RunExternal(f, r, front, bags, t),
                AskExternal(id, Received(f, events, id), t), RunExternal(f, r, order, bags, t));
    }
  }

  lemma ExternalsSnoc<S, E, C>(f: Components<S, E, C>, order: seq<nat>, events: seq<E>, t: real)
    requires order != []
    ensures var (front, id) := (order[..|order|-1], order[|order|-1]);
            Externals(f, order, events, t)
              == Externals(f, front, events, t) + [AskExternal(id, Received(f, events, id), t)]
  {
  }

  /** What is left among the perturbed once some imminent components have moved. */
  ghost predicate Erased<E>(bags: Bags<E>, order: seq<nat>, left: Bags<E>)
  {
    && (forall id :: id in left <==> id in bags && id !in order)
    && forall id :: id in left ==> left[id] == bags[id]
  }

  lemma {:induction false} ConfluentAsked<S, E, C>(f: Components<S, E, C>, r: Run<S, C>, order: seq<nat>, bags: Bags<E>,
                                                   events: seq<E>, t: real, due: set<nat>)
    requires NoEmptyList(r.changes) && Enumerates(order, due)
    requires forall id :: id in bags <==> Received(f, events, id) != []
    ensures Asked(f, r, Confluents(f, order, events, t), RunConfluent(f, r, order, bags, events, t).0)
    ensures Erased(bags, order, RunConfluent(f, r, order, bags, events, t).1)
    decreases |order|
  {
    if order == [] {
      NothingAsked(f, r);
      assert Confluents(f, order, events, t) == [];
    } else {
      var (front, id) := (order[..|order|-1], order[|order|-1]);
      EnumeratesFront(order, due);
      ConfluentAsked(f, r, front, bags, events, t, due - {id});
      ConfluentOne(f, r, order, bags, events, t);
    }
  }

  lemma ConfluentOne<S, E, C>(f: Components<S, E, C>, r: Run<S, C>, order: seq<nat>, bags: Bags<E>, events: seq<E>,
                              t: real)
    requires order != [] && order[|order|-1] !in order[..|order|-1]
    requires forall id :: id in bags <==> Received(f, events, id) != []
    requires var front := order[..|order|-1];
             && Asked(f, r, Confluents(f, front, events, t), RunConfluent(f, r, front, bags, events, t).0)
             && Erased(bags, front, RunConfluent(f, r, front, bags, events, t).1)
    ensures Asked(f, r, Confluents(f, order, events, t), RunConfluent(f, r, order, bags, events, t).0)
    ensures Erased(bags, order, RunConfluent(f, r, order, bags, events, t).1)
  {
    var (front, id) := (order[..|order|-1], order[|order|-1]);
    ErasedOne(bags, order, RunConfluent(f, r, front, bags, events, t).1);
    ConfluentsSnoc(f, order, events, t);
    var a := if Received(f, events, id) == [] then AskInternal(id, t) else AskConfluent(id, t, events);
    AskedMore(f, r, Confluents(f, front, events, t), RunConfluent(f, r, front, bags, events, t).0, a,
              RunConfluent(f, r, order, bags, events, t).0);
  }

  lemma ErasedOne<E>(bags: Bags<E>, order: seq<nat>, left: Bags<E>)
    requires order != [] && order[|order|-1] !in order[..|order|-1] && Erased(bags, order[..|order|-1], left)
    ensures order[|order|-1] in left <==> order[|order|-1] in bags
    ensures Erased(bags, order, left - {order[|order|-1]})
  {
    assert forall x :: x in order <==> x in order[..|order|-1] || x == order[|order|-1];
  }

  lemma ConfluentsSnoc<S, E, C>(f: Components<S, E, C>, order: seq<nat>, events: seq<E>, t: real)
    requires order != []
    ensures var (front, id) := (order[..|order|-1], order[|order|-1]);
            Confluents(f, order, events, t) == Confluents(f, front, events, t)
              + [if Received(f, events, id) == [] then AskInternal(id, t) else AskConfluent(id, t, events)]
  {
  }

  lemma {:induction false} ReactAsked<S, E, C>(f: Components<S, E, C>, s: S, calls: seq<Call>, reacts: seq<nat>,
                                               ch: Changes<C>, s0: S, asks: seq<Ask<E, C>>)
    requires forall id :: id in reacts ==> ListOf(ch, id) == Announced(f, s0, asks, id)
    ensures RunReact(f, s, calls, reacts, ch)
         == (Replay(f, s, Reactions(f, s0, asks, reacts)), calls + CallsOf(Reactions(f, s0, asks, reacts)))
    decreases |reacts|
  {
    if reacts == [] {
      assert Reactions(f, s0, asks, reacts) == [];
      assert calls + CallsOf<E, C>([]) == calls;
    } else {
      var (front, id) := (reacts[..|reacts|-1], reacts[|reacts|-1]);
      assert id in reacts && forall x :: x in front ==> x in reacts;
      ReactAsked(f, s, calls, front, ch, s0, asks);
      ReactionsSnoc(f, s0, asks, reacts);
      ReactOne(f, s, calls, Reactions(f, s0, asks, front), AskReact(id, ListOf(ch, id)));
    }
  }

  lemma ReactionsSnoc<S, E, C>(f: Components<S, E, C>, s: S, asks: seq<Ask<E, C>>, reacts: seq<nat>)
    requires reacts != []
    ensures var (front, id) := (reacts[..|reacts|-1], reacts[|reacts|-1]);
            Reactions(f, s, asks, reacts) == Reactions(f, s, asks, front) + [AskReact(id, Announced(f, s, asks, id))]
  {
  }

  lemma ReactOne<S, E, C>(f: Components<S, E, C>, s: S, calls: seq<Call>, asks: seq<Ask<E, C>>, a: Ask<E, C>)
    ensures Replay(f, s, asks + [a]) == Answer(f, Replay(f, s, asks), a).0
    ensures calls + CallsOf(asks + [a]) == (calls + CallsOf(asks)) + [CallOf(a)]
  {
    OneMore(f, s, asks, a, 0);
    CallsMore(calls, asks, [a]);
    assert CallsOf([a]) == [CallOf(a)];
  }

  // Whole steps -----------------------------------------------------------------------------------

  /** A target has an entry exactly when something was announced to it, and the
      entry is all of it, in order. */
  ghost predicate Told<S, E, C>(f: Components<S, E, C>, s: S, asks: seq<Ask<E, C>>, ch: Changes<C>)
  {
    forall to :: (to in ch <==> Announced(f, s, asks, to) != []) && (to in ch ==> ch[to] == Announced(f, s, asks, to))
  }

  lemma AskedTells<S, E, C>(f: Components<S, E, C>, m: Sim<S>, asks: seq<Ask<E, C>>, q: Run<S, C>)
    requires Asked(f, Begin(m), asks, q)
    ensures Told(f, m.comps, asks, q.changes) && q.s == Replay(f, m.comps, asks)
    ensures q.calls == m.calls + CallsOf(asks)
  {
    forall to ensures ListOf(q.changes, to) == Announced(f, m.comps, asks, to) {
      assert ListOf<C>(map[], to) == [];
    }
  }

  /** The transitions of a step, then the reactions, each with its arguments. */
  ghost predicate Plays<S, E, C>(f: Components<S, E, C>, m: Sim<S>, asks: seq<Ask<E, C>>, ch: Changes<C>,
                                 reacts: seq<nat>, r: Sim<S>)
  {
    var all := asks + Reactions(f, m.comps, asks, reacts);
    && Told(f, m.comps, asks, ch)
    && r.comps == Replay(f, m.comps, all) && r.calls == m.calls + CallsOf(all)
  }

  lemma StepPlays<S, E, C>(f: Components<S, E, C>, m: Sim<S>, asks: seq<Ask<E, C>>, m1: Sim<S>, ch: Changes<C>,
                           reacts: seq<nat>)
    requires Told(f, m.comps, asks, ch) && Enumerates(reacts, ch.Keys)
    requires m1.comps == Replay(f, m.comps, asks) && m1.calls == m.calls + CallsOf(asks)
    ensures Plays(f, m, asks, ch, reacts, Process(f, m1, ch, reacts))
  {
    var more := Reactions(f, m.comps, asks, reacts);
    ToldLists(f, m.comps, asks, ch, reacts);
    ReactAsked(f, m1.comps, m1.calls, reacts, ch, m.comps, asks);
    ReplayAppend(f, m.comps, asks, more);
    CallsMore(m.calls, asks, more);
  }

  lemma ToldLists<S, E, C>(f: Components<S, E, C>, s: S, asks: seq<Ask<E, C>>, ch: Changes<C>, reacts: seq<nat>)
    requires Told(f, s, asks, ch) && Enumerates(reacts, ch.Keys)
    ensures forall id :: id in reacts ==> ListOf(ch, id) == Announced(f, s, asks, id)
  {
    forall id | id in reacts ensures ListOf(ch, id) == Announced(f, s, asks, id) {
      assert id in ch.Keys;
    }
  }

  /** An internal step asks each imminent component for its internal transition at
      this date, and each component told of a change to react to what it was
      told. */
  lemma InternalPlays<S, E, C>(f: Components<S, E, C>, m: Sim<S>, t: real, order: seq<nat>, reacts: seq<nat>)
    requires Enumerates(reacts, AfterInternal(f, m, t, order).1.Keys)
    ensures Plays(f, m, Internals(order, t), AfterInternal(f, m, t, order).1, reacts,
                  InternalStep(f, m, t, order, reacts))
  {
    var (m1, ch) := AfterInternal(f, m, t, order);
    InternalAsked(f, Begin(m), order, t);
    AskedTells(f, m, Internals(order, t), RunInternal(f, Begin(m), order, t));
    StepPlays(f, m, Internals(order, t), m1, ch, reacts);
  }

  /** The bags built from the events are what each component receives. */
  lemma BagsReceived<S, E, C>(f: Components<S, E, C>, events: seq<E>)
    ensures var bags := BagsFrom(f, map[], events);
            && (forall id :: id in bags <==> Received(f, events, id) != [])
            && forall id :: BagOf(bags, id) == Received(f, events, id)
  {
    forall id ensures id in BagsFrom(f, map[], events) <==> Received(f, events, id) != []
              ensures BagOf(BagsFrom(f, map[], events), id) == Received(f, events, id)
    {
      BagContents(f, events, id);
    }
  }

  /** An external step hands each perturbed component the events that reach it. */
  lemma ExternalPlays<S, E, C>(f: Components<S, E, C>, m: Sim<S>, events: seq<E>, t: real, order: seq<nat>,
                               reacts: seq<nat>)
    requires Enumerates(reacts, AfterExternal(f, m, events, t, order).1.Keys)
    ensures Plays(f, m, Externals(f, order, events, t), AfterExternal(f, m, events, t, order).1, reacts,
                  ExternalStep(f, m, events, t, order, reacts))
  {
    var (m1, ch) := AfterExternal(f, m, events, t, order);
    var bags := BagsFrom(f, map[], events);
    BagsReceived(f, events);
    ExternalAsked(f, Begin(m), order, bags, events, t);
    AskedTells(f, m, Externals(f, order, events, t), RunExternal(f, Begin(m), order, bags, t));
    StepPlays(f, m, Externals(f, order, events, t), m1, ch, reacts);
  }

  /** A confluent step: imminent components first, those that some event reaches
      with all events; then the other perturbed ones with what reaches them. */
  lemma ConfluentPlays<S, E, C>(f: Components<S, E, C>, m: Sim<S>, events: seq<E>, t: real, order: seq<nat>,
                                others: seq<nat>, reacts: seq<nat>)
    requires Enumerates(order, m.imminent) && Enumerates(others, Left(f, m, events, t, order).Keys)
    requires Enumerates(reacts, AfterConfluent(f, m, events, t, order, others).1.Keys)
    ensures Plays(f, m, Confluents(f, order, events, t) + Externals(f, others, events, t),
                  AfterConfluent(f, m, events, t, order, others).1, reacts,
                  ConfluentStep(f, m, events, t, order, others, reacts))
  {
    var (m1, ch) := AfterConfluent(f, m, events, t, order, others);
    var asks := Confluents(f, order, events, t) + Externals(f, others, events, t);
    ConfluentRun(f, m, events, t, order, others);
    StepPlays(f, m, asks, m1, ch, reacts);
  }

  lemma ConfluentRun<S, E, C>(f: Components<S, E, C>, m: Sim<S>, events: seq<E>, t: real, order: seq<nat>,
                              others: seq<nat>)
    requires Enumerates(order, m.imminent) && Enumerates(others, Left(f, m, events, t, order).Keys)
    ensures var asks := Confluents(f, order, events, t) + Externals(f, others, events, t);
            var (m1, ch) := AfterConfluent(f, m, events, t, order, others);
            && Told(f, m.comps, asks, ch)
            && m1.comps == Replay(f, m.comps, asks) && m1.calls == m.calls + CallsOf(asks)
  {
    var bags := BagsFrom(f, map[], events);
    var (r1, left) := RunConfluent(f, Begin<S, C>(m), order, bags, events, t);
    var r := RunExternal(f, r1, others, left, t);
    BagsReceived(f, events);
    ConfluentAsked(f, Begin(m), order, bags, events, t, m.imminent);
    forall id | id in others ensures BagOf(left, id) == Received(f, events, id) {
      assert id in left.Keys;
    }
    ExternalAsked(f, r1, others, left, events, t);
    AskedTwice(f, Begin(m), Confluents(f, order, events, t), r1, Externals(f, others, events, t), r);
    AskedTells(f, m, Confluents(f, order, events, t) + Externals(f, others, events, t), r);
  }

  // Starting and rescheduling ------------------------------------------------------------------------

  /** The components when the n-th is about to be started. */
  function Started<S, E, C>(f: Components<S, E, C>, s: S, n: nat, time: real): (r: S)
  {
    if n == 0 then s else f.start(Started(f, s, n - 1, time), n - 1, time).0
  }

  function FirstWait<S, E, C>(f: Components<S, E, C>, s: S, i: nat, time: real): (d: Option<real>)
  {
    f.start(Started(f, s, i, time), i, time).1
  }

  /** Starting is refused exactly when a component answers with a negative wait;
      otherwise each is started once, on what the ones before it left, and gets
      one event if its wait is finite, that long after the start. */
  lemma {:induction false} StartExact<S, E, C>(f: Components<S, E, C>, s: S, n: nat, time: real)
    ensures StartAll(f, s, n, time).None? <==>
              exists i :: 0 <= i < n && FirstWait(f, s, i, time).Some? && FirstWait(f, s, i, time).value < 0.0
    ensures StartAll(f, s, n, time).Some? ==>
              var (s1, q) := StartAll(f, s, n, time).value;
              && s1 == Started(f, s, n, time)
              && (forall i: nat :: i in q <==> i < n && FirstWait(f, s, i, time).Some?)
              && forall i: nat :: i in q ==> q[i] == time + FirstWait(f, s, i, time).value
  {
    if n > 0 {
      StartExact(f, s, n - 1, time);
      var before := StartAll(f, s, n - 1, time);
      if before.Some? {
        assert FirstWait(f, s, n - 1, time) == f.start(before.value.0, n - 1, time).1;
      } else {
        var i :| 0 <= i < n - 1 && FirstWait(f, s, i, time).Some? && FirstWait(f, s, i, time).value < 0.0;
      }
    }
  }

  /** After a time advance every component that moved is due, if its wait is
      finite, that long from now, and no other date has changed. */
  lemma AdvanceDates<S, E, C>(f: Components<S, E, C>, m: Sim<S>, order: seq<nat>, r: Sim<S>)
    requires Enumerates(order, m.imminent) && m.imminent !! m.queue.Keys && AdvanceStep(f, m, order) == Some(r)
    ensures forall i :: i in m.imminent ==> (i in r.queue <==> f.advance(m.comps, i).Some?)
    ensures forall i :: i in m.imminent && i in r.queue ==> r.queue[i] == m.current + f.advance(m.comps, i).value
    ensures forall i :: i !in m.imminent ==> (i in r.queue <==> i in m.queue)
    ensures forall i :: i !in m.imminent && i in m.queue ==> r.queue[i] == m.queue[i]
    ensures r.comps == m.comps && r.current == m.current && r.imminent == {}
  {
    AskAllIs(f, m.comps, order, m.current, m.queue, m.calls, m.imminent);
  }
}
