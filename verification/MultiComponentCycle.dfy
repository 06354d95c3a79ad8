/** The cycles a simulator may play on a multi-component model, and what each of
    them does to every component. */
module MultiComponentCycle {
  import opened Common
  import opened MultiComponent

  /** The state of the model between two calls. `calls` records what was asked
      of the components. */
  datatype Sim<S> = Sim(comps: S, queue: Queue, imminent: set<nat>, current: real, calls: seq<Call>)

  /** `output` moves the earliest events to the imminent set. */
  function OutputStep<S>(m: Sim<S>): (r: Sim<S>)
  {
    m.(imminent := Earliest(m.queue), queue := m.queue - Earliest(m.queue))
  }

  /** `process_changes`: every component with pending changes reacts, leaves the
      event list and joins the imminent set. */
  function Process<S, E, C>(f: Components<S, E, C>, m: Sim<S>, ch: Changes<C>, reacts: seq<nat>): (r: Sim<S>)
  {
    var (s, calls) := RunReact(f, m.comps, m.calls, reacts, ch);
    m.(comps := s, queue := m.queue - ch.Keys, imminent := m.imminent + ch.Keys, calls := calls)
  }

  function Begin<S, C>(m: Sim<S>): (r: Run<S, C>)
  {
    Run(m.comps, map[], m.calls)
  }

  function AfterInternal<S, E, C>(f: Components<S, E, C>, m: Sim<S>, t: real, order: seq<nat>)
    : (r: (Sim<S>, Changes<C>))
  {
    var r := RunInternal(f, Begin(m), order, t);
    (m.(comps := r.s, current := t, calls := r.calls), r.changes)
  }

  function InternalStep<S, E, C>(f: Components<S, E, C>, m: Sim<S>, t: real, order: seq<nat>, reacts: seq<nat>)
    : (r: Sim<S>)
  {
    var (m1, ch) := AfterInternal(f, m, t, order);
    Process(f, m1, ch, reacts)
  }

  function AfterExternal<S, E, C>(f: Components<S, E, C>, m: Sim<S>, events: seq<E>, t: real, order: seq<nat>)
    : (r: (Sim<S>, Changes<C>))
  {
    var bags := BagsFrom(f, map[], events);
    var r := RunExternal(f, Begin(m), order, bags, t);
    (m.(comps := r.s, current := t, queue := m.queue - bags.Keys, imminent := bags.Keys, calls := r.calls), r.changes)
  }

  function ExternalStep<S, E, C>(f: Components<S, E, C>, m: Sim<S>, events: seq<E>, t: real, order: seq<nat>,
                                 reacts: seq<nat>)
    : (r: Sim<S>)
  {
    var (m1, ch) := AfterExternal(f, m, events, t, order);
    Process(f, m1, ch, reacts)
  }

  /** The perturbed components left after the imminent ones have moved. */
  function Left<S, E, C>(f: Components<S, E, C>, m: Sim<S>, events: seq<E>, t: real, order: seq<nat>): (left: Bags<E>)
  {
    RunConfluent(f, Begin(m), order, BagsFrom(f, map[], events), events, t).1
  }

  function AfterConfluent<S, E, C>(f: Components<S, E, C>, m: Sim<S>, events: seq<E>, t: real, order: seq<nat>,
                                   others: seq<nat>)
    : (r: (Sim<S>, Changes<C>))
  {
    var bags := BagsFrom(f, map[], events);
    var (r1, left) := RunConfluent(f, Begin(m), order, bags, events, t);
    var r := RunExternal(f, r1, others, left, t);
    (m.(comps := r.s, current := t, queue := m.queue - bags.Keys, imminent := m.imminent + left.Keys,
        calls := r.calls), r.changes)
  }

  function ConfluentStep<S, E, C>(f: Components<S, E, C>, m: Sim<S>, events: seq<E>, t: real, order: seq<nat>,
                                  others: seq<nat>, reacts: seq<nat>): (r: Sim<S>)
  {
    var (m1, ch) := AfterConfluent(f, m, events, t, order, others);
    Process(f, m1, ch, reacts)
  }

  /** `timeAdvance`: None when a component answers with a negative duration. */
  function AdvanceStep<S, E, C>(f: Components<S, E, C>, m: Sim<S>, order: seq<nat>): (r: Option<Sim<S>>)
  {
    match AskAll(f, m.comps, order, m.current, m.queue, m.calls)
    case None => None
    case Some(qc) => Some(m.(queue := qc.0, imminent := {}, calls := qc.1))
  }

  /** The components started one after the other, and the list of their first
      events; None when one answers with a negative duration. */
  function StartAll<S, E, C>(f: Components<S, E, C>, s: S, n: nat, time: real): (r: Option<(S, Queue)>)
    ensures r.Some? ==> forall i :: i in r.value.1 ==> i < n && time <= r.value.1[i]
  {
    if n == 0 then Some((s, map[]))
    else match StartAll(f, s, n - 1, time)
      case None => None
      case Some(sq) =>
        var (s1, tn) := f.start(sq.0, n - 1, time);
        match tn
        case None => Some((s1, sq.1))
        case Some(d) => if d < 0.0 then None else Some((s1, sq.1[n - 1 := time + d]))
  }

  lemma {:induction false} StartStops<S, E, C>(f: Components<S, E, C>, s: S, k: nat, n: nat, time: real)
    requires k <= n && StartAll(f, s, k, time).None?
    ensures StartAll(f, s, n, time).None?
    decreases n
  {
    if k < n {
      StartStops(f, s, k, n - 1, time);
    }
  }

  // The object ---------------------------------------------------------------------------------

  class Model<S(0), E, C> {
    var sim: Sim<S>
    const f: Components<S, E, C>

    constructor (f: Components<S, E, C>, s: S)
      ensures this.f == f && sim == Sim(s, map[], {}, 0.0, [])
    {
      this.f := f;
      sim := Sim(s, map[], {}, 0.0, []);
    }

    /** The earliest time of the event list, None for infinity. */
    method Top() returns (t: Option<real>)
      ensures t.None? <==> sim.queue == map[]
      ensures t.Some? ==> IsTop(sim.queue, t.value)
    {
      t := None;
      var left := sim.queue.Keys;
      while left != {}
        invariant left <= sim.queue.Keys
        invariant t.None? <==> left == sim.queue.Keys
        invariant t.Some? ==> exists i :: i in sim.queue && sim.queue[i] == t.value
        invariant t.Some? ==> forall i :: i in sim.queue && i !in left ==> t.value <= sim.queue[i]
        decreases left
      {
        var i :| i in left;
        if t.None? || sim.queue[i] < t.value {
          t := Some(sim.queue[i]);
        }
        left := left - {i};
      }
    }

    /** Starting n components. Returns the earliest date, not a duration. */
    method Init(n: nat, time: real) returns (ok: bool, first: Option<real>)
      requires sim.queue == map[]
      modifies this`sim
      ensures ok <==> StartAll(f, old(sim.comps), n, time).Some?
      ensures ok ==> var (s, q) := StartAll(f, old(sim.comps), n, time).value;
                     sim == old(sim).(comps := s, queue := q, current := time)
      ensures ok ==> (first.None? <==> sim.queue == map[]) && (first.Some? ==> IsTop(sim.queue, first.value))
      ensures ok && old(sim.imminent) == {} ==> Ready(sim)
      ensures ok && first.Some? ==> (IsTop(sim.queue, sim.current + first.value) <==> time == 0.0)
    {
      sim := sim.(current := time);
      first := None;
      for i := 0 to n
        invariant StartAll(f, old(sim.comps), i, time) == Some((sim.comps, sim.queue))
        invariant sim == old(sim).(comps := sim.comps, queue := sim.queue, current := time)
      {
        var (s, tn) := f.start(sim.comps, i, time);
        if tn.Some? && tn.value < 0.0 {
          StartStops(f, old(sim.comps), i + 1, n, time);
          return false, None;
        }
        sim := sim.(comps := s);
        if tn.Some? {
          sim := sim.(queue := sim.queue[i := time + tn.value]);
        }
      }
      first := Top();
      ok := true;
    }

    method Output()
      modifies this`sim
      ensures sim == OutputStep(old(sim))
    {
      var due := Earliest(sim.queue);
      sim := sim.(imminent := due, queue := sim.queue - due);
    }

    /** One internal transition per imminent component, in whatever order the
        set is walked through. */
    method InternalTransition(t: real) returns (ch: Changes<C>, ghost order: seq<nat>)
      modifies this`sim
      ensures Enumerates(order, old(sim).imminent)
      ensures (sim, ch) == AfterInternal(f, old(sim), t, order)
    {
      sim := sim.(current := t);
      var run: Run<S, C> := Begin(sim);
      order := [];
      var left := sim.imminent;
      while left != {}
        invariant left <= sim.imminent && Enumerates(order, sim.imminent - left)
        invariant sim == old(sim).(current := t) && run == RunInternal(f, Begin(old(sim)), order, t)
        decreases left
      {
        var id :| id in left;
        run := CallInternal(f, run, id, t);
        WalkOn(order, sim.imminent, left, id);
        order := order + [id];
        left := left - {id};
      }
      assert sim.imminent - {} == sim.imminent;
      sim := sim.(comps := run.s, calls := run.calls);
      ch := run.changes;
    }

    /** One external transition per entry of a map of bags. */
    method RunExternals(bags: Bags<E>, t: real, r0: Run<S, C>) returns (run: Run<S, C>, ghost order: seq<nat>)
      ensures Enumerates(order, bags.Keys) && run == RunExternal(f, r0, order, bags, t)
    {
      run, order := r0, [];
      var left := bags.Keys;
      while left != {}
        invariant left <= bags.Keys && Enumerates(order, bags.Keys - left)
        invariant run == RunExternal(f, r0, order, bags, t)
        decreases left
      {
        var id :| id in left;
        run := CallExternal(f, run, id, bags[id], t);
        WalkOn(order, bags.Keys, left, id);
        order := order + [id];
        left := left - {id};
      }
      assert bags.Keys - {} == bags.Keys;
    }

    method ExternalTransition(events: seq<E>, t: real) returns (ch: Changes<C>, ghost order: seq<nat>)
      modifies this`sim
      ensures Enumerates(order, BagsFrom(f, map[], events).Keys)
      ensures (sim, ch) == AfterExternal(f, old(sim), events, t, order)
    {
      var bags := BuildBags(f, events);
      var run;
      run, order := RunExternals(bags, t, Begin(sim));
      sim := sim.(current := t, queue := sim.queue - bags.Keys, imminent := bags.Keys);
      sim := sim.(comps := run.s, calls := run.calls);
      ch := run.changes;
    }

    /** The imminent components first, each one found among the perturbed being
        erased there; then whoever is left among the perturbed. */
    method ConfluentTransitions(events: seq<E>, t: real)
      returns (ch: Changes<C>, ghost order: seq<nat>, ghost others: seq<nat>)
      modifies this`sim
      ensures Enumerates(order, old(sim).imminent)
      ensures Enumerates(others, Left(f, old(sim), events, t, order).Keys)
      ensures (sim, ch) == AfterConfluent(f, old(sim), events, t, order, others)
    {
      var bags := BuildBags(f, events);
      ghost var all := bags;
      sim := sim.(current := t, queue := sim.queue - bags.Keys);
      var run: Run<S, C> := Begin(sim);
      order := [];
      var left := sim.imminent;
      while left != {}
        invariant left <= sim.imminent && Enumerates(order, sim.imminent - left)
        invariant sim == old(sim).(current := t, queue := old(sim).queue - all.Keys)
        invariant (run, bags) == RunConfluent(f, Begin(old(sim)), order, all, events, t)
        decreases left
      {
        var id :| id in left;
        if id in bags {
          run := CallConfluent(f, run, id, events, t);
          bags := bags - {id};
        } else {
          run := CallInternal(f, run, id, t);
        }
        WalkOn(order, sim.imminent, left, id);
        order := order + [id];
        left := left - {id};
      }
      assert sim.imminent - {} == sim.imminent;
      run, others := RunExternals(bags, t, run);
      sim := sim.(imminent := sim.imminent + bags.Keys, comps := run.s, calls := run.calls);
      ch := run.changes;
    }

    method ProcessChanges(ch: Changes<C>) returns (ghost reacts: seq<nat>)
      modifies this`sim
      ensures Enumerates(reacts, ch.Keys) && sim == Process(f, old(sim), ch, reacts)
    {
      var comps, calls, queue, imminent;
      comps, calls, queue, imminent, reacts := ReactAll(f, sim.comps, sim.calls, sim.queue, sim.imminent, ch);
      sim := sim.(comps := comps, calls := calls, queue := queue, imminent := imminent);
    }

    /** Asks every component that moved; the wait announced leads to the earliest
        event, and is not negative when no event lies in the past. */
    method TimeAdvance() returns (ok: bool, wait: Option<real>, ghost order: seq<nat>)
      modifies this`sim
      ensures ok ==> Enumerates(order, old(sim).imminent) && AdvanceStep(f, old(sim), order) == Some(sim)
      ensures !ok ==> !NoneNegative(f, old(sim).comps, old(sim).imminent)
      ensures ok ==> (wait.None? <==> sim.queue == map[])
      ensures ok && wait.Some? ==> IsTop(sim.queue, sim.current + wait.value)
      ensures ok && wait.Some? && Ready(sim) ==> wait.value >= 0.0
    {
      wait := None;
      var queue, calls;
      ok, queue, calls, order := AskEach(f, sim.comps, sim.calls, sim.queue, sim.imminent, sim.current);
      if !ok {
        return;
      }
      sim := sim.(queue := queue, imminent := {}, calls := calls);
      var top := Top();
      if top.Some? {
        wait := Some(top.value - sim.current);
      }
    }
  }

  /** The loop of process_changes. */
  method ReactAll<S, E, C>(f: Components<S, E, C>, s: S, log: seq<Call>, q: Queue, due: set<nat>, ch: Changes<C>)
    returns (comps: S, calls: seq<Call>, queue: Queue, imminent: set<nat>, ghost reacts: seq<nat>)
    ensures Enumerates(reacts, ch.Keys) && (comps, calls) == RunReact(f, s, log, reacts, ch)
    ensures queue == q - ch.Keys && imminent == due + ch.Keys
  {
    reacts := [];
    var left := ch.Keys;
    comps, calls, queue, imminent := s, log, q, due;
    while left != {}
      invariant left <= ch.Keys && Enumerates(reacts, ch.Keys - left)
      invariant (comps, calls) == RunReact(f, s, log, reacts, ch)
      invariant queue == q - (ch.Keys - left) && imminent == due + (ch.Keys - left)
      decreases left
    {
      var id :| id in left;
      comps, calls := f.react(comps, id, ch[id]), calls + [CReact(id)];
      LeaveList(q, due, ch.Keys, left, id);
      queue, imminent := queue - {id}, imminent + {id};
      WalkOn(reacts, ch.Keys, left, id);
      reacts := reacts + [id];
      left := left - {id};
    }
    assert ch.Keys - {} == ch.Keys;
  }

  lemma LeaveList(q: Queue, due: set<nat>, all: set<nat>, left: set<nat>, id: nat)
    requires left <= all && id in left
    ensures q - (all - left) - {id} == q - (all - (left - {id}))
    ensures due + (all - left) + {id} == due + (all - (left - {id}))
  {
  }

  /** The loop of timeAdvance. */
  method AskEach<S, E, C>(f: Components<S, E, C>, s: S, log: seq<Call>, q: Queue, moved: set<nat>, t: real)
    returns (ok: bool, queue: Queue, calls: seq<Call>, ghost order: seq<nat>)
    ensures ok ==> Enumerates(order, moved) && AskAll(f, s, order, t, q, log) == Some((queue, calls))
    ensures !ok ==> !NoneNegative(f, s, moved)
  {
    order, queue, calls, ok := [], q, log, true;
    var left := moved;
    while left != {}
      invariant ok && left <= moved && Enumerates(order, moved - left)
      invariant AskAll(f, s, order, t, q, log) == Some((queue, calls))
      decreases left
    {
      var id :| id in left;
      var tn := f.advance(s, id);
      if tn.Some? && tn.value < 0.0 {
        ok := false;
        return;
      }
      if tn.Some? {
        queue := queue[id := t + tn.value];
      }
      calls := calls + [CAdvance(id)];
      WalkOn(order, moved, left, id);
      order := order + [id];
      left := left - {id};
    }
    assert moved - {} == moved;
  }

  // Between cycles --------------------------------------------------------------------------------

  /** What holds whenever the simulator may start a cycle: nothing is imminent
      (so `output` never finds leftovers), and no event lies in the past. */
  ghost predicate Ready<S>(m: Sim<S>)
  {
    m.imminent == {} && forall i :: i in m.queue ==> m.current <= m.queue[i]
  }

  /** A component makes one transition: which kind, by membership. */
  ghost predicate OneTransitionEach(calls: seq<Call>, due: set<nat>, hit: set<nat>)
  {
    && (forall i, j :: 0 <= i < j < |calls| ==> calls[i].id != calls[j].id)
    && (forall i :: 0 <= i < |calls| ==>
          && calls[i].id in due + hit
          && calls[i] == ByMembership(calls[i].id, due, hit))
    && (forall id :: id in due + hit ==> exists i :: 0 <= i < |calls| && calls[i].id == id)
  }

  /** What the calls of a run look like: one per component of the order. */
  ghost predicate LogsOrder(before: seq<Call>, after: seq<Call>, order: seq<nat>)
  {
    |after| == |before| + |order| && before <= after
    && forall i :: 0 <= i < |order| ==> after[|before| + i].id == order[i]
  }

  lemma {:induction false} InternalLog<S, E, C>(f: Components<S, E, C>, r: Run<S, C>, order: seq<nat>, t: real)
    ensures var calls := RunInternal(f, r, order, t).calls;
            && LogsOrder(r.calls, calls, order)
            && forall i :: 0 <= i < |order| ==> calls[|r.calls| + i] == CInternal(order[i])
    decreases |order|
  {
    if order != [] {
      InternalLog(f, r, order[..|order|-1], t);
    }
  }

  lemma {:induction false} ExternalLog<S, E, C>(f: Components<S, E, C>, r: Run<S, C>, order: seq<nat>, bags: Bags<E>,
                                                t: real)
    ensures var calls := RunExternal(f, r, order, bags, t).calls;
            && LogsOrder(r.calls, calls, order)
            && forall i :: 0 <= i < |order| ==> calls[|r.calls| + i] == CExternal(order[i])
    decreases |order|
  {
    if order != [] {
      ExternalLog(f, r, order[..|order|-1], bags, t);
    }
  }

  /** Erasing: who has moved is no longer among the perturbed. */
  lemma {:induction false} ConfluentLeft<S, E, C>(f: Components<S, E, C>, r: Run<S, C>, order: seq<nat>, bags: Bags<E>,
                                                  events: seq<E>, t: real, due: set<nat>)
    requires Enumerates(order, due)
    ensures RunConfluent(f, r, order, bags, events, t).1 == bags - due
    decreases |order|
  {
    if order == [] {
      assert due == {};
      assert bags - due == bags;
    } else {
      var last := order[|order|-1];
      EnumeratesFront(order, due);
      assert last in order;
      ConfluentLeft(f, r, order[..|order|-1], bags, events, t, due - {last});
      EraseOne(bags, due, last);
    }
  }

  lemma EraseOne<E>(bags: Bags<E>, due: set<nat>, last: nat)
    requires last in due
    ensures if last in bags then last in bags - (due - {last}) && bags - (due - {last}) - {last} == bags - due
            else last !in bags - (due - {last}) && bags - (due - {last}) == bags - due
  {
  }

  /** The imminent components of a confluent step: who was perturbed at the start
      has moved by a confluent transition, the others by an internal one. */
  lemma {:induction false} ConfluentLog<S, E, C>(f: Components<S, E, C>, r: Run<S, C>, order: seq<nat>, bags: Bags<E>,
                                                 events: seq<E>, t: real, due: set<nat>)
    requires Enumerates(order, due)
    ensures var calls := RunConfluent(f, r, order, bags, events, t).0.calls;
            && LogsOrder(r.calls, calls, order)
            && forall i :: 0 <= i < |order| ==> calls[|r.calls| + i] == Kind(order[i], bags.Keys)
    decreases |order|
  {
    if order != [] {
      var (front, last) := (order[..|order|-1], order[|order|-1]);
      EnumeratesFront(order, due);
      assert last in order;
      ConfluentLog(f, r, front, bags, events, t, due - {last});
      ConfluentLeft(f, r, front, bags, events, t, due - {last});
      EraseOne(bags, due, last);
      var before := RunConfluent(f, r, front, bags, events, t).0.calls;
      assert RunConfluent(f, r, order, bags, events, t).0.calls == before + [Kind(last, bags.Keys)];
    }
  }

  function Kind(id: nat, hit: set<nat>): (c: Call)
  {
    if id in hit then CConfluent(id) else CInternal(id)
  }

  /** The transitions logged since the given point. */
  function Since(before: seq<Call>, after: seq<Call>): (r: seq<Call>)
    requires |before| <= |after|
  {
    after[|before|..]
  }

  lemma OrderOnce(calls: seq<Call>, order: seq<nat>, s: set<nat>)
    requires Enumerates(order, s) && |calls| == |order| && forall i :: 0 <= i < |order| ==> calls[i].id == order[i]
    ensures forall i, j :: 0 <= i < j < |calls| ==> calls[i].id != calls[j].id
    ensures forall i :: 0 <= i < |calls| ==> calls[i].id in s
    ensures forall id :: id in s ==> exists i :: 0 <= i < |calls| && calls[i].id == id
  {
    forall i | 0 <= i < |calls| ensures calls[i].id in s {
      assert order[i] in order;
    }
    forall id | id in s ensures exists i :: 0 <= i < |calls| && calls[i].id == id {
      assert id in order;
      var i :| 0 <= i < |order| && order[i] == id;
      assert calls[i].id == id;
    }
  }

  /** A log in the order of a walk, each call by membership. */
  lemma OnceByMembership(calls: seq<Call>, order: seq<nat>, due: set<nat>, hit: set<nat>)
    requires Enumerates(order, due + hit) && |calls| == |order|
    requires forall i :: 0 <= i < |order| ==> calls[i] == ByMembership(order[i], due, hit)
    ensures OneTransitionEach(calls, due, hit)
  {
    OrderOnce(calls, order, due + hit);
  }

  lemma InternalsOnce<S, E, C>(f: Components<S, E, C>, r: Run<S, C>, order: seq<nat>, t: real, due: set<nat>)
    requires Enumerates(order, due)
    ensures var calls := RunInternal(f, r, order, t).calls;
            r.calls <= calls && OneTransitionEach(Since(r.calls, calls), due, {})
  {
    InternalLog(f, r, order, t);
    assert due + {} == due;
    OnceByMembership(Since(r.calls, RunInternal(f, r, order, t).calls), order, due, {});
  }

  lemma ExternalsOnce<S, E, C>(f: Components<S, E, C>, r: Run<S, C>, order: seq<nat>, bags: Bags<E>, t: real)
    requires Enumerates(order, bags.Keys)
    ensures var calls := RunExternal(f, r, order, bags, t).calls;
            r.calls <= calls && OneTransitionEach(Since(r.calls, calls), {}, bags.Keys)
  {
    ExternalLog(f, r, order, bags, t);
    ExternalsLogged(Since(r.calls, RunExternal(f, r, order, bags, t).calls), order, bags.Keys);
  }

  lemma ExternalsLogged(calls: seq<Call>, order: seq<nat>, hit: set<nat>)
    requires Enumerates(order, hit) && |calls| == |order|
    requires forall i :: 0 <= i < |order| ==> calls[i] == CExternal(order[i])
    ensures OneTransitionEach(calls, {}, hit)
  {
    assert {} + hit == hit;
    forall i | 0 <= i < |order| ensures calls[i] == ByMembership(order[i], {}, hit) {
      assert order[i] in order;
    }
    OnceByMembership(calls, order, {}, hit);
  }

  /** Imminent components and those left over: every one of them once. */
  lemma ConfluentsOnce<S, E, C>(f: Components<S, E, C>, r: Run<S, C>, order: seq<nat>, others: seq<nat>, bags: Bags<E>,
                                events: seq<E>, t: real, due: set<nat>, q: Run<S, C>, left: Bags<E>)
    requires Enumerates(order, due) && (q, left) == RunConfluent(f, r, order, bags, events, t)
    requires Enumerates(others, left.Keys)
    ensures var calls := RunExternal(f, q, others, left, t).calls;
            r.calls <= calls && OneTransitionEach(Since(r.calls, calls), due, bags.Keys)
  {
    ConfluentLog(f, r, order, bags, events, t, due);
    ConfluentLeft(f, r, order, bags, events, t, due);
    LeftOnce(f, q, others, left, t, r.calls, order, due, bags.Keys);
  }

  lemma LeftOnce<S, E, C>(f: Components<S, E, C>, q: Run<S, C>, others: seq<nat>, left: Bags<E>, t: real,
                          before: seq<Call>, order: seq<nat>, due: set<nat>, hit: set<nat>)
    requires Enumerates(order, due) && Enumerates(others, left.Keys) && left.Keys == hit - due
    requires LogsOrder(before, q.calls, order)
    requires forall i :: 0 <= i < |order| ==> q.calls[|before| + i] == Kind(order[i], hit)
    ensures var calls := RunExternal(f, q, others, left, t).calls;
            before <= calls && OneTransitionEach(Since(before, calls), due, hit)
  {
    ExternalLog(f, q, others, left, t);
    TwoPhases(before, q.calls, RunExternal(f, q, others, left, t).calls, order, others, due, hit);
  }

  lemma TwoPhases(before: seq<Call>, mid: seq<Call>, after: seq<Call>, order: seq<nat>, others: seq<nat>,
                  due: set<nat>, hit: set<nat>)
    requires Enumerates(order, due) && Enumerates(others, hit - due)
    requires LogsOrder(before, mid, order) && LogsOrder(mid, after, others)
    requires forall i :: 0 <= i < |order| ==> mid[|before| + i] == Kind(order[i], hit)
    requires forall i :: 0 <= i < |others| ==> after[|mid| + i] == CExternal(others[i])
    ensures before <= after && OneTransitionEach(Since(before, after), due, hit)
  {
    var (calls, all) := (Since(before, after), order + others);
    forall i | 0 <= i < |all| ensures calls[i] == ByMembership(all[i], due, hit) {
      if i < |order| {
        assert calls[i] == after[|before| + i] == mid[|before| + i];
        assert order[i] in order;
      } else {
        assert calls[i] == after[|mid| + (i - |order|)];
        assert others[i - |order|] in others;
      }
    }
    EnumeratesBoth(order, others, due, hit - due);
    assert due + (hit - due) == due + hit;
    OnceByMembership(calls, all, due, hit);
  }

  function ByMembership(id: nat, due: set<nat>, hit: set<nat>): (c: Call)
  {
    if id !in hit then CInternal(id) else if id in due then CConfluent(id) else CExternal(id)
  }

  lemma EnumeratesBoth(a: seq<nat>, b: seq<nat>, s: set<nat>, t: set<nat>)
    requires Enumerates(a, s) && Enumerates(b, t) && s !! t
    ensures Enumerates(a + b, s + t)
  {
    var all := a + b;
    forall i, j | 0 <= i < j < |all| ensures all[i] != all[j] {
      if i < |a| && j >= |a| {
        assert a[i] in a && b[j - |a|] in b;
      }
    }
  }

  /** The end of every cycle: the moved components are asked, each once, and the
      model is ready again with the event list of a flat coordinator. */
  lemma AdvanceCloses<S, E, C>(f: Components<S, E, C>, m: Sim<S>, order: seq<nat>)
    requires Enumerates(order, m.imminent) && m.imminent !! m.queue.Keys
    requires forall i :: i in m.queue ==> m.current <= m.queue[i]
    ensures AdvanceStep(f, m, order).Some? <==> NoneNegative(f, m.comps, m.imminent)
    ensures AdvanceStep(f, m, order).Some? ==>
              var r := AdvanceStep(f, m, order).value;
              && Ready(r) && r.comps == m.comps && r.current == m.current
              && r.queue == Rescheduled(f, m.comps, m.queue, m.imminent, m.current)
              && AskedOnce(m.calls, r.calls, m.imminent)
  {
    AskAllIs(f, m.comps, order, m.current, m.queue, m.calls, m.imminent);
    if AdvanceStep(f, m, order).Some? {
      AdvanceLog(f, m.comps, order, m.current, m.queue, m.calls);
      OrderOnce(Since(m.calls, AdvanceStep(f, m, order).value.calls), order, m.imminent);
    }
  }

  /** Each component of the set is asked for its time advance once, and nothing
      else is called. */
  ghost predicate AskedOnce(before: seq<Call>, after: seq<Call>, moved: set<nat>)
  {
    && before <= after
    && var calls := Since(before, after);
       && (forall i :: 0 <= i < |calls| ==> calls[i].CAdvance? && calls[i].id in moved)
       && (forall i, j :: 0 <= i < j < |calls| ==> calls[i].id != calls[j].id)
       && (forall id :: id in moved ==> exists i :: 0 <= i < |calls| && calls[i].id == id)
  }

  lemma {:induction false} AdvanceLog<S, E, C>(f: Components<S, E, C>, s: S, order: seq<nat>, t: real, q: Queue,
                                               calls: seq<Call>)
    requires AskAll(f, s, order, t, q, calls).Some?
    ensures var after := AskAll(f, s, order, t, q, calls).value.1;
            LogsOrder(calls, after, order) && forall i :: 0 <= i < |order| ==> after[|calls| + i] == CAdvance(order[i])
    decreases |order|
  {
    if order != [] {
      AdvanceLog(f, s, order[..|order|-1], t, q, calls);
    }
  }

  lemma {:induction false} ReactLog<S, E, C>(f: Components<S, E, C>, s: S, calls: seq<Call>, order: seq<nat>,
                                             m: Changes<C>)
    ensures var after := RunReact(f, s, calls, order, m).1;
            LogsOrder(calls, after, order) && forall i :: 0 <= i < |order| ==> after[|calls| + i] == CReact(order[i])
    decreases |order|
  {
    if order != [] {
      ReactLog(f, s, calls, order[..|order|-1], m);
    }
  }

  /** The calls of a step: one transition for each component concerned, then one
      reaction for each component with changes. */
  ghost predicate StepCalls(before: seq<Call>, after: seq<Call>, due: set<nat>, hit: set<nat>, changed: set<nat>)
  {
    exists mid :: TransitionsThenReactions(before, mid, after, due, hit, changed)
  }

  ghost predicate TransitionsThenReactions(before: seq<Call>, mid: seq<Call>, after: seq<Call>,
                                           due: set<nat>, hit: set<nat>, changed: set<nat>)
  {
    && before <= mid && mid <= after && OneTransitionEach(Since(before, mid), due, hit)
    && var calls := Since(mid, after);
       && (forall i :: 0 <= i < |calls| ==> calls[i].CReact? && calls[i].id in changed)
       && (forall i, j :: 0 <= i < j < |calls| ==> calls[i].id != calls[j].id)
       && (forall id :: id in changed ==> exists i :: 0 <= i < |calls| && calls[i].id == id)
  }

  lemma ProcessCalls<S, E, C>(f: Components<S, E, C>, m: Sim<S>, ch: Changes<C>, reacts: seq<nat>,
                              before: seq<Call>, due: set<nat>, hit: set<nat>)
    requires Enumerates(reacts, ch.Keys) && before <= m.calls && OneTransitionEach(Since(before, m.calls), due, hit)
    ensures StepCalls(before, Process(f, m, ch, reacts).calls, due, hit, ch.Keys)
  {
    ReactLog(f, m.comps, m.calls, reacts, ch);
    var after := Process(f, m, ch, reacts).calls;
    OrderOnce(Since(m.calls, after), reacts, ch.Keys);
    assert TransitionsThenReactions(before, m.calls, after, due, hit, ch.Keys);
  }

  /** An internal step at the date of the earliest events: exactly the due
      components make an internal transition, they and the ones reacting have
      left the event list, so none is both imminent and scheduled. */
  lemma InternalCycle<S, E, C>(f: Components<S, E, C>, m: Sim<S>, t: real, order: seq<nat>, reacts: seq<nat>)
    requires Ready(m) && IsTop(m.queue, t) && Enumerates(order, OutputStep(m).imminent)
    requires Enumerates(reacts, AfterInternal(f, OutputStep(m), t, order).1.Keys)
    ensures var due := set i | i in m.queue && m.queue[i] == t;
            var ch := AfterInternal(f, OutputStep(m), t, order).1;
            var r := InternalStep(f, OutputStep(m), t, order, reacts);
            && t >= m.current && r.current == t
            && r.imminent == due + ch.Keys && r.queue == m.queue - r.imminent
            && (forall i :: i in r.queue ==> t <= r.queue[i])
            && StepCalls(m.calls, r.calls, due, {}, ch.Keys)
  {
    EarliestAtTop(m.queue, t);
    InternalCalls(f, OutputStep(m), t, order, reacts);
    var due := set i | i in m.queue && m.queue[i] == t;
    assert OutputStep(m).imminent == due;
    Minus(m.queue, due, AfterInternal(f, OutputStep(m), t, order).1.Keys);
  }

  lemma InternalCalls<S, E, C>(f: Components<S, E, C>, m: Sim<S>, t: real, order: seq<nat>, reacts: seq<nat>)
    requires Enumerates(order, m.imminent) && Enumerates(reacts, AfterInternal(f, m, t, order).1.Keys)
    ensures StepCalls(m.calls, InternalStep(f, m, t, order, reacts).calls, m.imminent, {},
                      AfterInternal(f, m, t, order).1.Keys)
  {
    var (m1, ch) := AfterInternal(f, m, t, order);
    InternalsOnce(f, Begin(m), order, t, m.imminent);
    ProcessCalls(f, m1, ch, reacts, m.calls, m.imminent, {});
  }

  /** An external step no later than the earliest event. */
  lemma ExternalCycle<S, E, C>(f: Components<S, E, C>, m: Sim<S>, events: seq<E>, t: real, order: seq<nat>,
                               reacts: seq<nat>)
    requires Ready(m) && m.current <= t && (forall i :: i in m.queue ==> t <= m.queue[i])
    requires Enumerates(order, BagsFrom(f, map[], events).Keys)
    requires Enumerates(reacts, AfterExternal(f, m, events, t, order).1.Keys)
    ensures var hit := BagsFrom(f, map[], events).Keys;
            var ch := AfterExternal(f, m, events, t, order).1;
            var r := ExternalStep(f, m, events, t, order, reacts);
            && r.current == t && r.imminent == hit + ch.Keys && r.queue == m.queue - r.imminent
            && (forall i :: i in r.queue ==> t <= r.queue[i])
            && StepCalls(m.calls, r.calls, {}, hit, ch.Keys)
  {
    var bags := BagsFrom(f, map[], events);
    var (m1, ch) := AfterExternal(f, m, events, t, order);
    ExternalsOnce(f, Begin(m), order, bags, t);
    ProcessCalls(f, m1, ch, reacts, m.calls, {}, bags.Keys);
    assert m.queue - bags.Keys - ch.Keys == m.queue - (bags.Keys + ch.Keys);
  }

  /** A confluent step: due and perturbed components move once each, by the kind
      their membership in the two sets calls for. */
  lemma ConfluentCycle<S, E, C>(f: Components<S, E, C>, m: Sim<S>, events: seq<E>, t: real, order: seq<nat>,
                                others: seq<nat>, reacts: seq<nat>)
    requires Ready(m) && IsTop(m.queue, t) && Enumerates(order, OutputStep(m).imminent)
    requires Enumerates(others, Left(f, OutputStep(m), events, t, order).Keys)
    requires Enumerates(reacts, AfterConfluent(f, OutputStep(m), events, t, order, others).1.Keys)
    ensures var due := set i | i in m.queue && m.queue[i] == t;
            var hit := BagsFrom(f, map[], events).Keys;
            var ch := AfterConfluent(f, OutputStep(m), events, t, order, others).1;
            var r := ConfluentStep(f, OutputStep(m), events, t, order, others, reacts);
            && t >= m.current && r.current == t
            && r.imminent == due + hit + ch.Keys && r.queue == m.queue - r.imminent
            && (forall i :: i in r.queue ==> t <= r.queue[i])
            && StepCalls(m.calls, r.calls, due, hit, ch.Keys)
  {
    EarliestAtTop(m.queue, t);
    var due := set i | i in m.queue && m.queue[i] == t;
    var hit := BagsFrom(f, map[], events).Keys;
    var ch := AfterConfluent(f, OutputStep(m), events, t, order, others).1;
    ConfluentCalls(f, OutputStep(m), events, t, order, others, reacts, due);
    ConfluentState(f, OutputStep(m), events, t, order, others, reacts, due);
    Minus(m.queue, due, hit + ch.Keys);
    assert due + hit + ch.Keys == due + (hit + ch.Keys);
  }

  lemma Minus(q: Queue, a: set<nat>, b: set<nat>)
    ensures q - a - b == q - (a + b)
  {
  }

  lemma ConfluentCalls<S, E, C>(f: Components<S, E, C>, m: Sim<S>, events: seq<E>, t: real, order: seq<nat>,
                                others: seq<nat>, reacts: seq<nat>, due: set<nat>)
    requires Enumerates(order, due) && Enumerates(others, Left(f, m, events, t, order).Keys)
    requires Enumerates(reacts, AfterConfluent(f, m, events, t, order, others).1.Keys)
    ensures StepCalls(m.calls, ConfluentStep(f, m, events, t, order, others, reacts).calls, due,
                      BagsFrom(f, map[], events).Keys, AfterConfluent(f, m, events, t, order, others).1.Keys)
  {
    var bags := BagsFrom(f, map[], events);
    var (q, left) := RunConfluent(f, Begin(m), order, bags, events, t);
    var (m1, ch) := AfterConfluent(f, m, events, t, order, others);
    ConfluentsOnce(f, Begin(m), order, others, bags, events, t, due, q, left);
    ProcessCalls(f, m1, ch, reacts, m.calls, due, bags.Keys);
  }

  lemma ConfluentState<S, E, C>(f: Components<S, E, C>, m: Sim<S>, events: seq<E>, t: real, order: seq<nat>,
                                others: seq<nat>, reacts: seq<nat>, due: set<nat>)
    requires due == m.imminent && Enumerates(order, due)
    ensures var (hit, ch) := (BagsFrom(f, map[], events).Keys, AfterConfluent(f, m, events, t, order, others).1.Keys);
            var r := ConfluentStep(f, m, events, t, order, others, reacts);
            r.current == t && r.imminent == due + hit + ch && r.queue == m.queue - (hit + ch)
  {
    var bags := BagsFrom(f, map[], events);
    ConfluentLeft(f, Begin<S, C>(m), order, bags, events, t, due);
    Minus(m.queue, bags.Keys, AfterConfluent(f, m, events, t, order, others).1.Keys);
    assert (bags - due).Keys == bags.Keys - due;
    assert due + (bags.Keys - due) == due + bags.Keys;
  }

  // Whole simulations -------------------------------------------------------------------------------

  /** One legal cycle: which calls, at which date, in which orders. */
  datatype Cycle<E> =
    | Internally(t: real, order: seq<nat>, reacts: seq<nat>, asks: seq<nat>)
    | Externally(t: real, events: seq<E>, order: seq<nat>, reacts: seq<nat>, asks: seq<nat>)
    | Confluently(t: real, events: seq<E>, order: seq<nat>, others: seq<nat>, reacts: seq<nat>, asks: seq<nat>)

  /** The state when `timeAdvance` is about to be called. */
  function BeforeAdvance<S, E, C>(f: Components<S, E, C>, m: Sim<S>, c: Cycle<E>): (r: Sim<S>)
  {
    match c
    case Internally(t, order, reacts, _) => InternalStep(f, OutputStep(m), t, order, reacts)
    case Externally(t, events, order, reacts, _) => ExternalStep(f, m, events, t, order, reacts)
    case Confluently(t, events, order, others, reacts, _) =>
      ConfluentStep(f, OutputStep(m), events, t, order, others, reacts)
  }

  /** The protocol of a DEVS simulator: internal and confluent steps happen at
      the announced date, external ones not after it, and every set is walked
      through completely, in some order. */
  ghost predicate Legal<S, E, C>(f: Components<S, E, C>, m: Sim<S>, c: Cycle<E>)
  {
    && match c {
         case Internally(t, order, reacts, _) =>
           && IsTop(m.queue, t) && Enumerates(order, OutputStep(m).imminent)
           && Enumerates(reacts, AfterInternal(f, OutputStep(m), t, order).1.Keys)
         case Externally(t, events, order, reacts, _) =>
           && m.current <= t && (forall i :: i in m.queue ==> t <= m.queue[i])
           && Enumerates(order, BagsFrom(f, map[], events).Keys)
           && Enumerates(reacts, AfterExternal(f, m, events, t, order).1.Keys)
         case Confluently(t, events, order, others, reacts, _) =>
           && IsTop(m.queue, t) && Enumerates(order, OutputStep(m).imminent)
           && Enumerates(others, Left(f, OutputStep(m), events, t, order).Keys)
           && Enumerates(reacts, AfterConfluent(f, OutputStep(m), events, t, order, others).1.Keys)
       }
    && Enumerates(c.asks, BeforeAdvance(f, m, c).imminent)
  }

  function CycleStep<S, E, C>(f: Components<S, E, C>, m: Sim<S>, c: Cycle<E>): (r: Option<Sim<S>>)
  {
    AdvanceStep(f, BeforeAdvance(f, m, c), c.asks)
  }

  /** Everything about one cycle: the components that moved are rescheduled from
      their time advance, nobody else is touched, time does not go back, and
      the model is ready for the next cycle. */
  lemma CycleRefinesFlat<S, E, C>(f: Components<S, E, C>, m: Sim<S>, c: Cycle<E>)
    requires Ready(m) && Legal(f, m, c)
    ensures var b := BeforeAdvance(f, m, c);
            && b.imminent !! b.queue.Keys
            && (CycleStep(f, m, c).Some? <==> NoneNegative(f, b.comps, b.imminent))
            && (CycleStep(f, m, c).Some? ==>
                  var r := CycleStep(f, m, c).value;
                  && Ready(r) && m.current <= r.current == c.t && r.comps == b.comps
                  && r.queue == Rescheduled(f, b.comps, m.queue - b.imminent, b.imminent, c.t)
                  && AskedOnce(b.calls, r.calls, b.imminent))
  {
    match c {
      case Internally(t, order, reacts, _) => InternalCycle(f, m, t, order, reacts);
      case Externally(t, events, order, reacts, _) => ExternalCycle(f, m, events, t, order, reacts);
      case Confluently(t, events, order, others, reacts, _) => ConfluentCycle(f, m, events, t, order, others, reacts);
    }
    AdvanceCloses(f, BeforeAdvance(f, m, c), c.asks);
  }

  ghost predicate Simulation<S, E, C>(f: Components<S, E, C>, ms: seq<Sim<S>>, cs: seq<Cycle<E>>)
  {
    && |ms| == |cs| + 1
    && Ready(ms[0])
    && forall i :: 0 <= i < |cs| ==> Legal(f, ms[i], cs[i]) && CycleStep(f, ms[i], cs[i]) == Some(ms[i+1])
  }

  lemma CycleKeepsReady<S, E, C>(f: Components<S, E, C>, m: Sim<S>, c: Cycle<E>, r: Sim<S>)
    requires Ready(m) && Legal(f, m, c) && CycleStep(f, m, c) == Some(r)
    ensures Ready(r) && m.current <= r.current
  {
    CycleRefinesFlat(f, m, c);
  }

  /** Over every legal simulation, `output` is entered with nothing imminent and
      no event lies in the past. */
  lemma {:induction false} SimulationReady<S, E, C>(f: Components<S, E, C>, ms: seq<Sim<S>>, cs: seq<Cycle<E>>, j: nat)
    requires Simulation(f, ms, cs) && j < |ms|
    ensures Ready(ms[j])
    decreases j
  {
    if j > 0 {
      SimulationReady(f, ms, cs, j - 1);
      CycleKeepsReady(f, ms[j-1], cs[j-1], ms[j]);
    }
  }

  ghost predicate NeverBack<S>(ms: seq<Sim<S>>, k: nat)
    requires k + 1 < |ms|
  {
    ms[k].current <= ms[k+1].current
  }

  lemma {:induction false} NeverBackFar<S>(ms: seq<Sim<S>>, i: nat, j: nat)
    requires i <= j < |ms| && forall k :: 0 <= k < |ms| - 1 ==> NeverBack(ms, k)
    ensures ms[i].current <= ms[j].current
  {
    if i < j {
      NeverBackFar(ms, i, j - 1);
      assert NeverBack(ms, j - 1);
    }
  }

  lemma StepNeverBack<S, E, C>(f: Components<S, E, C>, ms: seq<Sim<S>>, cs: seq<Cycle<E>>, k: nat)
    requires Simulation(f, ms, cs) && k < |cs|
    ensures NeverBack(ms, k)
  {
    SimulationReady(f, ms, cs, k);
    CycleKeepsReady(f, ms[k], cs[k], ms[k+1]);
  }

  /** Dates never go back. */
  lemma SimulationMonotone<S, E, C>(f: Components<S, E, C>, ms: seq<Sim<S>>, cs: seq<Cycle<E>>, i: nat, j: nat)
    requires Simulation(f, ms, cs) && i <= j < |ms|
    ensures ms[i].current <= ms[j].current
  {
    forall k | 0 <= k < |ms| - 1 ensures NeverBack(ms, k) {
      StepNeverBack(f, ms, cs, k);
    }
    NeverBackFar(ms, i, j);
  }

  /** And when `timeAdvance` is called, no component is at once imminent and
      scheduled, so its internal check never fires. */
  lemma SimulationDisjoint<S, E, C>(f: Components<S, E, C>, ms: seq<Sim<S>>, cs: seq<Cycle<E>>, j: nat)
    requires Simulation(f, ms, cs) && j < |cs|
    ensures var b := BeforeAdvance(f, ms[j], cs[j]); b.imminent !! b.queue.Keys
  {
    SimulationReady(f, ms, cs, j);
    CycleRefinesFlat(f, ms[j], cs[j]);
  }
}
