/** What every complete run of the protocol amounts to: all runs are finite, a
    run that cannot go on has finished exactly when the input meets a condition
    that can be checked beforehand, and then its output is the output of one
    sequential pass, cut into blocks and reordered. */
module CvleOutcome {
  import opened Common
  import opened CvleInput
  import opened CvlePlan
  import opened CvleWorker
  import opened CvleProtocol
  import opened CvleInvariant

  // Termination --------------------------------------------------------------

  function Weight<M>(k: Rank<M>): (w: nat)
  {
    2 * |k.inbox| + |k.outbox|
  }

  function Total<M>(ranks: seq<Rank<M>>): (w: nat)
  {
    if ranks == [] then 0 else Weight(ranks[0]) + Total(ranks[1..])
  }

  lemma {:induction false} TotalUpdate<M>(ranks: seq<Rank<M>>, r: nat, k: Rank<M>)
    requires r < |ranks|
    ensures Total(ranks[r := k]) == Total(ranks) - Weight(ranks[r]) + Weight(k)
  {
    if r == 0 {
      assert ranks[r := k][1..] == ranks[1..];
    } else {
      TotalUpdate(ranks[1..], r - 1, k);
      assert ranks[r := k][1..] == ranks[1..][r-1 := k];
    }
  }

  /** How much the master may still send, by program point. */
  function Ahead(n: nat, pc: MPc): (w: int)
  {
    match pc
    case MHeaders(k) => 10 * n + 5 + 3 * (n - k)
    case MPrime(k) => 3 * n + 4 + 7 * (n - k)
    case MPrimeIds(k, _, _) => 3 * n + 4 + 7 * (n - k - 1) + 3
    case MCollect => 3 * n + 3
    case MCollectIds(_, _, _) => 3 * n + 6
    case MDrain => 3 * n + 2
    case MEnds(k) => 3 * (n - k) + 1
    case MDone => 0
  }

  /** Unread characters, messages in transit and the master's position. */
  function Measure<M>(c: Config<M>, s: State<M>): (w: int)
  {
    8 * |s.stream.rest| + Total(s.ranks) + Ahead(c.n, s.pc)
  }

  lemma MeasureNonNegative<M>(c: Config<M>, s: State<M>)
    requires Shaped(c, s) && MasterOk(c, s)
    ensures Measure(c, s) >= 0
  {
  }

  lemma SendTotal<M>(s: State<M>, r: nat, msg: Msg)
    requires r < |s.ranks|
    ensures Total(Send(s, r, msg).ranks) == Total(s.ranks) + 2
  {
    TotalUpdate(s.ranks, r, s.ranks[r].(inbox := s.ranks[r].inbox + [msg]));
  }

  lemma ReceiveTotal<M>(s: State<M>, r: nat)
    requires r < |s.ranks| && r < |s.held| && r < |s.owes| && s.ranks[r].outbox != []
    ensures Total(Receive(s, r).ranks) == Total(s.ranks) - 1
  {
    TotalUpdate(s.ranks, r, s.ranks[r].(outbox := s.ranks[r].outbox[1..]));
  }

  lemma SendingMeasure<M>(c: Config<M>, s: State<M>, t: State<M>)
    requires Shaped(c, s) && MasterOk(c, s) && MasterStep(c, s, 0) == Some(t)
    requires !s.pc.MPrime? && !s.pc.MCollect? && !s.pc.MDrain?
    ensures Measure(c, t) < Measure(c, s)
  {
    match s.pc {
      case MHeaders(k) => if k < c.n { SendTotal(s, k, HeaderMsg(c.header)); }
      case MPrimeIds(k, f, l) => SendTotal(s, k, IdsMsg(f, l));
      case MCollectIds(to, f, l) => SendTotal(s, to, IdsMsg(f, l));
      case MEnds(k) => if k < c.n { SendTotal(s, k, EndMsg); }
      case MDone =>
    }
  }

  lemma PrimeMeasure<M>(c: Config<M>, s: State<M>, t: State<M>)
    requires Shaped(c, s) && MasterOk(c, s) && s.pc.MPrime? && MasterStep(c, s, 0) == Some(t)
    ensures Measure(c, t) < Measure(c, s)
  {
    var b := ReadBlock(s.stream, c.bs);
    if s.pc.next < c.n && b.ok {
      SendTotal(s, s.pc.next, BlockMsg(Frame(b.lines)));
    }
  }

  lemma CollectMeasure<M>(c: Config<M>, s: State<M>, from: nat, t: State<M>)
    requires Shaped(c, s) && s.pc.MCollect? && MasterStep(c, s, from) == Some(t)
    ensures Measure(c, t) < Measure(c, s)
  {
    var b := ReadBlock(s.stream, c.bs);
    var s1 := Receive(s, from);
    ReceiveTotal(s, from);
    if b.lines != [] {
      SendTotal(s1, from, BlockMsg(Frame(b.lines)));
      assert |b.after.rest| + 1 <= |s.stream.rest|;
    }
  }

  lemma MasterMeasure<M>(c: Config<M>, s: State<M>, from: nat, t: State<M>)
    requires Shaped(c, s) && MasterOk(c, s) && MasterStep(c, s, from) == Some(t)
    ensures Measure(c, t) < Measure(c, s)
  {
    match s.pc {
      case MPrime(_) => PrimeMeasure(c, s, t);
      case MCollect => CollectMeasure(c, s, from, t);
      case MDrain => if true in s.owes { ReceiveTotal(s, from); }
      case _ => SendingMeasure(c, s, t);
    }
  }

  /** Every step of every process lowers the measure, for every input. */
  lemma StepMeasure<M>(c: Config<M>, s: State<M>, step: Step, t: State<M>)
    requires Shaped(c, s) && MasterOk(c, s) && Next(c, s, step) == Some(t)
    ensures Measure(c, t) < Measure(c, s)
  {
    match step {
      case Master(from) => MasterMeasure(c, s, from, t);
      case Worker(r) => TotalUpdate(s.ranks, r, Consume(c, s.ranks[r]));
    }
  }

  lemma RunMasterOk<M(!new)>(c: Config<M>, m0: M, ok: M -> bool, states: seq<State<M>>, steps: seq<Step>, i: nat)
    requires Assumptions(c, m0, ok) && IsRun(c, states, steps) && i < |states|
    ensures MasterOk(c, states[i])
  {
    RunInv(c, m0, ok, states, steps, i);
  }

  /** Hence runs are bounded: no interleaving goes on for ever. */
  lemma {:induction false} RunsAreBounded<M(!new)>(c: Config<M>, m0: M, ok: M -> bool,
                                                   states: seq<State<M>>, steps: seq<Step>, i: nat)
    requires Assumptions(c, m0, ok) && IsRun(c, states, steps) && i < |states|
    ensures i + Measure(c, states[i]) <= Measure(c, Init(c))
    ensures i <= Measure(c, Init(c))
  {
    RunMasterOk(c, m0, ok, states, steps, i);
    MeasureNonNegative(c, states[i]);
    if i > 0 {
      RunsAreBounded(c, m0, ok, states, steps, i - 1);
      RunMeasure(c, m0, ok, states, steps, i - 1);
    }
  }

  lemma RunMeasure<M(!new)>(c: Config<M>, m0: M, ok: M -> bool, states: seq<State<M>>, steps: seq<Step>, i: nat)
    requires Assumptions(c, m0, ok) && IsRun(c, states, steps) && i < |steps|
    ensures Measure(c, states[i+1]) < Measure(c, states[i])
  {
    RunMasterOk(c, m0, ok, states, steps, i);
    StepMeasure(c, states[i], steps[i], states[i+1]);
  }

  // Deadlock -------------------------------------------------------------------

  /** How the position in the input decides the outcome. In the collecting loop
      the run is doomed exactly when no block was ever handed out or the stream
      will never report its end; otherwise some rank still owes a reply. */
  ghost predicate TrackOk<M>(c: Config<M>, s: State<M>)
    requires Shaped(c, s)
  {
    var first := ReadBlock(c.input, c.bs);
    match s.pc
    case MHeaders(_) => s.stream == c.input && s.given == []
    case MPrime(k) =>
      && k <= c.n
      && AfterPrime(s.stream, c.n - k, c.bs) == AfterPrime(c.input, c.n, c.bs)
      && (if k == 0 then s.stream == c.input && s.given == [] else first.ok && s.given != [])
    case MPrimeIds(k, _, _) =>
      && k < c.n
      && AfterPrime(s.stream, c.n - k - 1, c.bs) == AfterPrime(c.input, c.n, c.bs)
      && first.ok && s.given != []
    case MCollect =>
      && (Halts(c.input, c.n, c.bs) <==> Ends(s.stream, c.bs) && s.given != [])
      && (Halts(c.input, c.n, c.bs) ==> exists r :: 0 <= r < c.n && s.held[r].Some?)
    case MCollectIds(_, _, _) =>
      Halts(c.input, c.n, c.bs) <==> Ends(s.stream, c.bs) && s.given != []
    case _ => Halts(c.input, c.n, c.bs)
  }

  lemma PrimeTrack<M>(c: Config<M>, s: State<M>, t: State<M>)
    requires Shaped(c, s) && MasterOk(c, s) && TrackOk(c, s) && c.n >= 1
    requires s.pc.MPrime? && MasterStep(c, s, 0) == Some(t)
    ensures Shaped(c, t) && TrackOk(c, t)
  {
    var b := ReadBlock(s.stream, c.bs);
    var k := s.pc.next;
    if k >= c.n {
      assert AfterPrime(s.stream, 0, c.bs) == s.stream;
      assert s.held[0].Some?;
    } else if !b.ok {
      assert AfterPrime(s.stream, c.n - k, c.bs) == b.after;
      if k > 0 {
        assert s.held[0].Some?;
        assert t.stream == AfterPrime(c.input, c.n, c.bs);
      }
    }
  }

  lemma CollectTrack<M>(c: Config<M>, s: State<M>, from: nat, t: State<M>)
    requires Shaped(c, s) && MasterOk(c, s) && TrackOk(c, s)
    requires forall r :: 0 <= r < c.n && s.held[r].Some? ==> s.held[r].value < |s.given|
    requires from < c.n ==> (s.ranks[from].outbox != [] ==> s.held[from].Some?)
    requires s.pc.MCollect? && MasterStep(c, s, from) == Some(t)
    ensures Shaped(c, t) && TrackOk(c, t)
  {
    var b := ReadBlock(s.stream, c.bs);
    assert s.given != [];
    if b.lines != [] {
      assert Ends(s.stream, c.bs) == Ends(b.after, c.bs);
    } else if b.ok {
      assert !Ends(s.stream, c.bs);
    }
  }

  lemma SendingTrack<M>(c: Config<M>, s: State<M>, from: nat, t: State<M>)
    requires Shaped(c, s) && MasterOk(c, s) && TrackOk(c, s)
    requires !s.pc.MPrime? && !s.pc.MCollect? && MasterStep(c, s, from) == Some(t)
    ensures Shaped(c, t) && TrackOk(c, t)
  {
    if s.pc.MCollectIds? {
      assert t.held[s.pc.to].Some?;
    }
  }

  lemma RepliesAreOwed<M(!new)>(c: Config<M>, m0: M, ok: M -> bool, s: State<M>, from: nat)
    requires Inv(c, m0, ok, s) && from < c.n
    ensures s.ranks[from].outbox != [] ==> s.held[from].Some?
    ensures forall r :: 0 <= r < c.n && s.held[r].Some? ==> s.held[r].value < |s.given|
  {
    assert RankOk(c, m0, ok, s, from);
  }

  lemma StepTrack<M(!new)>(c: Config<M>, m0: M, ok: M -> bool, s: State<M>, step: Step, t: State<M>)
    requires Assumptions(c, m0, ok) && Inv(c, m0, ok, s) && TrackOk(c, s)
    requires Next(c, s, step) == Some(t)
    ensures Shaped(c, t) && TrackOk(c, t)
  {
    if step.Master? {
      if s.pc.MPrime? {
        PrimeTrack(c, s, t);
      } else if s.pc.MCollect? {
        RepliesAreOwed(c, m0, ok, s, step.from);
        CollectTrack(c, s, step.from, t);
      } else {
        SendingTrack(c, s, step.from, t);
      }
    }
  }

  lemma {:induction false} RunTrack<M(!new)>(c: Config<M>, m0: M, ok: M -> bool, states: seq<State<M>>,
                                      steps: seq<Step>, i: nat)
    requires Assumptions(c, m0, ok) && IsRun(c, states, steps) && i < |states|
    ensures TrackOk(c, states[i])
  {
    if i > 0 {
      RunInv(c, m0, ok, states, steps, i - 1);
      RunTrack(c, m0, ok, states, steps, i - 1);
      StepTrack(c, m0, ok, states[i-1], steps[i-1], states[i]);
    }
  }

  /** A rank that owes a reply can move, unless its reply is already on the way. */
  lemma OwingRankMoves<M(!new)>(c: Config<M>, m0: M, ok: M -> bool, s: State<M>, r: nat)
    requires Inv(c, m0, ok, s) && r < c.n && s.held[r].Some? && s.ranks[r].outbox == []
    requires Half(s) == None
    ensures WorkerStep(c, s, r).Some?
  {
    assert RankOk(c, m0, ok, s, r);
    var k := s.ranks[r];
    assert Rest(k) == JobMsgs(s.given[s.held[r].value], false);
    assert |Rest(k)| == 2;
  }

  /** After the end messages, a worker that has not returned can still move. */
  lemma EndedRankMoves<M(!new)>(c: Config<M>, m0: M, ok: M -> bool, s: State<M>, r: nat)
    requires Inv(c, m0, ok, s) && s.pc.MDone? && r < c.n && !s.ranks[r].pc.WDone?
    ensures WorkerStep(c, s, r).Some?
  {
    assert RankOk(c, m0, ok, s, r);
    var k := s.ranks[r];
    assert Rest(k)[0] == EndMsg;
  }

  /** Whoever owes a reply, either it or the master can move. */
  lemma OwingMoves<M(!new)>(c: Config<M>, m0: M, ok: M -> bool, s: State<M>, r: nat) returns (step: Step)
    requires Inv(c, m0, ok, s) && r < c.n && s.held[r].Some?
    requires s.pc.MCollect? || (s.pc.MDrain? && true in s.owes)
    ensures Next(c, s, step).Some?
  {
    if s.ranks[r].outbox != [] {
      step := Master(r);
    } else {
      OwingRankMoves(c, m0, ok, s, r);
      step := Worker(r);
    }
  }

  /** The master waits in a receive only while some rank owes a reply, so on an
      input that halts some process can always move until all have returned. */
  lemma Progress<M(!new)>(c: Config<M>, m0: M, ok: M -> bool, s: State<M>) returns (step: Step)
    requires Assumptions(c, m0, ok) && Inv(c, m0, ok, s) && TrackOk(c, s)
    requires Halts(c.input, c.n, c.bs) && !Final(c, s)
    ensures Next(c, s, step).Some?
  {
    step := Master(0);
    if s.pc.MCollect? {
      var r :| 0 <= r < c.n && s.held[r].Some?;
      step := OwingMoves(c, m0, ok, s, r);
    } else if s.pc.MDrain? && true in s.owes {
      var r :| 0 <= r < c.n && s.owes[r];
      assert s.held[r].Some?;
      step := OwingMoves(c, m0, ok, s, r);
    } else if s.pc.MDone? {
      var r :| 0 <= r < c.n && !s.ranks[r].pc.WDone?;
      EndedRankMoves(c, m0, ok, s, r);
      step := Worker(r);
    }
  }

  // Output -----------------------------------------------------------------------

  ghost predicate Permutes(done: seq<nat>, n: nat)
  {
    && (forall i :: 0 <= i < |done| ==> done[i] < n)
    && (forall i, j :: 0 <= i < j < |done| ==> done[i] != done[j])
    && (forall k :: 0 <= k < n ==> k in done)
  }

  function Remove<T>(s: seq<T>, p: nat): (r: seq<T>)
    requires p < |s|
  {
    s[..p] + s[p+1..]
  }

  lemma RemoveBag<T>(s: seq<T>, p: nat)
    requires p < |s|
    ensures multiset(s) == multiset(Remove(s, p)) + multiset{s[p]}
  {
    assert s == s[..p] + [s[p]] + s[p+1..];
  }

  lemma PermutesRemove(done: seq<nat>, n: nat, p: nat)
    requires n > 0 && Permutes(done, n) && p < |done| && done[p] == n - 1
    ensures Permutes(Remove(done, p), n - 1)
  {
    var d := Remove(done, p);
    forall k | 0 <= k < n - 1 ensures k in d {
      assert k in done;
      var i :| 0 <= i < |done| && done[i] == k;
      if i < p { assert d[i] == k; } else { assert d[i-1] == k; }
    }
  }

  ghost predicate Along<T>(texts: seq<T>, done: seq<nat>, out: seq<T>)
  {
    && |out| == |done|
    && forall i :: 0 <= i < |done| ==> done[i] < |texts| && out[i] == texts[done[i]]
  }

  lemma AlongRemove<T>(texts: seq<T>, done: seq<nat>, out: seq<T>, p: nat)
    requires Permutes(done, |texts|) && Along(texts, done, out)
    requires p < |done| && done[p] == |texts| - 1
    ensures Along(texts[..|texts|-1], Remove(done, p), Remove(out, p))
  {
    PermutesRemove(done, |texts|, p);
  }

  lemma LastIndex(done: seq<nat>, n: nat) returns (p: nat)
    requires Permutes(done, n) && done != []
    ensures n > 0 && p < |done| && done[p] == n - 1
  {
    assert done[0] < n;
    assert n - 1 in done;
    p :| 0 <= p < |done| && done[p] == n - 1;
  }

  /** Texts picked along a permutation are the same texts, counted. */
  lemma {:induction false} PermutedBag<T>(texts: seq<T>, done: seq<nat>, out: seq<T>)
    requires Permutes(done, |texts|) && Along(texts, done, out)
    ensures multiset(out) == multiset(texts)
    decreases |texts|
  {
    var n := |texts|;
    if done == [] {
      assert n > 0 ==> 0 in done;
      assert out == texts;
    } else {
      var p := LastIndex(done, n);
      PermutesRemove(done, n, p);
      AlongRemove(texts, done, out, p);
      PermutedBag(texts[..n-1], Remove(done, p), Remove(out, p));
      RemoveBag(out, p);
      assert texts == texts[..n-1] + [texts[n-1]];
    }
  }

  function Texts<M>(c: Config<M>, m0: M, jobs: seq<Job>): (texts: seq<string>)
    ensures |texts| == |jobs|
  {
    seq(|jobs|, i requires 0 <= i < |jobs| => JobText(c, m0, jobs[i]))
  }

  /** Block results in input order are the sequential output of all rows. */
  lemma {:induction false} TextsAreSequential<M>(c: Config<M>, m0: M, jobs: seq<Job>, id: int)
    requires Numbered(jobs, id)
    ensures Flatten(Texts(c, m0, jobs)) == Sequential(c.mach, m0, AllLines(jobs), id)
    decreases |jobs|
  {
    if jobs != [] {
      var rest := jobs[1..];
      TextsAreSequential(c, m0, rest, jobs[0].Last());
      SequentialAppend(c.mach, m0, jobs[0].lines, AllLines(rest), id);
      assert Texts(c, m0, jobs)[1..] == Texts(c, m0, rest);
    }
  }

  /** The output of a finished run: the blocks of the plan were each written
      once, every text is the sequential text of its block, and in plan order
      they make up the output of one sequential pass over the rows. */
  ghost predicate Faithful<M>(c: Config<M>, m0: M, s: State<M>)
  {
    && s.given == Plan(c)
    && Permutes(s.done, |Plan(c)|)
    && multiset(s.out) == multiset(Texts(c, m0, Plan(c)))
    && Flatten(Texts(c, m0, Plan(c))) == Sequential(c.mach, m0, AllLines(Plan(c)), 0)
  }

  lemma FinishedIsFaithful<M(!new)>(c: Config<M>, m0: M, ok: M -> bool, s: State<M>)
    requires Assumptions(c, m0, ok) && Inv(c, m0, ok, s) && s.pc.MDone?
    ensures Faithful(c, m0, s)
  {
    assert s.given == Plan(c);
    assert forall i :: 0 <= i < |s.given| ==> i in s.done;
    PermutedBag(Texts(c, m0, s.given), s.done, s.out);
    PrimeJobsNumbered(c.input, 0, c.n, c.bs);
    TextsAreSequential(c, m0, Plan(c), 0);
  }

  /** The main result. For every number of workers, every block size and every
      interleaving: a run that can go no further has finished if and only if
      the input halts, and a finished run wrote the sequential output. On every
      other input, every run ends with all processes blocked. */
  lemma Outcome<M(!new)>(c: Config<M>, m0: M, ok: M -> bool, states: seq<State<M>>, steps: seq<Step>)
    requires Assumptions(c, m0, ok) && IsRun(c, states, steps)
    requires Halted(c, states[|steps|])
    ensures Final(c, states[|steps|]) <==> Halts(c.input, c.n, c.bs)
    ensures Final(c, states[|steps|]) ==> Faithful(c, m0, states[|steps|])
  {
    var last := states[|steps|];
    RunInv(c, m0, ok, states, steps, |steps|);
    RunTrack(c, m0, ok, states, steps, |steps|);
    if Halts(c.input, c.n, c.bs) && !Final(c, last) {
      var step := Progress(c, m0, ok, last);
      assert false;
    }
    if Final(c, last) {
      FinishedIsFaithful(c, m0, ok, last);
    }
  }

  /** In the terms of a user: the input is rows without blank lines, followed by
      a last line that no newline ends. Runs finish if and only if the block
      size is positive, there is a row and that last line is empty; then the
      blocks are the rows in order, each row is simulated under its own index,
      and the texts written are the sequential output cut at block ends. */
  lemma DistributedIsSequential<M(!new)>(c: Config<M>, m0: M, ok: M -> bool, rows: seq<string>, tail: string,
                                         states: seq<State<M>>, steps: seq<Step>)
    requires Rows(rows) && Free(tail, NL) && c.input == TextOf(rows, tail)
    requires Assumptions(c, m0, ok) && IsRun(c, states, steps)
    requires Halted(c, states[|steps|])
    ensures Final(c, states[|steps|]) <==> c.bs >= 1 && rows != [] && tail == ""
    ensures Final(c, states[|steps|]) ==>
              && AllLines(states[|steps|].given) == rows
              && Flatten(Texts(c, m0, Plan(c))) == Sequential(c.mach, m0, rows, 0)
              && multiset(states[|steps|].out) == multiset(Texts(c, m0, Plan(c)))
  {
    Outcome(c, m0, ok, states, steps);
    HaltsExactly(rows, tail, c.n, c.bs);
    if c.bs >= 1 {
      PlanCovers(rows, tail, 0, c.n, c.bs);
    }
  }
}
