/** Every step of the protocol keeps its invariant. */
module CvleInvariant {
  import opened Common
  import opened CvleInput
  import opened CvlePlan
  import opened CvleWorker
  import opened CvleProtocol

  // Facts about the plan -------------------------------------------------

  lemma {:induction false} JobLinesInAll(jobs: seq<Job>, j: nat, l: string)
    requires j < |jobs| && l in jobs[j].lines
    ensures l in AllLines(jobs)
  {
    if j > 0 {
      JobLinesInAll(jobs[1..], j - 1, l);
    }
  }

  ghost predicate CleanJobs(jobs: seq<Job>)
  {
    forall j :: 0 <= j < |jobs| ==> Rows(jobs[j].lines)
  }

  lemma ReadRows(s: Stream, bs: int)
    ensures Rows(ReadBlock(s, bs).lines)
  {
    TakeRows(s, bs);
  }

  lemma {:induction false} MainJobsClean(s: Stream, id: int, bs: int)
    ensures CleanJobs(MainJobs(s, id, bs))
    decreases |s.rest|
  {
    ReadRows(s, bs);
    var b := ReadBlock(s, bs);
    if b.lines != [] {
      MainJobsClean(b.after, id + |b.lines|, bs);
    }
  }

  lemma {:induction false} PrimeJobsClean(s: Stream, id: int, n: nat, bs: int)
    ensures CleanJobs(PrimeJobs(s, id, n, bs))
    decreases n
  {
    ReadRows(s, bs);
    var b := ReadBlock(s, bs);
    if n == 0 {
      MainJobsClean(s, id, bs);
    } else if b.ok {
      PrimeJobsClean(b.after, id + |b.lines|, n - 1, bs);
    } else {
      MainJobsClean(b.after, id, bs);
    }
  }

  /** A block already handed out is one of the plan. */
  lemma GivenIsPlanned<M>(c: Config<M>, s: State<M>, j: nat)
    requires PlanOk(c, s) && j < |s.given|
    ensures Rows(s.given[j].lines)
    ensures forall i :: 0 <= i < |s.given[j].lines| ==> s.given[j].lines[i] in AllLines(Plan(c))
  {
    assert Plan(c)[j] == s.given[j];
    PrimeJobsClean(c.input, 0, c.n, c.bs);
    forall i | 0 <= i < |s.given[j].lines| ensures s.given[j].lines[i] in AllLines(Plan(c)) {
      JobLinesInAll(Plan(c), j, s.given[j].lines[i]);
    }
  }

  // Initial state --------------------------------------------------------

  lemma InitInv<M(!new)>(c: Config<M>, m0: M, ok: M -> bool)
    requires Assumptions(c, m0, ok)
    ensures Inv(c, m0, ok, Init(c))
  {
  }

  // Worker steps ---------------------------------------------------------

  /** The reply of a rank that has its block and its identifiers. */
  lemma ReplyIsSequential<M(!new)>(c: Config<M>, m0: M, ok: M -> bool, s: State<M>, m: M, j: nat)
    requires Assumptions(c, m0, ok) && PlanOk(c, s) && j < |s.given| && ok(m)
    ensures Framed(Frame(s.given[j].lines))
    ensures var r := RunRows(c.mach, m, Unframe(Frame(s.given[j].lines)), s.given[j].first);
            r.Some? && ok(r.value.0) && r.value.1 == JobText(c, m0, s.given[j])
  {
    GivenIsPlanned(c, s, j);
    var job := s.given[j];
    UnframeFrame(job.lines);
    RunRowsIsSequential(c.mach, m0, ok, AllLines(Plan(c)), m, job.lines, job.first);
  }

  lemma ConsumeOk<M(!new)>(c: Config<M>, m0: M, ok: M -> bool, s: State<M>, r: nat, t: State<M>)
    requires Assumptions(c, m0, ok) && Inv(c, m0, ok, s)
    requires r < c.n && WorkerStep(c, s, r) == Some(t)
    ensures RankOk(c, m0, ok, t, r)
  {
    var k, k' := s.ranks[r], t.ranks[r];
    assert RankOk(c, m0, ok, s, r);
    match k.pc {
      case WHeader =>
        assert Rest(k') == Rest(k);
      case WReady(m) =>
        assert k.outbox == [];
        if s.held[r].Some? {
          assert k.inbox[0].BlockMsg?;
          assert Rest(k') == k.inbox;
        }
      case WIds(_, _) =>
        ConsumeIds(c, m0, ok, s, r, t);
    }
  }

  lemma ConsumeIds<M(!new)>(c: Config<M>, m0: M, ok: M -> bool, s: State<M>, r: nat, t: State<M>)
    requires Assumptions(c, m0, ok) && Shaped(c, s) && PlanOk(c, s)
    requires r < c.n && RankOk(c, m0, ok, s, r) && s.ranks[r].pc.WIds? && WorkerStep(c, s, r) == Some(t)
    ensures RankOk(c, m0, ok, t, r)
  {
    var k := s.ranks[r];
    assert Rest(k)[0] == BlockMsg(k.pc.block);
    var j := s.held[r].value;
    assert Rest(k) == JobMsgs(s.given[j], Half(s) == Some(r));
    assert Rest(k)[1..] == k.inbox;
    assert k.inbox == [IdsMsg(s.given[j].first, s.given[j].Last())];
    ReplyIsSequential(c, m0, ok, s, k.pc.mem, j);
  }

  lemma WorkerInv<M(!new)>(c: Config<M>, m0: M, ok: M -> bool, s: State<M>, r: nat, t: State<M>)
    requires Assumptions(c, m0, ok) && Inv(c, m0, ok, s)
    requires WorkerStep(c, s, r) == Some(t)
    ensures Inv(c, m0, ok, t)
  {
    ConsumeOk(c, m0, ok, s, r, t);
    WorkerFrame(c, m0, s, r, t);
    forall q | 0 <= q < c.n ensures RankOk(c, m0, ok, t, q) {
      assert RankOk(c, m0, ok, s, q);
    }
  }

  lemma WorkerFrame<M(!new)>(c: Config<M>, m0: M, s: State<M>, r: nat, t: State<M>)
    requires Shaped(c, s) && MasterOk(c, s) && LedgerOk(c, m0, s) && PlanOk(c, s)
    requires WorkerStep(c, s, r) == Some(t)
    ensures Shaped(c, t) && MasterOk(c, t) && LedgerOk(c, m0, t) && PlanOk(c, t)
  {
    assert t == s.(ranks := s.ranks[r := Consume(c, s.ranks[r])]);
    SameMaster(c, s, t);
    SameLedger(c, m0, s, t);
    SamePlan(c, s, t);
  }

  // What a part of the invariant looks at ------------------------------------

  lemma SameMaster<M>(c: Config<M>, s: State<M>, t: State<M>)
    requires Shaped(c, s) && MasterOk(c, s) && Shaped(c, t)
    requires t.pc == s.pc && t.owes == s.owes && t.held == s.held && t.given == s.given
    ensures MasterOk(c, t)
  {
    assert Half(t) == Half(s);
    forall r | 0 <= r < c.n ensures t.owes[r] == (t.held[r].Some? && Half(t) != Some(r)) {
      assert s.owes[r] == (s.held[r].Some? && Half(s) != Some(r));
    }
  }

  lemma SameLedger<M>(c: Config<M>, m0: M, s: State<M>, t: State<M>)
    requires LedgerOk(c, m0, s)
    requires t.out == s.out && t.done == s.done && t.held == s.held && t.given == s.given
    ensures LedgerOk(c, m0, t)
  {
  }

  lemma SamePlan<M>(c: Config<M>, s: State<M>, t: State<M>)
    requires PlanOk(c, s)
    requires t.given == s.given && Future(c, t) == Future(c, s)
    ensures PlanOk(c, t)
  {
  }

  lemma PlanAdvances<M>(c: Config<M>, s: State<M>, t: State<M>, job: Job)
    requires PlanOk(c, s)
    requires t.given == s.given + [job] && Future(c, s) == [job] + Future(c, t)
    ensures PlanOk(c, t)
  {
    assert s.given + ([job] + Future(c, t)) == (s.given + [job]) + Future(c, t);
  }

  // Master steps that only send --------------------------------------------

  lemma HeadersRank<M(!new)>(c: Config<M>, m0: M, ok: M -> bool, s: State<M>, t: State<M>, q: nat)
    requires Shaped(c, s) && s.pc.MHeaders? && MasterStep(c, s, 0) == Some(t)
    requires q < c.n && RankOk(c, m0, ok, s, q)
    ensures Shaped(c, t) && RankOk(c, m0, ok, t, q)
  {
  }

  lemma HeadersMaster<M>(c: Config<M>, s: State<M>, t: State<M>)
    requires Shaped(c, s) && MasterOk(c, s) && s.pc.MHeaders? && MasterStep(c, s, 0) == Some(t)
    ensures Shaped(c, t) && MasterOk(c, t)
    ensures t.given == s.given && t.held == s.held && t.out == s.out && t.done == s.done
    ensures Future(c, t) == Future(c, s)
  {
  }

  lemma HeadersInv<M(!new)>(c: Config<M>, m0: M, ok: M -> bool, s: State<M>, t: State<M>)
    requires Assumptions(c, m0, ok) && Inv(c, m0, ok, s)
    requires s.pc.MHeaders? && MasterStep(c, s, 0) == Some(t)
    ensures Inv(c, m0, ok, t)
  {
    HeadersMaster(c, s, t);
    SameLedger(c, m0, s, t);
    SamePlan(c, s, t);
    forall q | 0 <= q < c.n ensures RankOk(c, m0, ok, t, q) {
      assert RankOk(c, m0, ok, s, q);
      HeadersRank(c, m0, ok, s, t, q);
    }
  }

  /** Completing a block with its identifiers: the step, for one rank. */
  lemma IdsRank<M(!new)>(c: Config<M>, m0: M, ok: M -> bool, s: State<M>, t: State<M>, r: nat, first: int, last: int,
                  q: nat)
    requires Shaped(c, s) && r < c.n && q < c.n
    requires RankOk(c, m0, ok, s, q) && Headed(s, q) && !Ended(s, q)
    requires Half(s) == Some(r) && HoldsIds(s, r, first, last)
    requires t == Send(s, r, IdsMsg(first, last)).(owes := t.owes, pc := t.pc)
    requires Half(t) == None && Headed(t, q) && !Ended(t, q)
    ensures RankOk(c, m0, ok, t, q)
  {
    if q == r {
      var k, k' := s.ranks[q], t.ranks[q];
      var job := s.given[s.held[q].value];
      assert Rest(k) == JobMsgs(job, true);
      assert Rest(k') == Rest(k) + [IdsMsg(first, last)];
      assert Rest(k') == JobMsgs(job, false);
    }
  }

  lemma IdsMaster<M>(c: Config<M>, s: State<M>, t: State<M>)
    requires Shaped(c, s) && MasterOk(c, s)
    requires (s.pc.MPrimeIds? || s.pc.MCollectIds?) && MasterStep(c, s, 0) == Some(t)
    ensures Shaped(c, t) && MasterOk(c, t)
  {
  }

  lemma IdsBooks<M>(c: Config<M>, s: State<M>, t: State<M>)
    requires Shaped(c, s)
    requires (s.pc.MPrimeIds? || s.pc.MCollectIds?) && MasterStep(c, s, 0) == Some(t)
    ensures Half(s).Some? && Half(s).value < c.n && Half(t) == None
    ensures t == Send(s, Half(s).value, IdsMsg(s.pc.first, s.pc.last)).(owes := t.owes, pc := t.pc)
    ensures Future(c, t) == Future(c, s)
    ensures !t.pc.MHeaders? && !t.pc.MEnds? && !t.pc.MDone?
  {
  }

  lemma IdsInv<M(!new)>(c: Config<M>, m0: M, ok: M -> bool, s: State<M>, t: State<M>)
    requires Assumptions(c, m0, ok) && Inv(c, m0, ok, s)
    requires (s.pc.MPrimeIds? || s.pc.MCollectIds?) && MasterStep(c, s, 0) == Some(t)
    ensures Inv(c, m0, ok, t)
  {
    IdsMaster(c, s, t);
    IdsBooks(c, s, t);
    SameLedger(c, m0, s, t);
    SamePlan(c, s, t);
    var (r, first, last) := (Half(s).value, s.pc.first, s.pc.last);
    assert HoldsIds(s, r, first, last);
    forall q | 0 <= q < c.n ensures RankOk(c, m0, ok, t, q) {
      assert RankOk(c, m0, ok, s, q);
      IdsRank(c, m0, ok, s, t, r, first, last, q);
    }
  }

  lemma EndsInv<M(!new)>(c: Config<M>, m0: M, ok: M -> bool, s: State<M>, t: State<M>)
    requires Assumptions(c, m0, ok) && Inv(c, m0, ok, s)
    requires s.pc.MEnds? && MasterStep(c, s, 0) == Some(t)
    ensures Inv(c, m0, ok, t)
  {
    forall q | 0 <= q < c.n ensures RankOk(c, m0, ok, t, q) {
      assert RankOk(c, m0, ok, s, q);
      if s.pc.next < c.n && q == s.pc.next {
        assert Rest(t.ranks[q]) == Rest(s.ranks[q]) + [EndMsg];
      }
    }
  }

  // Handing out a block ------------------------------------------------------

  /** A rank without a job receives the first message of a new block. */
  lemma SendBlockLedger<M>(c: Config<M>, m0: M, s: State<M>, r: nat, b: Block)
    requires Shaped(c, s) && LedgerOk(c, m0, s) && r < c.n && s.held[r] == None
    ensures LedgerOk(c, m0, SendBlock(s, r, b))
  {
    var t := SendBlock(s, r, b);
    assert t.held[r] == Some(|s.given|);
    forall i | 0 <= i < |t.given| ensures i in t.done || Some(i) in t.held {
      if i < |s.given| && i !in s.done {
        var q :| 0 <= q < |s.held| && s.held[q] == Some(i);
        assert t.held[q] == Some(i);
      }
    }
  }

  lemma SendBlockRank<M(!new)>(c: Config<M>, m0: M, ok: M -> bool, s: State<M>, r: nat, b: Block, t: State<M>, q: nat)
    requires Shaped(c, s) && r < c.n && q < c.n
    requires RankOk(c, m0, ok, s, q) && Headed(s, q) && !Ended(s, q) && Half(s) == None
    requires s.held[r] == None
    requires t == SendBlock(s, r, b).(pc := t.pc) && Half(t) == Some(r) && Headed(t, q) && !Ended(t, q)
    ensures RankOk(c, m0, ok, t, q)
  {
    if q == r {
      assert Rest(t.ranks[q]) == Rest(s.ranks[q]) + [BlockMsg(Frame(b.lines))];
      assert t.given[|s.given|] == Job(b.lines, s.lastId);
    }
  }

  lemma PrimeMaster<M>(c: Config<M>, s: State<M>, t: State<M>)
    requires Shaped(c, s) && MasterOk(c, s)
    requires s.pc.MPrime? && MasterStep(c, s, 0) == Some(t)
    ensures Shaped(c, t) && MasterOk(c, t)
  {
  }

  lemma PrimePlan<M>(c: Config<M>, s: State<M>, t: State<M>)
    requires Shaped(c, s) && PlanOk(c, s) && s.pc.MPrime? && s.pc.next <= c.n
    requires MasterStep(c, s, 0) == Some(t)
    ensures PlanOk(c, t)
  {
    var b := ReadBlock(s.stream, c.bs);
    if s.pc.next < c.n && b.ok {
      PlanAdvances(c, s, t, Job(b.lines, s.lastId));
    } else {
      SamePlan(c, s, t);
    }
  }

  /** Priming reads a block for the next rank, which has none yet. */
  lemma PrimeSends<M(!new)>(c: Config<M>, m0: M, ok: M -> bool, s: State<M>, k: nat, b: Block, t: State<M>)
    requires Inv(c, m0, ok, s) && s.pc == MPrime(k) && k < c.n
    requires t == SendBlock(s, k, b).(pc := MPrimeIds(k, s.lastId, s.lastId + |b.lines|))
    ensures LedgerOk(c, m0, t) && forall q :: 0 <= q < c.n ==> RankOk(c, m0, ok, t, q)
  {
    assert s.held[k] == None;
    SendBlockLedger(c, m0, s, k, b);
    SameLedger(c, m0, SendBlock(s, k, b), t);
    forall q | 0 <= q < c.n ensures RankOk(c, m0, ok, t, q) {
      assert RankOk(c, m0, ok, s, q);
      SendBlockRank(c, m0, ok, s, k, b, t, q);
    }
  }

  lemma PrimeStops<M(!new)>(c: Config<M>, m0: M, ok: M -> bool, s: State<M>, t: State<M>)
    requires Inv(c, m0, ok, s) && s.pc.MPrime? && t == s.(stream := t.stream, pc := MCollect)
    ensures LedgerOk(c, m0, t) && forall q :: 0 <= q < c.n ==> RankOk(c, m0, ok, t, q)
  {
    SameLedger(c, m0, s, t);
    forall q | 0 <= q < c.n ensures RankOk(c, m0, ok, t, q) {
      assert RankOk(c, m0, ok, s, q);
    }
  }

  lemma PrimeInv<M(!new)>(c: Config<M>, m0: M, ok: M -> bool, s: State<M>, t: State<M>)
    requires Assumptions(c, m0, ok) && Inv(c, m0, ok, s)
    requires s.pc.MPrime? && MasterStep(c, s, 0) == Some(t)
    ensures Inv(c, m0, ok, t)
  {
    var b := ReadBlock(s.stream, c.bs);
    PrimeMaster(c, s, t);
    PrimePlan(c, s, t);
    if s.pc.next < c.n && b.ok {
      PrimeSends(c, m0, ok, s, s.pc.next, b, t);
    } else {
      PrimeStops(c, m0, ok, s, t);
    }
  }

  // Collecting a reply -------------------------------------------------------

  lemma ReceiveRank<M(!new)>(c: Config<M>, m0: M, ok: M -> bool, s: State<M>, r: nat, q: nat)
    requires Shaped(c, s) && r < c.n && q < c.n && s.ranks[r].outbox != []
    requires RankOk(c, m0, ok, s, q)
    ensures RankOk(c, m0, ok, Receive(s, r), q)
  {
  }

  lemma ReceiveLedger<M(!new)>(c: Config<M>, m0: M, ok: M -> bool, s: State<M>, r: nat)
    requires Shaped(c, s) && LedgerOk(c, m0, s) && r < c.n && s.ranks[r].outbox != []
    requires RankOk(c, m0, ok, s, r)
    ensures s.held[r].Some?
    ensures LedgerOk(c, m0, Receive(s, r))
  {
    var t := Receive(s, r);
    var j := s.held[r].value;
    assert t.done[|s.done|] == j;
    forall i | 0 <= i < |t.given| ensures i in t.done || Some(i) in t.held {
      if i in s.done {
        var d :| 0 <= d < |s.done| && s.done[d] == i;
        assert t.done[d] == i;
      } else if i != j {
        var q :| 0 <= q < |s.held| && s.held[q] == Some(i);
        assert t.held[q] == Some(i);
      }
    }
  }

  lemma CollectMaster<M>(c: Config<M>, s: State<M>, from: nat, t: State<M>)
    requires Shaped(c, s) && MasterOk(c, s)
    requires s.pc.MCollect? && MasterStep(c, s, from) == Some(t)
    ensures Shaped(c, t) && MasterOk(c, t)
  {
  }

  lemma CollectPlan<M>(c: Config<M>, s: State<M>, from: nat, t: State<M>)
    requires Shaped(c, s) && PlanOk(c, s)
    requires s.pc.MCollect? && MasterStep(c, s, from) == Some(t)
    ensures PlanOk(c, t)
  {
    var b := ReadBlock(s.stream, c.bs);
    if b.lines != [] {
      assert t.pc.MCollectIds? && t.stream == b.after && t.lastId == s.lastId + |b.lines|;
      PlanAdvances(c, s, t, Job(b.lines, s.lastId));
    } else {
      assert t.pc == (if b.ok then MCollect else MDrain) && t.stream == b.after && t.lastId == s.lastId;
      assert b.ok ==> b.after == s.stream;
      SamePlan(c, s, t);
    }
  }

  lemma CollectInv<M(!new)>(c: Config<M>, m0: M, ok: M -> bool, s: State<M>, from: nat, t: State<M>)
    requires Assumptions(c, m0, ok) && Inv(c, m0, ok, s)
    requires s.pc.MCollect? && MasterStep(c, s, from) == Some(t)
    ensures Inv(c, m0, ok, t)
  {
    CollectMaster(c, s, from, t);
    CollectPlan(c, s, from, t);
    CollectLedger(c, m0, ok, s, from, t);
    forall q | 0 <= q < c.n ensures RankOk(c, m0, ok, t, q) {
      assert RankOk(c, m0, ok, s, q) && RankOk(c, m0, ok, s, from);
      CollectRank(c, m0, ok, s, from, t, q);
    }
  }

  lemma CollectLedger<M(!new)>(c: Config<M>, m0: M, ok: M -> bool, s: State<M>, from: nat, t: State<M>)
    requires Shaped(c, s) && LedgerOk(c, m0, s) && (from < c.n ==> RankOk(c, m0, ok, s, from))
    requires s.pc.MCollect? && MasterStep(c, s, from) == Some(t)
    ensures LedgerOk(c, m0, t)
  {
    ReceiveLedger(c, m0, ok, s, from);
    var b := ReadBlock(s.stream, c.bs);
    if b.lines != [] {
      SendBlockLedger(c, m0, Receive(s, from), from, b);
    }
  }

  lemma CollectRank<M(!new)>(c: Config<M>, m0: M, ok: M -> bool, s: State<M>, from: nat, t: State<M>, q: nat)
    requires Shaped(c, s) && q < c.n && RankOk(c, m0, ok, s, q)
    requires s.pc.MCollect? && MasterStep(c, s, from) == Some(t)
    ensures RankOk(c, m0, ok, t, q)
  {
    ReceiveRank(c, m0, ok, s, from, q);
    var s1 := Receive(s, from);
    var b := ReadBlock(s.stream, c.bs);
    if b.lines != [] {
      SendBlockRank(c, m0, ok, s1, from, b, t, q);
    } else {
      assert s1.ranks == t.ranks && s1.held == t.held && s1.given == t.given;
    }
  }

  lemma DrainReceives<M(!new)>(c: Config<M>, m0: M, ok: M -> bool, s: State<M>, from: nat, t: State<M>)
    requires Inv(c, m0, ok, s) && s.pc.MDrain? && from < c.n && s.ranks[from].outbox != [] && t == Receive(s, from)
    ensures Inv(c, m0, ok, t)
  {
    assert RankOk(c, m0, ok, s, from);
    ReceiveLedger(c, m0, ok, s, from);
    SamePlan(c, s, t);
    forall q | 0 <= q < c.n ensures RankOk(c, m0, ok, t, q) {
      assert RankOk(c, m0, ok, s, q);
      ReceiveRank(c, m0, ok, s, from, q);
    }
  }

  lemma DrainStops<M(!new)>(c: Config<M>, m0: M, ok: M -> bool, s: State<M>, t: State<M>)
    requires Inv(c, m0, ok, s) && s.pc.MDrain? && true !in s.owes && t == s.(pc := MEnds(0))
    ensures Inv(c, m0, ok, t)
  {
    SameLedger(c, m0, s, t);
    SamePlan(c, s, t);
    forall q | 0 <= q < c.n ensures RankOk(c, m0, ok, t, q) && t.held[q] == None {
      assert RankOk(c, m0, ok, s, q);
      assert s.owes[q] == false;
    }
  }

  lemma DrainInv<M(!new)>(c: Config<M>, m0: M, ok: M -> bool, s: State<M>, from: nat, t: State<M>)
    requires Assumptions(c, m0, ok) && Inv(c, m0, ok, s)
    requires s.pc.MDrain? && MasterStep(c, s, from) == Some(t)
    ensures Inv(c, m0, ok, t)
  {
    if true in s.owes {
      DrainReceives(c, m0, ok, s, from, t);
    } else {
      DrainStops(c, m0, ok, s, t);
    }
  }

  /** The invariant is kept by every step of every process. */
  lemma StepInv<M(!new)>(c: Config<M>, m0: M, ok: M -> bool, s: State<M>, step: Step, t: State<M>)
    requires Assumptions(c, m0, ok) && Inv(c, m0, ok, s)
    requires Next(c, s, step) == Some(t)
    ensures Inv(c, m0, ok, t)
  {
    match step {
      case Worker(r) => WorkerInv(c, m0, ok, s, r, t);
      case Master(from) =>
        match s.pc {
          case MHeaders(_) => HeadersInv(c, m0, ok, s, t);
          case MPrime(_) => PrimeInv(c, m0, ok, s, t);
          case MPrimeIds(_, _, _) => IdsInv(c, m0, ok, s, t);
          case MCollect => CollectInv(c, m0, ok, s, from, t);
          case MCollectIds(_, _, _) => IdsInv(c, m0, ok, s, t);
          case MDrain => DrainInv(c, m0, ok, s, from, t);
          case MEnds(_) => EndsInv(c, m0, ok, s, t);
          case MDone =>
        }
    }
  }

  /** Hence it holds in every state of every run. */
  lemma {:induction false} RunInv<M(!new)>(c: Config<M>, m0: M, ok: M -> bool, states: seq<State<M>>,
                                    steps: seq<Step>, i: nat)
    requires Assumptions(c, m0, ok) && IsRun(c, states, steps) && i < |states|
    ensures Inv(c, m0, ok, states[i])
  {
    if i == 0 {
      InitInv(c, m0, ok);
    } else {
      RunInv(c, m0, ok, states, steps, i - 1);
      StepInv(c, m0, ok, states[i-1], steps[i-1], states[i]);
    }
  }
}
