/** The master and its workers as a transition system. Every pair of processes
    is joined by first-in first-out channels (messages of one sender to one
    receiver do not overtake each other, section 3.5 of MPI 3.1); a receive
    from any source may pick any non-empty channel, and steps of different
    processes interleave freely. */
module CvleProtocol {
  import opened Common
  import opened CvleInput
  import opened CvlePlan
  import opened CvleWorker

  datatype Config<!M> = Config(mach: Machine<M>, header: string, input: Stream, n: nat, bs: int)

  datatype Msg = HeaderMsg(text: string) | BlockMsg(text: string) | IdsMsg(first: int, last: int) | EndMsg

  /** Program counter of a worker. A block travels as two messages, so between
      them the worker waits for the identifiers. */
  datatype WPc<M> =
    | WHeader
    | WReady(mem: M)
    | WIds(mem: M, block: string)
    | WDone
    | WAborted

  /** A worker with its two channels: from the master and to the master. */
  datatype Rank<M> = Rank(pc: WPc<M>, inbox: seq<Msg>, outbox: seq<string>)

  /** Program counter of the master: send headers, prime every rank, collect
      replies while handing out more blocks, drain, send the end messages. */
  datatype MPc =
    | MHeaders(next: nat)
    | MPrime(next: nat)
    | MPrimeIds(next: nat, first: int, last: int)
    | MCollect
    | MCollectIds(to: nat, first: int, last: int)
    | MDrain
    | MEnds(next: nat)
    | MDone

  /** `owes` is the master's vector of busy workers and `out` the texts it has
      written. The last three fields record history and guard nothing: the
      blocks handed out, the block each rank holds, and the block behind each
      written text. */
  datatype State<M> = State(
    pc: MPc, stream: Stream, lastId: int, owes: seq<bool>, ranks: seq<Rank<M>>, out: seq<string>,
    given: seq<Job>, held: seq<Option<nat>>, done: seq<nat>)

  function Init<M>(c: Config<M>): (s: State<M>)
  {
    State(MHeaders(0), c.input, 0, seq(c.n, _ => false), seq(c.n, _ => Rank(WHeader, [], [])), [],
          [], seq(c.n, _ => None), [])
  }

  ghost predicate Shaped<M>(c: Config<M>, s: State<M>)
  {
    |s.owes| == |s.ranks| == |s.held| == c.n
  }

  /** A message from the master joins the channel of a rank. */
  function Send<M>(s: State<M>, r: nat, msg: Msg): (t: State<M>)
    requires r < |s.ranks|
  {
    s.(ranks := s.ranks[r := s.ranks[r].(inbox := s.ranks[r].inbox + [msg])])
  }

  /** The first message of mpi_send_block; the block becomes the job of rank r. */
  function SendBlock<M>(s: State<M>, r: nat, b: Block): (t: State<M>)
    requires r < |s.ranks| && r < |s.held|
  {
    Send(s, r, BlockMsg(Frame(b.lines)))
      .(held := s.held[r := Some(|s.given|)], given := s.given + [Job(b.lines, s.lastId)],
        stream := b.after, lastId := s.lastId + |b.lines|)
  }

  /** Receiving a reply: the text is written and the rank owes nothing. */
  function Receive<M>(s: State<M>, r: nat): (t: State<M>)
    requires r < |s.ranks| && r < |s.held| && r < |s.owes|
    requires s.ranks[r].outbox != []
  {
    var k := s.ranks[r];
    s.(out := s.out + [k.outbox[0]],
       ranks := s.ranks[r := k.(outbox := k.outbox[1..])],
       owes := s.owes[r := false],
       held := s.held[r := None],
       done := if s.held[r].Some? then s.done + [s.held[r].value] else s.done)
  }

  /** One step of the master; `from` is the source a receive picks. None when
      the master cannot move (it waits in a receive, or has finished). */
  function MasterStep<M>(c: Config<M>, s: State<M>, from: nat): (t: Option<State<M>>)
    requires Shaped(c, s)
  {
    match s.pc
    case MHeaders(k) =>
      if k < c.n then Some(Send(s, k, HeaderMsg(c.header)).(pc := MHeaders(k + 1)))
      else Some(s.(pc := MPrime(0)))
    case MPrime(k) =>
      if k >= c.n then Some(s.(pc := MCollect))
      else
        var b := ReadBlock(s.stream, c.bs);
        if b.ok then Some(SendBlock(s, k, b).(pc := MPrimeIds(k, s.lastId, s.lastId + |b.lines|)))
        else Some(s.(stream := b.after, pc := MCollect))
    case MPrimeIds(k, first, last) =>
      if k < c.n then Some(Send(s, k, IdsMsg(first, last)).(owes := s.owes[k := true], pc := MPrime(k + 1)))
      else None
    case MCollect =>
      if from < c.n && s.ranks[from].outbox != [] then
        var s1 := Receive(s, from);
        var b := ReadBlock(s.stream, c.bs);
        if b.lines != [] then
          Some(SendBlock(s1, from, b).(pc := MCollectIds(from, s.lastId, s.lastId + |b.lines|)))
        else
          Some(s1.(stream := b.after, pc := if b.ok then MCollect else MDrain))
      else None
    case MCollectIds(to, first, last) =>
      if to < c.n then Some(Send(s, to, IdsMsg(first, last)).(owes := s.owes[to := true], pc := MCollect))
      else None
    case MDrain =>
      if true !in s.owes then Some(s.(pc := MEnds(0)))
      else if from < c.n && s.ranks[from].outbox != [] then Some(Receive(s, from))
      else None
    case MEnds(k) =>
      if k < c.n then Some(Send(s, k, EndMsg).(pc := MEnds(k + 1)))
      else Some(s.(pc := MDone))
    case MDone => None
  }

  /** What a worker does with the next message of its channel. */
  function Consume<M>(c: Config<M>, k: Rank<M>): (t: Rank<M>)
    requires k.inbox != []
  {
    var msg, rest := k.inbox[0], k.inbox[1..];
    match k.pc
    case WHeader =>
      if msg.HeaderMsg? && c.mach.open(msg.text).Some? then Rank(WReady(c.mach.open(msg.text).value), rest, k.outbox)
      else Rank(WAborted, rest, k.outbox)
    case WReady(m) =>
      if msg.EndMsg? then Rank(WDone, rest, k.outbox)
      else if msg.BlockMsg? then Rank(WIds(m, msg.text), rest, k.outbox)
      else Rank(WAborted, rest, k.outbox)
    case WIds(m, block) =>
      if msg.IdsMsg? && (block == "" || block[|block|-1] == NL) then
        match RunRows(c.mach, m, Unframe(block), msg.first)
        case None => Rank(WAborted, rest, k.outbox)
        case Some(p) => Rank(WReady(p.0), rest, k.outbox + [p.1])
      else Rank(WAborted, rest, k.outbox)
    case WDone => k
    case WAborted => k
  }

  function WorkerStep<M>(c: Config<M>, s: State<M>, r: nat): (t: Option<State<M>>)
    requires Shaped(c, s)
  {
    if r < c.n && !s.ranks[r].pc.WDone? && !s.ranks[r].pc.WAborted? && s.ranks[r].inbox != [] then
      Some(s.(ranks := s.ranks[r := Consume(c, s.ranks[r])]))
    else None
  }

  datatype Step = Master(from: nat) | Worker(rank: nat)

  function Next<M>(c: Config<M>, s: State<M>, step: Step): (t: Option<State<M>>)
    requires Shaped(c, s)
  {
    match step
    case Master(from) => MasterStep(c, s, from)
    case Worker(r) => WorkerStep(c, s, r)
  }

  lemma MasterShaped<M>(c: Config<M>, s: State<M>, from: nat, t: State<M>)
    requires Shaped(c, s) && MasterStep(c, s, from) == Some(t)
    ensures Shaped(c, t)
  {
    match s.pc {
      case MHeaders(_) =>
      case MPrime(_) =>
      case MPrimeIds(_, _, _) =>
      case MCollect =>
      case MCollectIds(_, _, _) =>
      case MDrain =>
      case MEnds(_) =>
    }
  }

  /** A finite run: each state follows from the previous one by the step that
      labels it. */
  ghost predicate IsRun<M>(c: Config<M>, states: seq<State<M>>, steps: seq<Step>)
  {
    && |states| == |steps| + 1
    && states[0] == Init(c)
    && (forall i :: 0 <= i < |states| ==> Shaped(c, states[i]))
    && (forall i :: 0 <= i < |steps| ==> Next(c, states[i], steps[i]) == Some(states[i+1]))
  }

  /** Asking for the shape of the states leaves no run out: whatever step is
      possible at the end of a run continues it. */
  lemma RunContinues<M>(c: Config<M>, states: seq<State<M>>, steps: seq<Step>, step: Step, t: State<M>)
    requires IsRun(c, states, steps) && Next(c, states[|steps|], step) == Some(t)
    ensures IsRun(c, states + [t], steps + [step])
  {
    if step.Master? {
      MasterShaped(c, states[|steps|], step.from, t);
    }
  }

  /** No process can move. */
  ghost predicate Halted<M>(c: Config<M>, s: State<M>)
    requires Shaped(c, s)
  {
    forall step :: Next(c, s, step) == None
  }

  /** Every process has returned: the master sent its end messages and each
      worker has seen one. */
  ghost predicate Final<M>(c: Config<M>, s: State<M>)
    requires Shaped(c, s)
  {
    s.pc.MDone? && forall r :: 0 <= r < c.n ==> s.ranks[r].pc.WDone?
  }

  function Plan<M>(c: Config<M>): (jobs: seq<Job>)
  {
    PrimeJobs(c.input, 0, c.n, c.bs)
  }

  // ---------------------------------------------------------------------
  // The invariant

  /** The assumptions of every result below: there is a worker, the header
      opens, and the rows of the plan do not depend on the worker's history. */
  ghost predicate Assumptions<M(!new)>(c: Config<M>, m0: M, ok: M -> bool)
  {
    && c.n >= 1
    && c.mach.open(c.header) == Some(m0)
    && HistoryFree(c.mach, m0, ok, AllLines(Plan(c)))
  }

  function JobText<M>(c: Config<M>, m0: M, job: Job): (text: string)
  {
    Sequential(c.mach, m0, job.lines, job.first)
  }

  /** The rank that has received a block but not yet its identifiers. */
  function Half<M>(s: State<M>): (r: Option<nat>)
  {
    match s.pc
    case MPrimeIds(k, _, _) => Some(k)
    case MCollectIds(to, _, _) => Some(to)
    case _ => None
  }

  predicate Headed<M>(s: State<M>, r: nat)
  {
    s.pc.MHeaders? ==> r < s.pc.next
  }

  predicate Ended<M>(s: State<M>, r: nat)
  {
    (s.pc.MEnds? && r < s.pc.next) || s.pc.MDone?
  }

  function JobMsgs(job: Job, half: bool): (msgs: seq<Msg>)
  {
    [BlockMsg(Frame(job.lines))] + if half then [] else [IdsMsg(job.first, job.Last())]
  }

  /** The messages a rank still has to act upon, after the header; a block whose
      identifiers are missing counts as unread. */
  function Rest<M>(k: Rank<M>): (msgs: seq<Msg>)
  {
    match k.pc
    case WHeader => if k.inbox == [] then [] else k.inbox[1..]
    case WIds(_, block) => [BlockMsg(block)] + k.inbox
    case _ => k.inbox
  }

  /** Everything about one rank: it sees the header, then blocks with their
      identifiers, then exactly one end message; at most one block is
      outstanding, and its reply is the sequential text of that block. */
  ghost predicate RankOk<M(!new)>(c: Config<M>, m0: M, ok: M -> bool, s: State<M>, r: nat)
    requires r < |s.ranks| && r < |s.held|
  {
    var k := s.ranks[r];
    if !Headed(s, r) then k == Rank(WHeader, [], []) && s.held[r] == None
    else
      && !k.pc.WAborted?
      && (k.pc.WHeader? ==> k.inbox != [] && k.inbox[0] == HeaderMsg(c.header))
      && (k.pc.WReady? || k.pc.WIds? ==> ok(k.pc.mem))
      && (k.pc.WDone? ==> Ended(s, r))
      && match s.held[r] {
           case None => k.outbox == [] && Rest(k) == (if Ended(s, r) && !k.pc.WDone? then [EndMsg] else [])
           case Some(j) =>
             && j < |s.given|
             && !Ended(s, r)
             && if k.outbox == [] then Rest(k) == JobMsgs(s.given[j], Half(s) == Some(r))
                else k.pc.WReady? && k.outbox == [JobText(c, m0, s.given[j])] && k.inbox == [] && Half(s) != Some(r)
         }
  }

  /** The master's own view: its vector of busy workers is exact, and the
      identifiers it is about to send are those of the block. */
  ghost predicate MasterOk<M>(c: Config<M>, s: State<M>)
    requires Shaped(c, s)
  {
    && (forall r :: 0 <= r < c.n ==> s.owes[r] == (s.held[r].Some? && Half(s) != Some(r)))
    && match s.pc {
         case MHeaders(k) => k <= c.n && forall r :: 0 <= r < c.n ==> s.held[r] == None
         case MPrime(k) => k <= c.n && forall r :: 0 <= r < c.n ==> (s.held[r].Some? <==> r < k)
         case MPrimeIds(k, first, last) =>
           k < c.n && HoldsIds(s, k, first, last) && forall r :: 0 <= r < c.n ==> (s.held[r].Some? <==> r <= k)
         case MCollectIds(to, first, last) => to < c.n && HoldsIds(s, to, first, last)
         case MEnds(k) => k <= c.n && forall r :: 0 <= r < c.n ==> s.held[r] == None
         case MDone => forall r :: 0 <= r < c.n ==> s.held[r] == None
         case _ => true
       }
  }

  ghost predicate HoldsIds<M>(s: State<M>, r: nat, first: int, last: int)
    requires r < |s.held|
  {
    && s.held[r].Some?
    && s.held[r].value < |s.given|
    && first == s.given[s.held[r].value].first
    && last == s.given[s.held[r].value].Last()
  }

  /** Every block handed out is in exactly one place: held by one rank, or
      written once. */
  ghost predicate LedgerOk<M>(c: Config<M>, m0: M, s: State<M>)
  {
    && |s.out| == |s.done|
    && (forall i :: 0 <= i < |s.done| ==> s.done[i] < |s.given| && s.out[i] == JobText(c, m0, s.given[s.done[i]]))
    && (forall i, j :: 0 <= i < j < |s.done| ==> s.done[i] != s.done[j])
    && (forall r :: 0 <= r < |s.held| && s.held[r].Some? ==> s.held[r].value < |s.given| && s.held[r].value !in s.done)
    && (forall p, r :: 0 <= p < r < |s.held| && s.held[p].Some? ==> s.held[p] != s.held[r])
    && (forall i :: 0 <= i < |s.given| ==> i in s.done || Some(i) in s.held)
  }

  /** The blocks still to be handed out. */
  function Future<M>(c: Config<M>, s: State<M>): (jobs: seq<Job>)
  {
    match s.pc
    case MHeaders(_) => PrimeJobs(s.stream, s.lastId, c.n, c.bs)
    case MPrime(k) => PrimeJobs(s.stream, s.lastId, if k < c.n then c.n - k else 0, c.bs)
    case MPrimeIds(k, _, _) => PrimeJobs(s.stream, s.lastId, if k + 1 < c.n then c.n - k - 1 else 0, c.bs)
    case MCollect => MainJobs(s.stream, s.lastId, c.bs)
    case MCollectIds(_, _, _) => MainJobs(s.stream, s.lastId, c.bs)
    case _ => []
  }

  ghost predicate PlanOk<M>(c: Config<M>, s: State<M>)
  {
    s.given + Future(c, s) == Plan(c)
  }

  ghost predicate Inv<M(!new)>(c: Config<M>, m0: M, ok: M -> bool, s: State<M>)
  {
    && Shaped(c, s)
    && (forall r :: 0 <= r < c.n ==> RankOk(c, m0, ok, s, r))
    && MasterOk(c, s)
    && LedgerOk(c, m0, s)
    && PlanOk(c, s)
  }
}
