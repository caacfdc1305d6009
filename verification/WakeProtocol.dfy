/**
 The wake coordinator as a step machine.

 A `World` is the shared memory of one coordinator together with every activity that works on it:
 calls of `ensure_running`, the wake tasks they spawn, and calls of `mark_dormant`, `invalidate` and
 `refresh_endpoint`.  One step is one access to shared memory, one answer of Nomad or Consul, or one
 observation of the abandonment poller.  A schedule is any sequence of actions; an action that its
 thread is not ready for leaves the world as it is, so a statement about all schedules is a statement
 about all interleavings.
 */
module WakeProtocol {
  import opened Prelude
  import opened Jobs

  datatype Status = Dormant | Waking | Ready

  datatype WakeResult =
    | WakeReady(ep: Endpoint)
    | WakeNotFound(job: string)
    | WakeFailed(message: string)
    | WakeCancelled

  /** What a wake task broadcasts when it fails. */
  type WakeFailure = m: WakeResult | !m.WakeReady? witness WakeCancelled

  datatype WakeError =
    | NotReady
    | Abandoned
    | NotFound(job: string)
    | NomadError(message: string)
    | ChannelError
    | TimedOut

  /** The number of messages a broadcast channel keeps for a slow receiver. */
  const CHANNEL_CAPACITY: nat := 16

  /** One `Arc<WakeState>`.  `owner` is the key it was created under, `sent` all messages broadcast so far. */
  datatype Cell = Cell(owner: string, status: Status, sent: seq<WakeResult>)

  datatype Pc =
    // ensure_running
    | FastPath
    | Enter
    | Load(cell: nat)
    | ReadyCheck
    | Fetch
    | FetchInsert(ep: Endpoint)
    | Subscribe(cell: nat)
    | TryCas(cell: nat)
    | WinnerSubscribe(cell: nat)
    | Spawn(cell: nat, pos: nat)
    | Await(cell: nat, pos: nat, task: Option<nat>)
    | Returned(res: Result<Endpoint, WakeError>)
    | Dropped
    // the spawned wake task
    | Acquire(cell: nat)
    | CallScaleUp(cell: nat)
    | Scaling(cell: nat)
    | Health(cell: nat, zeroSeen: bool)
    | TaskInsert(cell: nat, ep: Endpoint)
    | TaskSetReady(cell: nat, ep: Endpoint)
    | TaskSendReady(cell: nat, ep: Endpoint)
    | TaskSetDormant(cell: nat, failure: WakeFailure)
    | TaskSendFailure(cell: nat, failure: WakeFailure)
    | TaskRemove(cell: nat, at: nat)
    | TaskDone(cell: nat, at: nat)
    // mark_dormant, invalidate, and the empty answer of refresh_endpoint
    | Evict
    | StoreDormant
    | RemoveKey
    // refresh_endpoint
    | Refresh
    | RefreshInsert(ep: Endpoint)
    | RefreshStore
    | OpDone

  datatype Thread = Thread(reg: JobRegistration, pc: Pc)

  /** What the history of a run remembers. */
  datatype Event =
    | CasWon(job: string)
    | ScaleUpCalled(job: string)
    | DormantStored(job: string)
    | KeyRemoved(job: string)
    | CacheEvicted(job: string)
    | EndpointRefreshed(job: string)
    | HealthReported(job: string, ep: Endpoint)
    | EndpointReported(job: string, ep: Endpoint)
    | BroadcastBy(task: nat)

  datatype World = World(
    jobs: map<string, nat>,
    cells: seq<Cell>,
    endpoints: map<string, Endpoint>,
    threads: seq<Thread>,
    permits: nat,
    log: multiset<Event>)

  /** What the environment contributes to a step. */
  datatype Answer =
    | Proceed
    | Timeout
    | HangUp
    | Healthy(ep: Endpoint)
    | NoEndpoint
    | JobMissing(job: string)
    | Failure(message: string)

  datatype Operation = EnsureRunning | MarkDormant | Invalidate | RefreshEndpoint

  datatype Action = Start(reg: JobRegistration, op: Operation) | Step(tid: nat, answer: Answer)

  function Initial(concurrency: nat): World {
    World(map[], [], map[], [], concurrency, multiset{})
  }

  // ---------------------------------------------------------------------------------------------
  // Well-formed worlds

  function CellOf(pc: Pc): Option<nat> {
    match pc
    case Load(c) => Some(c)
    case Subscribe(c) => Some(c)
    case TryCas(c) => Some(c)
    case WinnerSubscribe(c) => Some(c)
    case Spawn(c, _) => Some(c)
    case Await(c, _, _) => Some(c)
    case _ => TaskCell(pc)
  }

  /** The cell of a wake task; None for every other thread. */
  function TaskCell(pc: Pc): Option<nat> {
    match pc
    case Acquire(c) => Some(c)
    case CallScaleUp(c) => Some(c)
    case Scaling(c) => Some(c)
    case Health(c, _) => Some(c)
    case TaskInsert(c, _) => Some(c)
    case TaskSetReady(c, _) => Some(c)
    case TaskSendReady(c, _) => Some(c)
    case TaskSetDormant(c, _) => Some(c)
    case TaskSendFailure(c, _) => Some(c)
    case TaskRemove(c, _) => Some(c)
    case TaskDone(c, _) => Some(c)
    case _ => None
  }

  /** The channel position a live receiver will read next. */
  function ReceiverPos(pc: Pc): Option<nat> {
    match pc
    case Spawn(_, pos) => Some(pos)
    case Await(_, pos, _) => Some(pos)
    case _ => None
  }

  /** The channel position at which a wake task has broadcast. */
  function SentAt(pc: Pc): Option<nat> {
    match pc
    case TaskRemove(_, at) => Some(at)
    case TaskDone(_, at) => Some(at)
    case _ => None
  }

  /** A thread only holds cells of its own job. */
  ghost predicate ThreadWf(cells: seq<Cell>, t: Thread) {
    CellOf(t.pc).Some? ==>
      CellOf(t.pc).value < |cells| && cells[CellOf(t.pc).value].owner == t.reg.jobId
  }

  ghost predicate Wf(w: World) {
    && (forall k :: k in w.jobs ==> w.jobs[k] < |w.cells| && w.cells[w.jobs[k]].owner == k)
    && (forall i :: 0 <= i < |w.threads| ==> ThreadWf(w.cells, w.threads[i]))
  }

  // ---------------------------------------------------------------------------------------------
  // What a thread does next

  /** The one shared access of a step. */
  datatype Effect =
    | NoEffect
    | CreateCell
    | StoreStatus(cell: nat, status: Status)
    | Broadcast(cell: nat, message: WakeResult)
    | PutEndpoint(ep: Endpoint)
    | DropEndpoint
    | DropKey
    | TakePermit
    | GivePermit
    | SpawnTask(cell: nat)

  datatype Move = Move(pc: Pc, effect: Effect, event: Option<Event>)

  function Goto(pc: Pc): Move {
    Move(pc, NoEffect, None)
  }

  /** `or_insert_with`: the cell of the job, a fresh dormant one if the key is absent. */
  function EnterMove(w: World, job: string): Move {
    if job in w.jobs then Goto(Load(w.jobs[job])) else Move(Load(|w.cells|), CreateCell, None)
  }

  function LoadMove(status: Status, c: nat): Move {
    match status
    case Ready => Goto(ReadyCheck)
    case Waking => Goto(Subscribe(c))
    case Dormant => Goto(TryCas(c))
  }

  function FetchMove(job: string, answer: Answer): Move {
    match answer
    case Healthy(ep) => Move(FetchInsert(ep), NoEffect, Some(EndpointReported(job, ep)))
    case NoEndpoint => Goto(Returned(Err(NotReady)))
    case JobMissing(missing) => Goto(Returned(Err(NotFound(missing))))
    case Failure(message) => Goto(Returned(Err(NomadError(message))))
    case HangUp => Goto(Dropped)
    case _ => Goto(Fetch)
  }

  /** What a caller makes of the first message it receives. */
  function FromMessage(m: WakeResult): Result<Endpoint, WakeError> {
    match m
    case WakeReady(ep) => Ok(ep)
    case WakeCancelled => Err(Abandoned)
    case WakeNotFound(job) => Err(NotFound(job))
    case WakeFailed(message) => Err(NomadError(message))
  }

  function AwaitMove(sent: seq<WakeResult>, pc: Pc, answer: Answer): Move
    requires pc.Await?
  {
    match answer
    case Timeout => Goto(Returned(Err(TimedOut)))
    case HangUp => Goto(Dropped)
    case Proceed =>
      if pc.pos >= |sent| then Goto(pc)
      else if |sent| - pc.pos > CHANNEL_CAPACITY then Goto(Returned(Err(ChannelError)))
      else Goto(Returned(FromMessage(sent[pc.pos])))
    case _ => Goto(pc)
  }

  function CachedOr(w: World, job: string, otherwise: Pc): Move {
    if job in w.endpoints then Goto(Returned(Ok(w.endpoints[job]))) else Goto(otherwise)
  }

  function RequestMove(w: World, i: nat, answer: Answer): Move
    requires Wf(w) && i < |w.threads|
  {
    var job := w.threads[i].reg.jobId;
    var pc := w.threads[i].pc;
    match pc
    case FastPath => CachedOr(w, job, Enter)
    case Enter => EnterMove(w, job)
    case Load(c) => LoadMove(w.cells[c].status, c)
    case ReadyCheck => CachedOr(w, job, Fetch)
    case Fetch => FetchMove(job, answer)
    case FetchInsert(ep) => Move(Returned(Ok(ep)), PutEndpoint(ep), None)
    case Subscribe(c) => Goto(Await(c, |w.cells[c].sent|, None))
    case TryCas(c) =>
      if w.cells[c].status == Dormant then Move(WinnerSubscribe(c), StoreStatus(c, Waking), Some(CasWon(job)))
      else Goto(Enter)
    case WinnerSubscribe(c) => Goto(Spawn(c, |w.cells[c].sent|))
    case Spawn(c, pos) => Move(Await(c, pos, Some(|w.threads|)), SpawnTask(c), None)
    case Await(c, _, _) => AwaitMove(w.cells[c].sent, pc, answer)
    case _ => Goto(pc)
  }

  ghost function IsReceiver(c: nat): Thread -> bool {
    (t: Thread) => ReceiverPos(t.pc).Some? && CellOf(t.pc) == Some(c)
  }

  /** Nomad answers `scale_up`; the permit goes back whatever the answer. */
  function ScalingMove(c: nat, answer: Answer): Move {
    match answer
    case Proceed => Move(Health(c, false), GivePermit, None)
    case JobMissing(job) => Move(TaskSetDormant(c, WakeNotFound(job)), GivePermit, None)
    case Failure(message) => Move(TaskSetDormant(c, WakeFailed(message)), GivePermit, None)
    case _ => Goto(Scaling(c))
  }

  /** Consul answers, or the abandonment poller looks: two looks in a row at no receiver cancel the wake. */
  ghost function HealthMove(w: World, i: nat, answer: Answer): Move
    requires i < |w.threads| && w.threads[i].pc.Health?
  {
    var pc := w.threads[i].pc;
    match answer
    case Healthy(ep) => Move(TaskInsert(pc.cell, ep), NoEffect, Some(HealthReported(w.threads[i].reg.jobId, ep)))
    case JobMissing(job) => Goto(TaskSetDormant(pc.cell, WakeNotFound(job)))
    case Failure(message) => Goto(TaskSetDormant(pc.cell, WakeFailed(message)))
    case Proceed =>
      if Count(w.threads, IsReceiver(pc.cell)) != 0 then Goto(Health(pc.cell, false))
      else if pc.zeroSeen then Goto(TaskSetDormant(pc.cell, WakeCancelled))
      else Goto(Health(pc.cell, true))
    case _ => Goto(pc)
  }

  /** `set_dormant`; the history remembers the stores that change the status. */
  function DormantMove(cell: Cell, c: nat, next: Pc): Move {
    Move(next, StoreStatus(c, Dormant), if cell.status == Dormant then None else Some(DormantStored(cell.owner)))
  }

  /** `jobs.remove`; the history remembers the removals of a present key. */
  function RemoveMove(w: World, job: string, next: Pc): Move {
    Move(next, DropKey, if job in w.jobs then Some(KeyRemoved(job)) else None)
  }

  ghost function TaskMove(w: World, i: nat, answer: Answer): Move
    requires Wf(w) && i < |w.threads|
  {
    var job := w.threads[i].reg.jobId;
    var pc := w.threads[i].pc;
    match pc
    case Acquire(c) => if w.permits == 0 then Goto(pc) else Move(CallScaleUp(c), TakePermit, None)
    case CallScaleUp(c) => Move(Scaling(c), NoEffect, Some(ScaleUpCalled(job)))
    case Scaling(c) => ScalingMove(c, answer)
    case Health(_, _) => HealthMove(w, i, answer)
    case TaskInsert(c, ep) => Move(TaskSetReady(c, ep), PutEndpoint(ep), None)
    case TaskSetReady(c, ep) => Move(TaskSendReady(c, ep), StoreStatus(c, Ready), None)
    case TaskSendReady(c, ep) =>
      Move(TaskDone(c, |w.cells[c].sent|), Broadcast(c, WakeReady(ep)), Some(BroadcastBy(i)))
    case TaskSetDormant(c, failure) => DormantMove(w.cells[c], c, TaskSendFailure(c, failure))
    case TaskSendFailure(c, failure) =>
      Move(TaskRemove(c, |w.cells[c].sent|), Broadcast(c, failure), Some(BroadcastBy(i)))
    case TaskRemove(c, at) => RemoveMove(w, job, TaskDone(c, at))
    case _ => Goto(pc)
  }

  function RefreshMove(job: string, answer: Answer): Move {
    match answer
    case Healthy(ep) => Move(RefreshInsert(ep), NoEffect, Some(EndpointReported(job, ep)))
    case NoEndpoint => Goto(Evict)
    case JobMissing(_) => Goto(OpDone)
    case Failure(_) => Goto(OpDone)
    case HangUp => Goto(OpDone)
    case _ => Goto(Refresh)
  }

  /**
   The control operations.  `if let Some(state) = jobs.get(..) { state.set_..() }` is one access: the shard
   lock is held from the lookup to the store.
   */
  function ControlMove(w: World, i: nat, answer: Answer): Move
    requires Wf(w) && i < |w.threads|
  {
    var job := w.threads[i].reg.jobId;
    var pc := w.threads[i].pc;
    match pc
    case Evict => Move(StoreDormant, DropEndpoint, Some(CacheEvicted(job)))
    case StoreDormant =>
      if job in w.jobs then DormantMove(w.cells[w.jobs[job]], w.jobs[job], RemoveKey) else Goto(RemoveKey)
    case RemoveKey => RemoveMove(w, job, OpDone)
    case Refresh => RefreshMove(job, answer)
    case RefreshInsert(ep) => Move(RefreshStore, PutEndpoint(ep), Some(EndpointRefreshed(job)))
    case RefreshStore =>
      if job in w.jobs then Move(OpDone, StoreStatus(w.jobs[job], Ready), None) else Goto(OpDone)
    case _ => Goto(pc)
  }

  predicate IsControl(pc: Pc) {
    pc.Evict? || pc.StoreDormant? || pc.RemoveKey? || pc.Refresh? || pc.RefreshInsert? || pc.RefreshStore?
  }

  ghost function Decide(w: World, i: nat, answer: Answer): Move
    requires Wf(w) && i < |w.threads|
  {
    var pc := w.threads[i].pc;
    if TaskCell(pc).Some? then TaskMove(w, i, answer)
    else if IsControl(pc) then ControlMove(w, i, answer)
    else RequestMove(w, i, answer)
  }

  // ---------------------------------------------------------------------------------------------
  // Steps

  function CellsAfter(cells: seq<Cell>, job: string, e: Effect): seq<Cell> {
    match e
    case CreateCell => cells + [Cell(job, Dormant, [])]
    case StoreStatus(c, s) => if c < |cells| then cells[c := cells[c].(status := s)] else cells
    case Broadcast(c, m) => if c < |cells| then cells[c := cells[c].(sent := cells[c].sent + [m])] else cells
    case _ => cells
  }

  function JobsAfter(w: World, job: string, e: Effect): map<string, nat> {
    match e
    case CreateCell => w.jobs[job := |w.cells|]
    case DropKey => w.jobs - {job}
    case _ => w.jobs
  }

  function EndpointsAfter(endpoints: map<string, Endpoint>, job: string, e: Effect): map<string, Endpoint> {
    match e
    case PutEndpoint(ep) => endpoints[job := ep]
    case DropEndpoint => endpoints - {job}
    case _ => endpoints
  }

  function PermitsAfter(permits: nat, e: Effect): nat {
    match e
    case TakePermit => if permits == 0 then 0 else permits - 1
    case GivePermit => permits + 1
    case _ => permits
  }

  function ThreadsAfter(threads: seq<Thread>, i: nat, m: Move): seq<Thread>
    requires i < |threads|
  {
    var moved := threads[i := threads[i].(pc := m.pc)];
    if m.effect.SpawnTask? then moved + [Thread(threads[i].reg, Acquire(m.effect.cell))] else moved
  }

  function LogAfter(log: multiset<Event>, event: Option<Event>): multiset<Event> {
    if event.Some? then log + multiset{event.value} else log
  }

  function Apply(w: World, i: nat, m: Move): World
    requires i < |w.threads|
  {
    var job := w.threads[i].reg.jobId;
    World(
      JobsAfter(w, job, m.effect),
      CellsAfter(w.cells, job, m.effect),
      EndpointsAfter(w.endpoints, job, m.effect),
      ThreadsAfter(w.threads, i, m),
      PermitsAfter(w.permits, m.effect),
      LogAfter(w.log, m.event))
  }

  function FirstPc(op: Operation): Pc {
    match op
    case EnsureRunning => FastPath
    case MarkDormant => Evict
    case Invalidate => Evict
    case RefreshEndpoint => Refresh
  }

  ghost function Next(w: World, a: Action): World
    requires Wf(w)
  {
    match a
    case Start(reg, op) => w.(threads := w.threads + [Thread(reg, FirstPc(op))])
    case Step(i, answer) => if i < |w.threads| then Apply(w, i, Decide(w, i, answer)) else w
  }

  // ---------------------------------------------------------------------------------------------
  // Runs

  /** A move that stays with cells of the thread's own job. */
  ghost predicate StaysHome(w: World, job: string, m: Move) {
    && (CellOf(m.pc).Some? ==>
          var c := CellOf(m.pc).value;
          if c < |w.cells| then w.cells[c].owner == job else m.effect.CreateCell? && c == |w.cells|)
    && (m.effect.StoreStatus? || m.effect.Broadcast? || m.effect.SpawnTask? ==>
          m.effect.cell < |w.cells| && w.cells[m.effect.cell].owner == job)
    && (m.effect.CreateCell? ==> job !in w.jobs)
  }

  /** A move to a place without a cell that touches no cell. */
  lemma PlainStaysHome(w: World, job: string, m: Move)
    requires CellOf(m.pc).None?
    requires !m.effect.StoreStatus? && !m.effect.Broadcast? && !m.effect.SpawnTask? && !m.effect.CreateCell?
    ensures StaysHome(w, job, m)
  {
  }

  lemma FetchStaysHome(w: World, job: string, answer: Answer)
    ensures StaysHome(w, job, FetchMove(job, answer))
  {
  }

  lemma AwaitStaysHome(w: World, job: string, sent: seq<WakeResult>, pc: Pc, answer: Answer)
    requires pc.Await? && pc.cell < |w.cells| && w.cells[pc.cell].owner == job
    ensures StaysHome(w, job, AwaitMove(sent, pc, answer))
  {
  }

  lemma RequestStaysHome(w: World, i: nat, answer: Answer)
    requires Wf(w) && i < |w.threads|
    requires TaskCell(w.threads[i].pc).None?
    ensures StaysHome(w, w.threads[i].reg.jobId, RequestMove(w, i, answer))
  {
    var t := w.threads[i];
    var job := t.reg.jobId;
    var m := RequestMove(w, i, answer);
    assert ThreadWf(w.cells, t);
    if t.pc.FastPath? {
      PlainStaysHome(w, job, m);
    } else if t.pc.ReadyCheck? {
      PlainStaysHome(w, job, m);
    } else if t.pc.Fetch? {
      FetchStaysHome(w, job, answer);
    } else if t.pc.FetchInsert? {
      PlainStaysHome(w, job, m);
    } else if t.pc.Await? {
      AwaitStaysHome(w, job, w.cells[t.pc.cell].sent, t.pc, answer);
    } else if !(t.pc.Enter? || t.pc.Load? || t.pc.Subscribe? || t.pc.TryCas? || t.pc.WinnerSubscribe? || t.pc.Spawn?) {
      PlainStaysHome(w, job, m);
    }
  }

  lemma HealthStaysHome(w: World, i: nat, answer: Answer)
    requires i < |w.threads| && w.threads[i].pc.Health? && ThreadWf(w.cells, w.threads[i])
    ensures StaysHome(w, w.threads[i].reg.jobId, HealthMove(w, i, answer))
  {
  }

  lemma ScalingStaysHome(w: World, job: string, c: nat, answer: Answer)
    requires c < |w.cells| && w.cells[c].owner == job
    ensures StaysHome(w, job, ScalingMove(c, answer))
  {
  }

  lemma TaskStaysHome(w: World, i: nat, answer: Answer)
    requires Wf(w) && i < |w.threads|
    requires TaskCell(w.threads[i].pc).Some?
    ensures StaysHome(w, w.threads[i].reg.jobId, TaskMove(w, i, answer))
  {
    var t := w.threads[i];
    assert ThreadWf(w.cells, t);
    if t.pc.Health? {
      HealthStaysHome(w, i, answer);
    } else if t.pc.Scaling? {
      ScalingStaysHome(w, t.reg.jobId, t.pc.cell, answer);
    }
  }

  lemma RefreshStaysHome(w: World, job: string, answer: Answer)
    ensures StaysHome(w, job, RefreshMove(job, answer))
  {
  }

  lemma ControlStaysHome(w: World, i: nat, answer: Answer)
    requires Wf(w) && i < |w.threads|
    requires IsControl(w.threads[i].pc)
    ensures StaysHome(w, w.threads[i].reg.jobId, ControlMove(w, i, answer))
  {
    var job := w.threads[i].reg.jobId;
    var m := ControlMove(w, i, answer);
    if w.threads[i].pc.Refresh? {
      RefreshStaysHome(w, job, answer);
    } else if !(w.threads[i].pc.StoreDormant? || w.threads[i].pc.RefreshStore?) {
      PlainStaysHome(w, job, m);
    }
  }

  lemma DecideStaysHome(w: World, i: nat, answer: Answer)
    requires Wf(w) && i < |w.threads|
    ensures StaysHome(w, w.threads[i].reg.jobId, Decide(w, i, answer))
  {
    if TaskCell(w.threads[i].pc).Some? {
      TaskStaysHome(w, i, answer);
    } else if IsControl(w.threads[i].pc) {
      ControlStaysHome(w, i, answer);
    } else {
      RequestStaysHome(w, i, answer);
    }
  }

  lemma OwnersKept(cells: seq<Cell>, job: string, e: Effect, c: nat)
    requires c < |cells|
    ensures c < |CellsAfter(cells, job, e)| && CellsAfter(cells, job, e)[c].owner == cells[c].owner
  {
  }

  lemma ApplyWf(w: World, i: nat, m: Move)
    requires Wf(w) && i < |w.threads| && StaysHome(w, w.threads[i].reg.jobId, m)
    ensures Wf(Apply(w, i, m))
  {
    var w' := Apply(w, i, m);
    forall k | 0 <= k < |w'.threads| ensures ThreadWf(w'.cells, w'.threads[k]) {
      if k < |w.threads| {
        assert ThreadWf(w.cells, w.threads[k]);
      }
    }
    forall j | j in w'.jobs ensures w'.jobs[j] < |w'.cells| && w'.cells[w'.jobs[j]].owner == j {
      if j in w.jobs {
        OwnersKept(w.cells, w.threads[i].reg.jobId, m.effect, w.jobs[j]);
      }
    }
  }

  lemma NextWf(w: World, a: Action)
    requires Wf(w)
    ensures Wf(Next(w, a))
  {
    match a
    case Start(_, _) =>
    case Step(i, answer) =>
      if i < |w.threads| {
        DecideStaysHome(w, i, answer);
        ApplyWf(w, i, Decide(w, i, answer));
      }
  }

  /** The world after a schedule. */
  ghost function Run(w: World, schedule: seq<Action>): (w': World)
    requires Wf(w)
    ensures Wf(w')
  {
    if schedule == [] then w
    else
      var before := Run(w, schedule[..|schedule| - 1]);
      NextWf(before, schedule[|schedule| - 1]);
      Next(before, schedule[|schedule| - 1])
  }

  lemma RunSnoc(w: World, schedule: seq<Action>, a: Action)
    requires Wf(w)
    ensures Run(w, schedule + [a]) == Next(Run(w, schedule), a)
  {
    assert (schedule + [a])[..|schedule|] == schedule;
  }

  lemma {:induction false} RunConcat(w: World, a: seq<Action>, b: seq<Action>)
    requires Wf(w)
    ensures Run(w, a + b) == Run(Run(w, a), b)
    decreases |b|
  {
    if b == [] {
      assert a + b == a;
    } else {
      var before, last := SplitLast(a, b);
      RunConcat(w, a, before);
      RunSnoc(w, a + before, last);
      RunSnoc(Run(w, a), before, last);
    }
  }

  lemma RunOne(w: World, a: Action)
    requires Wf(w)
    ensures Run(w, [a]) == Next(w, a)
  {
    RunSnoc(w, [], a);
    assert [] + [a] == [a];
  }
}
