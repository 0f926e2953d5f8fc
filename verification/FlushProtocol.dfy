// The flush worker of the storage engine (internal/ENG/LS/flush.go): callers of
// requestFlush, the worker loop and callers of Stop as one step system.
//
// Threads that wait for enqueueMu hold no state but the memtable they bring, so they
// are a multiset; the thread that owns the mutex is the holder.  accepted, ran and
// refused record the history of jobs.
module FlushProtocol {
  import opened Bytes

  type Table = map<Key, Key>
  datatype Option<T> = None | Some(value: T)
  datatype Job = Job(id: nat, table: Table)
  datatype Result = Result(job: Job, ok: bool)

  const QUEUE_CAP := 10
  const MAX_RETRIES := 8

  // Where requestFlush stands after it has taken enqueueMu.
  datatype Pc =
    | CheckDone
    | TakeId
    | Attempt(id: nat, n: nat)
    | Add(id: nat, n: nat)
    | Send(id: nat, n: nat)
    | Undo(id: nat, n: nat)
    | LastAdd(id: nat)
    | LastSend(id: nat)
    | Unlock

  datatype Holder = Free | Requester(table: Table, pc: Pc) | Stopper(closed: bool)
  datatype Task = Receive | Run(job: Job) | MarkDone(job: Job)
  datatype Worker = Loop(draining: bool, task: Task) | Exited

  datatype State = State(
    waiting: multiset<Table>,   // requestFlush calls in front of enqueueMu
    stopWaiting: nat,           // Stop calls in front of enqueueMu
    stoppers: nat,              // Stop calls waiting for loopDone
    syncers: nat,               // WaitForFlush calls
    holder: Holder,
    done: bool,
    queue: seq<Job>,
    pending: int,               // the WaitGroup counter
    worker: Worker,
    nextId: nat,
    lastErr: Option<nat>,       // the job whose error is stored
    l0: seq<Table>,             // files of level 0, newest first
    accepted: seq<Job>,
    ran: seq<Result>,
    refused: seq<Table>)

  function Init(): State {
    State(multiset{}, 0, 0, 0, Free, false, [], 0, Loop(false, Receive), 0, None, [], [], [], [])
  }

  // ---------------------------------------------------------------- steps

  datatype Step =
    | Call(table: Table)
    | CallStop
    | CallWait
    | LockRequest(table: Table)
    | LockStop
    | HolderStep
    | WorkerReceive
    | WorkerSeesDone
    | WorkerRuns(ok: bool)
    | WorkerMarks
    | WorkerExits
    | StopReturns
    | StopTimesOut
    | WaitReturns
    | IdsTaken(count: nat)

  predicate Enabled(s: State, step: Step) {
    match step
    case Call(_) => true
    case CallStop => true
    case CallWait => true
    case LockRequest(table) => s.holder.Free? && table in s.waiting
    case LockStop => s.holder.Free? && s.stopWaiting > 0
    case HolderStep =>
      && !s.holder.Free?
      && (s.holder.Requester? && s.holder.pc.LastSend? ==> |s.queue| < QUEUE_CAP)
    case WorkerReceive => s.worker.Loop? && s.worker.task.Receive? && s.queue != []
    case WorkerSeesDone => s.worker == Loop(false, Receive) && s.done
    case WorkerRuns(_) => s.worker.Loop? && s.worker.task.Run?
    case WorkerMarks => s.worker.Loop? && s.worker.task.MarkDone?
    case WorkerExits => s.worker == Loop(true, Receive) && s.queue == []
    case StopReturns => s.stoppers > 0 && s.worker.Exited?
    case StopTimesOut => s.stoppers > 0
    case WaitReturns => s.syncers > 0 && s.pending == 0
    case IdsTaken(count) => count > 0
  }

  // The job is sent, or given up because Stop was requested.
  function Sent(s: State, id: nat): State
    requires s.holder.Requester?
  {
    var job := Job(id, s.holder.table);
    s.(queue := s.queue + [job], accepted := s.accepted + [job], holder := s.holder.(pc := Unlock))
  }

  function Refuse(s: State): State
    requires s.holder.Requester?
  {
    s.(refused := s.refused + [s.holder.table], holder := s.holder.(pc := Unlock))
  }

  function At(s: State, pc: Pc): State
    requires s.holder.Requester?
  {
    s.(holder := s.holder.(pc := pc))
  }

  function RequestStep(s: State): State
    requires s.holder.Requester?
  {
    match s.holder.pc
    case CheckDone => if s.done then Refuse(s) else At(s, TakeId)
    case TakeId => At(s, Attempt(s.nextId + 1, 0)).(nextId := s.nextId + 1)
    case Attempt(id, n) =>
      if s.done then Refuse(s)
      else if n < MAX_RETRIES then At(s, Add(id, n))
      else At(s, LastAdd(id))
    case Add(id, n) => At(s, Send(id, n)).(pending := s.pending + 1)
    case Send(id, n) => if |s.queue| < QUEUE_CAP then Sent(s, id) else At(s, Undo(id, n))
    case Undo(id, n) => At(s, Attempt(id, n + 1)).(pending := s.pending - 1)
    case LastAdd(id) => At(s, LastSend(id)).(pending := s.pending + 1)
    case LastSend(id) => Sent(s, id)
    case Unlock => s.(holder := Free)
  }

  // flushJob.Run: a table without keys leaves the manifest as it is.
  function AfterRun(s: State, ok: bool): State
    requires s.worker.Loop? && s.worker.task.Run?
  {
    var job := s.worker.task.job;
    s.(worker := Loop(s.worker.draining, MarkDone(job)),
       ran := s.ran + [Result(job, ok)],
       lastErr := if ok then s.lastErr else Some(job.id),
       l0 := if ok && job.table != map[] then [job.table] + s.l0 else s.l0)
  }

  function Next(s: State, step: Step): State
    requires Enabled(s, step)
  {
    match step
    case Call(table) => s.(waiting := s.waiting + multiset{table})
    case CallStop => s.(stopWaiting := s.stopWaiting + 1)
    case CallWait => s.(syncers := s.syncers + 1)
    case LockRequest(table) => s.(waiting := s.waiting - multiset{table}, holder := Requester(table, CheckDone))
    case LockStop => s.(stopWaiting := s.stopWaiting - 1, holder := Stopper(false))
    case HolderStep =>
      if s.holder.Requester? then RequestStep(s)
      else if !s.holder.closed then s.(done := true, holder := Stopper(true))
      else s.(stoppers := s.stoppers + 1, holder := Free)
    case WorkerReceive => s.(queue := s.queue[1..], worker := Loop(s.worker.draining, Run(s.queue[0])))
    case WorkerSeesDone => s.(worker := Loop(true, Receive))
    case WorkerRuns(ok) => AfterRun(s, ok)
    case WorkerMarks => s.(worker := Loop(s.worker.draining, Receive), pending := s.pending - 1)
    case WorkerExits => s.(worker := Exited)
    case StopReturns => s.(stoppers := s.stoppers - 1)
    case StopTimesOut => s.(stoppers := s.stoppers - 1)
    case WaitReturns => s.(syncers := s.syncers - 1)
    case IdsTaken(count) => s.(nextId := s.nextId + count)
  }

  // s is where the steps lead from the initial state.
  ghost predicate Reaches(steps: seq<Step>, s: State) {
    if steps == [] then s == Init()
    else
      var n := |steps| - 1;
      exists before: State :: Reaches(steps[..n], before) && Enabled(before, steps[n]) && Next(before, steps[n]) == s
  }

  // The caller either moves on with its memtable, sends it, or gives it up; nothing
  // else it does is visible to the layers.
  lemma RequestFrame(s: State)
    requires s.holder.Requester?
    ensures var t := RequestStep(s);
            && t.waiting == s.waiting && t.worker == s.worker && t.l0 == s.l0 && t.done == s.done
            && t.lastErr == s.lastErr
            && t.stopWaiting == s.stopWaiting && t.stoppers == s.stoppers && t.syncers == s.syncers
            && (t.holder.Free? <==> s.holder.pc.Unlock?)
            && (t.holder.Free? || (t.holder.Requester? && t.holder.table == s.holder.table))
            && t.ran == s.ran
  {
  }

  lemma RequestMoves(s: State)
    requires s.holder.Requester?
    ensures var t := RequestStep(s); TableKept(s, t) || TableSent(s, t) || TableRefused(s, t)
  {
    hide Sent, Refuse, TableSent, TableRefused;
    match s.holder.pc
    case CheckDone => RefuseMoves(s);
    case Attempt(_, _) => RefuseMoves(s);
    case Send(id, _) => SentMoves(s, id);
    case LastSend(id) => SentMoves(s, id);
    case _ =>
  }

  lemma SentMoves(s: State, id: nat)
    requires s.holder.Requester? && HasId(s.holder.pc)
    ensures TableSent(s, Sent(s, id))
  {
  }

  lemma RefuseMoves(s: State)
    requires s.holder.Requester? && !s.holder.pc.Unlock?
    ensures TableRefused(s, Refuse(s))
  {
  }

  // The table stays in hand, or was out of it already.
  ghost predicate TableKept(s: State, t: State)
    requires s.holder.Requester?
  {
    && t.queue == s.queue && t.accepted == s.accepted && t.refused == s.refused
    && (s.holder.pc.Unlock? || (t.holder.Requester? && !t.holder.pc.Unlock?))
  }

  ghost predicate TableSent(s: State, t: State)
    requires s.holder.Requester?
  {
    && !s.holder.pc.Unlock? && t.holder.Requester? && t.holder.pc.Unlock? && HasId(s.holder.pc)
    && t.refused == s.refused
    && |t.queue| == |s.queue| + 1 && |t.accepted| == |s.accepted| + 1
    && var job := t.queue[|s.queue|];
       job.table == s.holder.table && t.queue == s.queue + [job] && t.accepted == s.accepted + [job]
  }

  ghost predicate TableRefused(s: State, t: State)
    requires s.holder.Requester?
  {
    && !s.holder.pc.Unlock? && t.holder.Requester? && t.holder.pc.Unlock?
    && t.queue == s.queue && t.accepted == s.accepted && t.refused == s.refused + [s.holder.table]
  }

  // ---------------------------------------------------------------- the invariant

  function InTask(w: Worker): nat {
    if w.Loop? && !w.task.Receive? then 1 else 0
  }

  // A caller between Add(1) and the send, or between Add(1) and Add(-1).
  function InHand(h: Holder): nat {
    if h.Requester? && (h.pc.Send? || h.pc.Undo? || h.pc.LastSend?) then 1 else 0
  }

  ghost predicate CounterExact(s: State) {
    s.pending == |s.queue| + InTask(s.worker) + InHand(s.holder)
  }

  function RanJobs(ran: seq<Result>): (jobs: seq<Job>)
    ensures |jobs| == |ran|
  {
    seq(|ran|, i requires 0 <= i < |ran| => ran[i].job)
  }

  function Running(w: Worker): seq<Job> {
    if w.Loop? && w.task.Run? then [w.task.job] else []
  }

  // Accepted jobs have run, run now, or are queued, in the order in which they were accepted.
  ghost predicate Fifo(s: State) {
    s.accepted == RanJobs(s.ran) + Running(s.worker) + s.queue
  }

  predicate HasId(pc: Pc) {
    !pc.CheckDone? && !pc.TakeId? && !pc.Unlock?
  }

  ghost predicate IdsGrow(s: State) {
    && (forall i, j :: 0 <= i < j < |s.accepted| ==> s.accepted[i].id < s.accepted[j].id)
    && (forall i :: 0 <= i < |s.accepted| ==> s.accepted[i].id <= s.nextId)
    && (s.holder.Requester? && HasId(s.holder.pc) ==>
          s.holder.pc.id <= s.nextId && forall i :: 0 <= i < |s.accepted| ==> s.accepted[i].id < s.holder.pc.id)
  }

  // Once done is closed, no caller is past its first look at done.
  ghost predicate DoneSeen(s: State) {
    && (s.done && s.holder.Requester? ==> s.holder.pc.CheckDone? || s.holder.pc.Unlock?)
    && (s.holder == Stopper(true) || s.stoppers > 0 ==> s.done)
    && (s.worker.Exited? || s.worker.draining ==> s.done)
    && (s.worker.Exited? ==> s.queue == [])
    && (s.refused != [] ==> s.done)
  }

  ghost predicate Bounded(s: State) {
    && |s.queue| <= QUEUE_CAP
    && (s.holder.Requester? && (s.holder.pc.Add? || s.holder.pc.Send? || s.holder.pc.Undo?) ==>
          s.holder.pc.n < MAX_RETRIES)
    && (s.holder.Requester? && s.holder.pc.Attempt? ==> s.holder.pc.n <= MAX_RETRIES)
  }

  function LastFailure(ran: seq<Result>): Option<nat> {
    if ran == [] then None
    else if !ran[|ran| - 1].ok then Some(ran[|ran| - 1].job.id)
    else LastFailure(ran[..|ran| - 1])
  }

  ghost predicate Inv(s: State) {
    CounterExact(s) && Fifo(s) && IdsGrow(s) && DoneSeen(s) && Bounded(s) && s.lastErr == LastFailure(s.ran)
  }

  lemma RequestCounts(s: State)
    requires CounterExact(s) && s.holder.Requester? && Enabled(s, HolderStep)
    ensures CounterExact(RequestStep(s))
  {
  }

  lemma CounterStep(s: State, step: Step)
    requires CounterExact(s) && Enabled(s, step)
    ensures CounterExact(Next(s, step))
  {
    hide RequestStep;
    if step.HolderStep? && s.holder.Requester? { RequestCounts(s); }
  }

  lemma FifoStep(s: State, step: Step)
    requires Fifo(s) && Enabled(s, step)
    ensures Fifo(Next(s, step))
  {
    hide RequestStep;
    match step
    case HolderStep => if s.holder.Requester? { FifoRequest(s); }
    case WorkerReceive => assert s.queue == [s.queue[0]] + s.queue[1..];
    case WorkerRuns(ok) =>
      assert RanJobs(s.ran + [Result(s.worker.task.job, ok)]) == RanJobs(s.ran) + [s.worker.task.job];
    case _ =>
  }

  lemma FifoRequest(s: State)
    requires Fifo(s) && s.holder.Requester?
    ensures Fifo(RequestStep(s))
  {
    hide RequestStep, RanJobs;
    RequestFrame(s);
    RequestMoves(s);
    var before := RanJobs(s.ran) + Running(s.worker);
    if TableSent(s, RequestStep(s)) {
      var job := RequestStep(s).queue[|s.queue|];
      assert before + s.queue + [job] == before + (s.queue + [job]);
    }
  }

  lemma IdsStep(s: State, step: Step)
    requires IdsGrow(s) && Enabled(s, step)
    ensures IdsGrow(Next(s, step))
  {
    hide RequestStep;
    if step.HolderStep? && s.holder.Requester? { IdsRequest(s); }
  }

  lemma IdsRequest(s: State)
    requires IdsGrow(s) && s.holder.Requester?
    ensures IdsGrow(RequestStep(s))
  {
    hide Sent;
    match s.holder.pc
    case Send(id, _) => IdsSent(s);
    case LastSend(_) => IdsSent(s);
    case _ =>
  }

  lemma IdsSent(s: State)
    requires IdsGrow(s) && s.holder.Requester? && HasId(s.holder.pc)
    ensures IdsGrow(Sent(s, s.holder.pc.id))
  {
    var job := Job(s.holder.pc.id, s.holder.table);
    assert forall i :: 0 <= i < |s.accepted| ==> (s.accepted + [job])[i] == s.accepted[i];
  }

  lemma DoneStep(s: State, step: Step)
    requires DoneSeen(s) && Enabled(s, step)
    ensures DoneSeen(Next(s, step))
  {
  }

  lemma BoundedStep(s: State, step: Step)
    requires Bounded(s) && Enabled(s, step)
    ensures Bounded(Next(s, step))
  {
  }

  lemma ErrStep(s: State, step: Step)
    requires s.lastErr == LastFailure(s.ran) && Enabled(s, step)
    ensures Next(s, step).lastErr == LastFailure(Next(s, step).ran)
  {
    if step.WorkerRuns? { assert (s.ran + [Result(s.worker.task.job, step.ok)])[..|s.ran|] == s.ran; }
  }

  lemma InvStep(s: State, step: Step)
    requires Inv(s) && Enabled(s, step)
    ensures Inv(Next(s, step))
  {
    hide Next, CounterExact, Fifo, IdsGrow, DoneSeen, Bounded, LastFailure, Enabled;
    CounterStep(s, step);
    FifoStep(s, step);
    IdsStep(s, step);
    DoneStep(s, step);
    BoundedStep(s, step);
    ErrStep(s, step);
  }

  lemma {:induction false} RunInv(steps: seq<Step>, s: State)
    requires Reaches(steps, s)
    ensures Inv(s)
  {
    if steps != [] {
      var n := |steps| - 1;
      var before :| Reaches(steps[..n], before) && Enabled(before, steps[n]) && Next(before, steps[n]) == s;
      RunInv(steps[..n], before);
      InvStep(before, steps[n]);
    }
  }

  // ---------------------------------------------------------------- what every run keeps

  // The counter counts queued jobs, the running job and the caller between Add and
  // send, and is never negative.
  lemma PendingCounts(steps: seq<Step>, s: State)
    requires Reaches(steps, s)
    ensures s.pending == |s.queue| + InTask(s.worker) + InHand(s.holder) >= 0
    ensures InHand(s.holder) + InTask(s.worker) <= 2 && |s.queue| <= QUEUE_CAP
    ensures s.worker.Loop? && s.worker.task.MarkDone? ==> s.pending > 0
  {
    RunInv(steps, s);
  }

  // Jobs run in the order they were accepted, and no job runs twice.
  lemma RunsOnceInOrder(steps: seq<Step>, s: State)
    requires Reaches(steps, s)
    ensures RanJobs(s.ran) <= s.accepted
    ensures forall i, j :: 0 <= i < j < |s.ran| ==> s.ran[i].job.id < s.ran[j].job.id
    ensures forall job :: job in s.accepted && job !in RanJobs(s.ran) ==> job in Running(s.worker) + s.queue
    ensures forall job :: job in Running(s.worker) + s.queue ==> job in s.accepted && job !in RanJobs(s.ran)
  {
    hide Reaches, CounterExact, DoneSeen, Bounded, LastFailure;
    RunInv(steps, s);
    var jobs, rest := RanJobs(s.ran), Running(s.worker) + s.queue;
    assert s.accepted == jobs + rest;
    hide Running;
    Apart(s.accepted, jobs, rest);
    forall i, j | 0 <= i < j < |s.ran| ensures s.ran[i].job.id < s.ran[j].job.id {
      assert jobs[i] == s.accepted[i] && jobs[j] == s.accepted[j];
    }
  }

  lemma Apart(all: seq<Job>, jobs: seq<Job>, rest: seq<Job>)
    requires all == jobs + rest && forall i, j :: 0 <= i < j < |all| ==> all[i].id < all[j].id
    ensures forall job :: job in rest ==> job in all && job !in jobs
    ensures forall job :: job in all && job !in jobs ==> job in rest
  {
    forall job | job in rest ensures job in all && job !in jobs {
      var i :| 0 <= i < |rest| && rest[i] == job;
      assert all[|jobs| + i] == job;
      forall k | 0 <= k < |jobs| ensures jobs[k] != job { assert all[k] == jobs[k] && all[k].id < all[|jobs| + i].id; }
    }
  }

  // WaitForFlush returns only when every accepted job has run.
  lemma WaitMeansRun(steps: seq<Step>, s: State)
    requires Reaches(steps, s)
    ensures s.pending == 0 <==> RanJobs(s.ran) == s.accepted && InTask(s.worker) == 0 && InHand(s.holder) == 0
  {
    RunInv(steps, s);
    if RanJobs(s.ran) == s.accepted {
      assert |s.accepted| == |RanJobs(s.ran)| + |Running(s.worker)| + |s.queue|;
    } else {
      assert RanJobs(s.ran) + [] + [] == RanJobs(s.ran);
    }
    if s.pending == 0 { assert s.accepted == RanJobs(s.ran) + [] + []; }
  }

  // When the loop has exited, the queue is drained, the counter is 0, and it stays so.
  lemma ExitMeansDrained(steps: seq<Step>, s: State)
    requires Reaches(steps, s) && s.worker.Exited?
    ensures s.queue == [] && s.pending == 0 && RanJobs(s.ran) == s.accepted
    ensures forall step :: Enabled(s, step) ==> Next(s, step).worker.Exited? && Next(s, step).accepted == s.accepted
  {
    RunInv(steps, s);
  }

  // The two later looks at done inside requestFlush never fire, and a memtable is
  // refused only after Stop was requested.
  lemma LaterChecksAreDead(steps: seq<Step>, s: State)
    requires Reaches(steps, s)
    ensures s.holder.Requester? && s.holder.pc.Attempt? ==> !s.done
    ensures s.holder.Requester? && HasId(s.holder.pc) ==> !s.worker.Exited? && !s.worker.draining
    ensures s.refused != [] ==> s.done
  {
    RunInv(steps, s);
  }

  // Close reports the last failure of the jobs that ran, and nothing if none failed.
  lemma {:induction false} LastFailureNone(ran: seq<Result>)
    ensures LastFailure(ran).None? <==> forall i :: 0 <= i < |ran| ==> ran[i].ok
  {
    if ran != [] { LastFailureNone(ran[..|ran| - 1]); }
  }

  lemma ErrorsKept(steps: seq<Step>, s: State)
    requires Reaches(steps, s)
    ensures s.lastErr.None? <==> forall i :: 0 <= i < |s.ran| ==> s.ran[i].ok
  {
    RunInv(steps, s);
    LastFailureNone(s.ran);
  }

  // ---------------------------------------------------------------- every call returns

  predicate FromOutside(step: Step) {
    step.Call? || step.CallStop? || step.CallWait? || step.StopTimesOut? || step.IdsTaken?
  }

  function HolderRank(h: Holder): nat {
    match h
    case Free => 0
    case Stopper(closed) => if closed then 2 else 3
    case Requester(_, pc) =>
      match pc
      case CheckDone => 42
      case TakeId => 41
      case Attempt(_, n) => if n <= MAX_RETRIES then 7 + 4 * (MAX_RETRIES - n) else 0
      case Add(_, n) => if n <= MAX_RETRIES then 6 + 4 * (MAX_RETRIES - n) else 0
      case Send(_, n) => if n <= MAX_RETRIES then 5 + 4 * (MAX_RETRIES - n) else 0
      case Undo(_, n) => if n <= MAX_RETRIES then 4 + 4 * (MAX_RETRIES - n) else 0
      case LastAdd(_) => 6
      case LastSend(_) => 5
      case Unlock => 1
  }

  function WorkerRank(w: Worker): nat {
    match w
    case Exited => 0
    case Loop(draining, task) => (if draining then 1 else 2) + if task.Run? then 2 else if task.MarkDone? then 1 else 0
  }

  function Measure(s: State): nat {
    43 * |s.waiting| + 4 * s.stopWaiting + HolderRank(s.holder) + 3 * |s.queue| + WorkerRank(s.worker) + s.stoppers
        + s.syncers
  }

  lemma HolderRunsDown(s: State)
    requires Bounded(s) && Enabled(s, HolderStep)
    ensures Measure(Next(s, HolderStep)) < Measure(s)
  {
    hide WorkerRank, RequestStep;
    if s.holder.Requester? {
      RequestFrame(s);
      RequesterRunsDown(s);
    }
  }

  lemma RequesterRunsDown(s: State)
    requires Bounded(s) && Enabled(s, HolderStep) && s.holder.Requester?
    ensures var t := RequestStep(s); 3 * |t.queue| + HolderRank(t.holder) < 3 * |s.queue| + HolderRank(s.holder)
  {
  }

  // No run goes on for ever without a new call: every other step brings the end nearer.
  lemma StepsRunDown(s: State, step: Step)
    requires Inv(s) && Enabled(s, step) && !FromOutside(step)
    ensures Measure(Next(s, step)) < Measure(s)
  {
    hide RequestStep, HolderRank, CounterExact, Fifo, IdsGrow, DoneSeen, Bounded, LastFailure;
    if step.HolderStep? {
      HolderRunsDown(s);
    } else if step.LockRequest? || step.LockStop? {
      LockRank();
    }
  }

  lemma LockRank()
    ensures forall table :: HolderRank(Requester(table, CheckDone)) == 42
    ensures HolderRank(Free) == 0 && HolderRank(Stopper(false)) == 3
  {
  }

  // The steps lead from s to t.
  ghost predicate Leads(s: State, steps: seq<Step>, t: State)
    decreases steps
  {
    if steps == [] then s == t
    else Enabled(s, steps[0]) && Leads(Next(s, steps[0]), steps[1..], t)
  }

  lemma {:induction false} RunsEnd(s: State, steps: seq<Step>, t: State)
    requires Inv(s) && Leads(s, steps, t) && forall i :: 0 <= i < |steps| ==> !FromOutside(steps[i])
    ensures |steps| + Measure(t) <= Measure(s)
    decreases steps
  {
    hide Next, Measure, Enabled, Inv;
    if steps != [] {
      InvStep(s, steps[0]);
      StepsRunDown(s, steps[0]);
      RunsEnd(Next(s, steps[0]), steps[1..], t);
    }
  }

  ghost predicate Quiet(s: State) {
    forall step :: Enabled(s, step) ==> FromOutside(step)
  }

  lemma QuietStops(s: State)
    requires Quiet(s)
    ensures !Enabled(s, LockStop) && !Enabled(s, StopReturns) && !Enabled(s, WaitReturns)
  {
  }

  lemma QuietLocks(s: State, table: Table)
    requires Quiet(s)
    ensures !Enabled(s, LockRequest(table))
  {
  }

  lemma QuietWorker(s: State)
    requires Inv(s) && Quiet(s)
    ensures s.queue == [] && s.holder.Free? && InTask(s.worker) == 0
    ensures s.worker == if s.done then Exited else Loop(false, Receive)
  {
    hide Next, CounterExact, Fifo, IdsGrow, LastFailure;
    assert !Enabled(s, WorkerRuns(true)) && !Enabled(s, WorkerMarks);
    assert !Enabled(s, WorkerReceive) && !Enabled(s, WorkerSeesDone) && !Enabled(s, WorkerExits);
    assert !Enabled(s, HolderStep);
  }

  // A run that can go no further without a new call has no call left inside: there
  // is no deadlock on the mutex, the full queue, the counter or the exit of the loop.
  lemma QuietMeansReturned(steps: seq<Step>, s: State)
    requires Reaches(steps, s) && Quiet(s)
    ensures s.waiting == multiset{} && s.stopWaiting == 0 && s.stoppers == 0 && s.syncers == 0 && s.holder.Free?
    ensures s.queue == [] && s.pending == 0 && RanJobs(s.ran) == s.accepted
    ensures s.worker == if s.done then Exited else Loop(false, Receive)
  {
    hide Next, Fifo, IdsGrow, LastFailure, Quiet, Bounded, Reaches;
    RunInv(steps, s);
    QuietWorker(s);
    WaitMeansRun(steps, s);
    assert !Enabled(s, LockStop) && !Enabled(s, StopReturns) && !Enabled(s, WaitReturns) by { QuietStops(s); }
    if s.waiting != multiset{} {
      var table :| table in s.waiting;
      assert Enabled(s, LockRequest(table));
      QuietLocks(s, table);
    }
  }
}
