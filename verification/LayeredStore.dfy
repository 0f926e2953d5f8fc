// The write path of the engine (internal/ENG/LS/engine.go) on top of the flush
// protocol: one writer, the active memtable, the jobs on their way, and level 0.
//
// engine.Write and engine.Sync take no lock, so they are calls of one thread; the
// flush worker and any callers of Stop and WaitForFlush interleave with it.
module LayeredStore {
  import opened Bytes
  import F = FlushProtocol

  type Table = F.Table

  const MAX_SIZE := 64 * 1024 * 1024

  // Idle between calls; Flushing inside requestFlush with the frozen memtable; Waiting
  // inside WaitForFlush.
  datatype Mode = Idle | Flushing(table: Table, sync: bool) | Waiting

  // written and frozen record the history: all writes, and the memtables given to
  // requestFlush, oldest first.
  datatype Store = Store(f: F.State, active: Table, size: nat, mode: Mode, written: Table, frozen: seq<Table>)

  function Init(): Store {
    Store(F.Init(), map[], 0, Idle, map[], [])
  }

  datatype Step =
    | Write(key: Key, value: Key)
    | SyncNothing
    | SyncBegin
    | CallReturns
    | SyncReturns
    | Inner(step: F.Step)

  predicate Enabled(s: Store, step: Step) {
    match step
    case Write(_, _) => s.mode.Idle?
    case SyncNothing => s.mode.Idle? && s.size == 0
    case SyncBegin => s.mode.Idle? && s.size > 0
    case CallReturns => s.mode.Flushing? && s.f.waiting == multiset{} && !s.f.holder.Requester?
    case SyncReturns => s.mode.Waiting? && s.f.pending == 0
    case Inner(inner) => !inner.Call? && F.Enabled(s.f, inner)
  }

  // flushActiveMemtable up to the call of requestFlush.
  function Freeze(s: Store, sync: bool): Store {
    s.(f := F.Next(s.f, F.Call(s.active)), active := map[], size := 0, mode := Flushing(s.active, sync),
       frozen := s.frozen + [s.active])
  }

  function Next(s: Store, step: Step): Store
    requires Enabled(s, step)
  {
    match step
    case Write(key, value) =>
      var s' := s.(active := s.active[key := value], size := s.size + |key| + |value|,
                   written := s.written[key := value]);
      if s'.size >= MAX_SIZE then Freeze(s', false) else s'
    case SyncNothing => s
    case SyncBegin => Freeze(s, true)
    case CallReturns => s.(mode := if s.mode.sync then Waiting else Idle)
    case SyncReturns => s.(mode := Idle)
    case Inner(inner) => s.(f := F.Next(s.f, inner))
  }

  ghost predicate Reaches(steps: seq<Step>, s: Store) {
    if steps == [] then s == Init()
    else
      var n := |steps| - 1;
      exists before: Store :: Reaches(steps[..n], before) && Enabled(before, steps[n]) && Next(before, steps[n]) == s
  }

  // ---------------------------------------------------------------- layers

  // Level 0, newest file first.
  function L0Map(l0: seq<Table>): Table {
    if l0 == [] then map[] else L0Map(l0[1..]) + l0[0]
  }

  function Queued(base: Table, queue: seq<F.Job>): Table {
    if queue == [] then base else Queued(base, queue[..|queue| - 1]) + queue[|queue| - 1].table
  }

  function RunningTable(w: F.Worker): Table {
    if w.Loop? && w.task.Run? then w.task.job.table else map[]
  }

  // The frozen memtable that requestFlush has neither sent nor refused yet.
  function InHand(s: Store): seq<Table> {
    if s.mode.Flushing? && (s.f.waiting != multiset{} || (s.f.holder.Requester? && !s.f.holder.pc.Unlock?))
    then [s.mode.table] else []
  }

  function Hand(s: Store): Table {
    if InHand(s) == [] then map[] else InHand(s)[0]
  }

  function Below(f: F.State): Table {
    Queued(L0Map(f.l0) + RunningTable(f.worker), f.queue)
  }

  function Visible(s: Store): Table {
    Below(s.f) + Hand(s) + s.active
  }

  // No memtable was refused and no job failed.
  predicate Healthy(f: F.State) {
    f.refused == [] && f.lastErr.None?
  }

  lemma {:induction false} QueueFront(base: Table, job: F.Job, queue: seq<F.Job>)
    ensures Queued(base, [job] + queue) == Queued(base + job.table, queue)
  {
    if queue == [] {
      assert ([job] + queue)[..0] == [];
    } else {
      var n := |queue|;
      assert ([job] + queue)[..n] == [job] + queue[..n - 1];
      QueueFront(base, job, queue[..n - 1]);
    }
  }

  // ---------------------------------------------------------------- the invariant

  ghost predicate OneCaller(s: Store) {
    && (!s.mode.Flushing? ==> s.f.waiting == multiset{} && !s.f.holder.Requester?)
    && (s.mode.Flushing? ==>
          if s.f.holder.Requester? then s.f.waiting == multiset{} && s.f.holder.table == s.mode.table
          else s.f.waiting == multiset{} || s.f.waiting == multiset{s.mode.table})
  }

  // The size counts every insert, so it is 0 only while nothing but the empty pair
  // was written.
  ghost predicate Sized(s: Store) {
    && (s.size == 0 ==> s.active == map[] || s.active == map[[] := []])
    && (s.size > 0 ==> s.active != map[])
    && ((s.mode.Flushing? || s.mode.Waiting?) ==> s.active == map[] && s.size == 0)
  }

  // ---------------------------------------------------------------- the fate of a memtable

  // A frozen memtable is lost when requestFlush refuses it or its job fails.
  datatype Fate = Fate(table: Table, lost: bool)

  function JobFates(jobs: seq<F.Job>, ran: seq<F.Result>): (fates: seq<Fate>)
    ensures |fates| == |jobs|
  {
    seq(|jobs|, i requires 0 <= i < |jobs| => Fate(jobs[i].table, i < |ran| && !ran[i].ok))
  }

  function RefusedFates(tables: seq<Table>): (fates: seq<Fate>)
    ensures |fates| == |tables|
  {
    seq(|tables|, i requires 0 <= i < |tables| => Fate(tables[i], true))
  }

  function HandFates(s: Store): seq<Fate> {
    if InHand(s) == [] then [] else [Fate(InHand(s)[0], false)]
  }

  // The fates of all frozen memtables, oldest first.
  function Fates(s: Store): seq<Fate> {
    JobFates(s.f.accepted, s.f.ran) + RefusedFates(s.f.refused) + HandFates(s)
  }

  // All tables merged, and those merged that are not lost.
  function AllOf(tables: seq<Table>): Table {
    if tables == [] then map[] else AllOf(tables[..|tables| - 1]) + tables[|tables| - 1]
  }

  function KeptOf(fates: seq<Fate>): Table {
    if fates == [] then map[]
    else
      var before := KeptOf(fates[..|fates| - 1]);
      if fates[|fates| - 1].lost then before else before + fates[|fates| - 1].table
  }

  function TablesOf(fates: seq<Fate>): (tables: seq<Table>)
    ensures |tables| == |fates|
  {
    seq(|fates|, i requires 0 <= i < |fates| => fates[i].table)
  }

  // The tables of the jobs that ran without an error.
  function RanMap(ran: seq<F.Result>): Table {
    if ran == [] then map[]
    else
      var before, last := RanMap(ran[..|ran| - 1]), ran[|ran| - 1];
      if last.ok then before + last.job.table else before
  }

  ghost predicate Recorded(s: Store) {
    && s.frozen == TablesOf(Fates(s))
    && s.written == AllOf(s.frozen) + s.active
    && L0Map(s.f.l0) == RanMap(s.f.ran)
  }

  ghost predicate Inv(s: Store) {
    F.Inv(s.f) && OneCaller(s) && Sized(s) && Recorded(s)
  }

  lemma CallPuts(f: F.State, table: Table)
    ensures F.Next(f, F.Call(table)).waiting == f.waiting + multiset{table}
    ensures F.Next(f, F.Call(table)).holder == f.holder
  {
  }

  lemma CallerInner(s: Store, inner: F.Step)
    requires OneCaller(s) && F.Enabled(s.f, inner) && !inner.Call?
    ensures OneCaller(s.(f := F.Next(s.f, inner)))
  {
    hide F.RequestStep;
    if inner.HolderStep? && s.f.holder.Requester? {
      F.RequestFrame(s.f);
    } else if inner.LockRequest? {
      assert s.f.waiting == multiset{s.mode.table};
      assert inner.table == s.mode.table;
      assert multiset{s.mode.table} - multiset{s.mode.table} == multiset{};
    }
  }

  lemma CallerStep(s: Store, step: Step)
    requires OneCaller(s) && Enabled(s, step)
    ensures OneCaller(Next(s, step))
  {
    hide F.RequestStep, F.Next;
    match step
    case Inner(inner) => CallerInner(s, inner);
    case Write(key, value) => CallPuts(s.f, s.active[key := value]);
    case SyncBegin => CallPuts(s.f, s.active);
    case _ =>
  }

  lemma SizedStep(s: Store, step: Step)
    requires Sized(s) && Enabled(s, step)
    ensures Sized(Next(s, step))
  {
    if step.Write? { assert step.key in s.active[step.key := step.value]; }
  }

  lemma HandStep(s: Store, inner: F.Step)
    requires OneCaller(s) && F.Enabled(s.f, inner) && !inner.HolderStep? && !inner.Call?
    ensures InHand(s.(f := F.Next(s.f, inner))) == InHand(s)
  {
  }

  lemma RanStep(f: F.State, inner: F.Step)
    requires F.Enabled(f, inner) && L0Map(f.l0) == RanMap(f.ran)
    ensures L0Map(F.Next(f, inner).l0) == RanMap(F.Next(f, inner).ran)
  {
    if inner.WorkerRuns? {
      AfterRunStep(f, inner.ok);
    } else {
      hide RanMap, L0Map;
      OthersRunNothing(f, inner);
    }
  }

  lemma AfterRunStep(f: F.State, ok: bool)
    requires f.worker.Loop? && f.worker.task.Run? && L0Map(f.l0) == RanMap(f.ran)
    ensures L0Map(F.AfterRun(f, ok).l0) == RanMap(F.AfterRun(f, ok).ran)
  {
    hide RanMap, L0Map;
    var job := f.worker.task.job;
    RanMore(f.ran, F.Result(job, ok));
    L0More(f.l0, job.table);
    assert RanMap(f.ran) + map[] == RanMap(f.ran);
  }

  lemma RanMore(ran: seq<F.Result>, last: F.Result)
    ensures RanMap(ran + [last]) == if last.ok then RanMap(ran) + last.job.table else RanMap(ran)
  {
    assert (ran + [last])[..|ran|] == ran;
  }

  lemma L0More(l0: seq<Table>, table: Table)
    ensures L0Map([table] + l0) == L0Map(l0) + table
  {
    assert ([table] + l0)[1..] == l0;
  }

  lemma OthersRunNothing(f: F.State, inner: F.Step)
    requires F.Enabled(f, inner) && !inner.WorkerRuns?
    ensures F.Next(f, inner).ran == f.ran && F.Next(f, inner).l0 == f.l0
  {
    hide F.RequestStep;
    if inner.HolderStep? && f.holder.Requester? { F.RequestFrame(f); }
  }

  lemma FatesSame(s: Store, t: Store)
    requires |s.f.ran| <= |s.f.accepted| && t.f.accepted == s.f.accepted && t.f.refused == s.f.refused
             && InHand(t) == InHand(s)
    ensures TablesOf(Fates(t)) == TablesOf(Fates(s))
  {
  }

  lemma FatesSent(s: Store, t: Store, job: F.Job)
    requires s.f.refused == [] == t.f.refused && t.f.accepted == s.f.accepted + [job]
    requires InHand(s) == [job.table] && InHand(t) == []
    ensures TablesOf(Fates(t)) == TablesOf(Fates(s))
  {
  }

  lemma FatesRefused(s: Store, t: Store, table: Table)
    requires t.f.accepted == s.f.accepted && t.f.refused == s.f.refused + [table]
    requires InHand(s) == [table] && InHand(t) == []
    ensures TablesOf(Fates(t)) == TablesOf(Fates(s))
  {
  }

  // requestFlush takes the memtable out of the hand into the queue, or refuses it.
  lemma SendStep(s: Store)
    requires F.Inv(s.f) && OneCaller(s) && F.Enabled(s.f, F.HolderStep)
    ensures TablesOf(Fates(s.(f := F.Next(s.f, F.HolderStep)))) == TablesOf(Fates(s))
  {
    hide F.RequestStep, F.CounterExact, F.IdsGrow, F.Bounded, F.LastFailure, Fates;
    var s' := s.(f := F.Next(s.f, F.HolderStep));
    RanBound(s.f);
    if s.f.holder.Requester? {
      F.RequestFrame(s.f);
      F.RequestMoves(s.f);
      if F.TableKept(s.f, s'.f) {
        FatesSame(s, s');
      } else if F.TableSent(s.f, s'.f) {
        FatesSent(s, s', s'.f.queue[|s.f.queue|]);
      } else {
        FatesRefused(s, s', s.f.holder.table);
      }
    } else {
      FatesSame(s, s');
    }
  }

  lemma RanBound(f: F.State)
    requires F.Inv(f)
    ensures |f.ran| <= |f.accepted|
  {
    assert |f.accepted| == |F.RanJobs(f.ran)| + |F.Running(f.worker)| + |f.queue|;
  }

  lemma RecordedInner(s: Store, inner: F.Step)
    requires F.Inv(s.f) && OneCaller(s) && Recorded(s) && !inner.Call? && F.Enabled(s.f, inner)
    ensures Recorded(s.(f := F.Next(s.f, inner)))
  {
    hide F.RequestStep, F.Inv, OneCaller, Fates, InHand;
    RanStep(s.f, inner);
    var s' := s.(f := F.Next(s.f, inner));
    if inner.HolderStep? {
      SendStep(s);
    } else {
      RanBound(s.f);
      HandStep(s, inner);
      FatesSame(s, s');
    }
  }

  lemma FrozenNext(s: Store, sync: bool)
    requires OneCaller(s) && Recorded(s) && s.mode.Idle?
    ensures Recorded(Freeze(s, sync))
  {
    hide F.Next;
    CallOnly(s.f, s.active);
    var t := Freeze(s, sync);
    assert t.f.waiting != multiset{} by { assert s.active in t.f.waiting; }
    assert InHand(t) == [s.active] && InHand(s) == [];
    assert TablesOf(Fates(t)) == TablesOf(Fates(s)) + [s.active];
    assert t.frozen[..|s.frozen|] == s.frozen;
    assert AllOf(t.frozen) + map[] == AllOf(t.frozen);
  }

  lemma RecordedWrite(s: Store, key: Key, value: Key, size: nat)
    requires Recorded(s)
    ensures Recorded(s.(active := s.active[key := value], size := size, written := s.written[key := value]))
  {
    hide JobFates, RefusedFates, AllOf, L0Map, RanMap;
    var t := s.(active := s.active[key := value], size := size, written := s.written[key := value]);
    assert AllOf(s.frozen) + s.active[key := value] == (AllOf(s.frozen) + s.active)[key := value];
    assert Fates(t) == Fates(s);
  }

  lemma RecordedStep(s: Store, step: Step)
    requires F.Inv(s.f) && OneCaller(s) && Recorded(s) && Enabled(s, step)
    ensures Recorded(Next(s, step))
  {
    hide F.Next, F.Enabled, F.Inv, Freeze, OneCaller, Recorded;
    match step
    case Inner(inner) => RecordedInner(s, inner);
    case Write(key, value) =>
      var s' := s.(active := s.active[key := value], size := s.size + |key| + |value|,
                   written := s.written[key := value]);
      RecordedWrite(s, key, value, s.size + |key| + |value|);
      SameCaller(s, s');
      FrozenNext(s', false);
    case SyncBegin => FrozenNext(s, true);
    case CallReturns => RecordedMode(s, Next(s, step).mode);
    case SyncReturns => RecordedMode(s, Idle);
    case SyncNothing =>
  }

  lemma RecordedMode(s: Store, mode: Mode)
    requires Recorded(s) && InHand(s) == [] && !mode.Flushing?
    ensures Recorded(s.(mode := mode))
  {
    assert Fates(s.(mode := mode)) == Fates(s);
  }

  lemma SameCaller(s: Store, t: Store)
    requires OneCaller(s) && s.f == t.f && s.mode == t.mode
    ensures OneCaller(t)
  {
  }

  lemma CallOnly(f: F.State, table: Table)
    ensures F.Next(f, F.Call(table)) == f.(waiting := f.waiting + multiset{table})
  {
  }

  lemma InvStep(s: Store, step: Step)
    requires Inv(s) && Enabled(s, step)
    ensures Inv(Next(s, step))
  {
    hide OneCaller, Sized, Recorded, F.Inv, Next, Enabled;
    CallerStep(s, step);
    SizedStep(s, step);
    RecordedStep(s, step);
    ProtocolStep(s, step);
  }

  lemma ProtocolStep(s: Store, step: Step)
    requires F.Inv(s.f) && Enabled(s, step)
    ensures F.Inv(Next(s, step).f)
  {
    hide F.Inv, F.Next;
    match step
    case Inner(inner) => F.InvStep(s.f, inner);
    case Write(key, value) => F.InvStep(s.f, F.Call(s.active[key := value]));
    case SyncBegin => F.InvStep(s.f, F.Call(s.active));
    case _ =>
  }

  lemma {:induction false} RunInv(steps: seq<Step>, s: Store)
    requires Reaches(steps, s)
    ensures Inv(s)
  {
    if steps == [] {
      F.RunInv([], F.Init());
    } else {
      var n := |steps| - 1;
      var before :| Reaches(steps[..n], before) && Enabled(before, steps[n]) && Next(before, steps[n]) == s;
      RunInv(steps[..n], before);
      InvStep(before, steps[n]);
    }
  }

  // ---------------------------------------------------------------- conservation

  // Every layer from the newest to the oldest, and the lookup that takes the first hit.
  function QueueTables(queue: seq<F.Job>): seq<Table> {
    if queue == [] then [] else [queue[|queue| - 1].table] + QueueTables(queue[..|queue| - 1])
  }

  function Layers(s: Store): seq<Table> {
    [s.active, Hand(s)] + (QueueTables(s.f.queue) + ([RunningTable(s.f.worker)] + s.f.l0))
  }

  function Resolve(layers: seq<Table>, key: Key): F.Option<Key> {
    if layers == [] then F.None
    else if key in layers[0] then F.Some(layers[0][key])
    else Resolve(layers[1..], key)
  }

  function Lookup(table: Table, key: Key): F.Option<Key> {
    if key in table then F.Some(table[key]) else F.None
  }

  lemma {:induction false} ResolveL0(l0: seq<Table>, key: Key)
    ensures Resolve(l0, key) == Lookup(L0Map(l0), key)
  {
    if l0 != [] { ResolveL0(l0[1..], key); }
  }

  lemma ResolveFirst(table: Table, rest: seq<Table>, key: Key)
    ensures Resolve([table] + rest, key) == if key in table then F.Some(table[key]) else Resolve(rest, key)
  {
    assert ([table] + rest)[1..] == rest;
  }

  lemma {:induction false} ResolveQueue(queue: seq<F.Job>, rest: seq<Table>, base: Table, key: Key)
    requires Resolve(rest, key) == Lookup(base, key)
    ensures Resolve(QueueTables(queue) + rest, key) == Lookup(Queued(base, queue), key)
  {
    if queue == [] {
      assert QueueTables(queue) + rest == rest;
    } else {
      var last, older := queue[|queue| - 1].table, queue[..|queue| - 1];
      ResolveQueue(older, rest, base, key);
      assert QueueTables(queue) == [last] + QueueTables(older) && Queued(base, queue) == Queued(base, older) + last;
      hide QueueTables, Queued;
      assert QueueTables(queue) + rest == [last] + (QueueTables(older) + rest);
      ResolveFirst(last, QueueTables(older) + rest, key);
    }
  }

  lemma ResolveVisible(s: Store, key: Key)
    ensures Resolve(Layers(s), key) == Lookup(Visible(s), key)
  {
    var old0 := [RunningTable(s.f.worker)] + s.f.l0;
    ResolveL0(s.f.l0, key);
    assert old0[1..] == s.f.l0;
    ResolveQueue(s.f.queue, old0, L0Map(s.f.l0) + RunningTable(s.f.worker), key);
    var rest := QueueTables(s.f.queue) + old0;
    assert Layers(s)[1..] == [Hand(s)] + rest && ([Hand(s)] + rest)[1..] == rest;
    assert Resolve([Hand(s)] + rest, key) == Lookup(Below(s.f) + Hand(s), key);
  }

  // The layers below the active memtable are the frozen memtables that are not lost.
  lemma {:induction false} KeptRan(ran: seq<F.Result>)
    ensures KeptOf(JobFates(F.RanJobs(ran), ran)) == RanMap(ran)
  {
    if ran != [] {
      var n := |ran| - 1;
      KeptRan(ran[..n]);
      assert JobFates(F.RanJobs(ran), ran)[..n] == JobFates(F.RanJobs(ran[..n]), ran[..n]);
    }
  }

  lemma {:induction false} KeptJobs(ran: seq<F.Result>, rest: seq<F.Job>)
    ensures KeptOf(JobFates(F.RanJobs(ran) + rest, ran)) == Queued(RanMap(ran), rest)
  {
    if rest == [] {
      KeptRan(ran);
      assert F.RanJobs(ran) + rest == F.RanJobs(ran);
    } else {
      var n, jobs := |rest| - 1, F.RanJobs(ran) + rest;
      KeptJobs(ran, rest[..n]);
      assert jobs[..|ran| + n] == F.RanJobs(ran) + rest[..n];
      assert JobFates(jobs, ran)[..|ran| + n] == JobFates(jobs[..|ran| + n], ran);
    }
  }

  lemma {:induction false} KeptRefused(fates: seq<Fate>, tables: seq<Table>)
    ensures KeptOf(fates + RefusedFates(tables)) == KeptOf(fates)
  {
    if tables == [] {
      assert fates + RefusedFates(tables) == fates;
    } else {
      var n := |tables| - 1;
      KeptRefused(fates, tables[..n]);
      assert (fates + RefusedFates(tables))[..|fates| + n] == fates + RefusedFates(tables[..n]);
    }
  }

  lemma KeptBelow(f: F.State)
    requires F.Fifo(f) && L0Map(f.l0) == RanMap(f.ran)
    ensures KeptOf(JobFates(f.accepted, f.ran)) == Below(f)
  {
    var rest := F.Running(f.worker) + f.queue;
    assert f.accepted == F.RanJobs(f.ran) + rest;
    KeptJobs(f.ran, rest);
    if F.Running(f.worker) == [] {
      assert rest == f.queue && RanMap(f.ran) + map[] == RanMap(f.ran);
    } else {
      QueueFront(RanMap(f.ran), f.worker.task.job, f.queue);
    }
  }

  lemma KeptVisible(s: Store)
    requires Inv(s)
    ensures KeptOf(Fates(s)) == Below(s.f) + Hand(s) && KeptOf(Fates(s)) + s.active == Visible(s)
  {
    hide F.CounterExact, F.IdsGrow, F.DoneSeen, F.Bounded, F.LastFailure, OneCaller, Sized, JobFates, KeptOf, InHand,
      Below;
    KeptBelow(s.f);
    var jobs, sent := JobFates(s.f.accepted, s.f.ran), JobFates(s.f.accepted, s.f.ran) + RefusedFates(s.f.refused);
    KeptRefused(jobs, s.f.refused);
    if InHand(s) == [] {
      assert Fates(s) == sent && Below(s.f) + map[] == Below(s.f);
    } else {
      KeptLast(sent, InHand(s)[0]);
    }
  }

  lemma KeptLast(fates: seq<Fate>, table: Table)
    ensures KeptOf(fates + [Fate(table, false)]) == KeptOf(fates) + table
  {
    assert (fates + [Fate(table, false)])[..|fates|] == fates;
  }

  // What a key resolves to does not suffer from the lost memtables: the last one
  // that holds it is not lost, or those kept before that one give the same value.
  ghost predicate Unharmed(fates: seq<Fate>, key: Key) {
    forall i :: 0 <= i < |fates| && LastHit(fates, i, key) && fates[i].lost ==>
      Lookup(KeptOf(fates[..i]), key) == F.Some(fates[i].table[key])
  }

  ghost predicate LastHit(fates: seq<Fate>, i: nat, key: Key)
    requires i < |fates|
  {
    key in fates[i].table && forall j :: i < j < |fates| ==> key !in fates[j].table
  }

  lemma {:induction false} UnharmedExact(fates: seq<Fate>, key: Key)
    ensures Unharmed(fates, key) <==> Lookup(KeptOf(fates), key) == Lookup(AllOf(TablesOf(fates)), key)
  {
    if fates != [] {
      var n := |fates| - 1;
      assert TablesOf(fates)[..n] == TablesOf(fates[..n]);
      UnharmedExact(fates[..n], key);
      UnharmedLast(fates, key);
      hide Unharmed;
    }
  }

  // The last memtable decides, or has no say.
  lemma UnharmedLast(fates: seq<Fate>, key: Key)
    requires fates != []
    ensures var n := |fates| - 1;
            Unharmed(fates, key) <==>
              if key in fates[n].table
              then fates[n].lost ==> Lookup(KeptOf(fates[..n]), key) == F.Some(fates[n].table[key])
              else Unharmed(fates[..n], key)
  {
    hide KeptOf, Lookup;
    var n := |fates| - 1;
    var init := fates[..n];
    if key in fates[n].table {
      assert LastHit(fates, n, key);
      assert forall i :: 0 <= i < n ==> !LastHit(fates, i, key);
    } else {
      assert !LastHit(fates, n, key);
      assert forall i :: 0 <= i < n ==> fates[..i] == init[..i];
      assert forall i :: 0 <= i < n ==> (LastHit(fates, i, key) <==> LastHit(init, i, key));
    }
  }

  lemma HealthyFates(s: Store)
    requires Inv(s) && Healthy(s.f)
    ensures forall i :: 0 <= i < |Fates(s)| ==> !Fates(s)[i].lost
  {
    F.LastFailureNone(s.f.ran);
  }

  // Step i is the last that writes the key, and writes this value.
  ghost predicate WritesLast(steps: seq<Step>, i: int, key: Key, value: Key) {
    && 0 <= i < |steps| && steps[i] == Write(key, value)
    && forall j :: i < j < |steps| && steps[j].Write? ==> steps[j].key != key
  }

  ghost predicate LastValue(steps: seq<Step>, key: Key, value: Key) {
    exists i :: WritesLast(steps, i, key, value)
  }

  // What written holds: the last value of each key, over the whole run.
  lemma {:induction false} WrittenIsLast(steps: seq<Step>, s: Store, key: Key, value: Key)
    requires Reaches(steps, s)
    ensures Lookup(s.written, key) == F.Some(value) <==> LastValue(steps, key, value)
  {
    hide Next, Enabled, LastValue;
    if steps != [] {
      var n := |steps| - 1;
      var before: Store :|
        Reaches(steps[..n], before) && Enabled(before, steps[n]) && Next(before, steps[n]) == s;
      WrittenIsLast(steps[..n], before, key, value);
      WrittenStep(before, steps[n]);
      LastStep(steps, key, value);
    } else {
      NoLast(key, value);
    }
  }

  lemma NoLast(key: Key, value: Key)
    ensures !LastValue([], key, value)
  {
  }

  lemma WrittenStep(s: Store, step: Step)
    requires Enabled(s, step)
    ensures Next(s, step).written == if step.Write? then s.written[step.key := step.value] else s.written
  {
    hide F.Next, F.Enabled;
  }

  lemma LastStep(steps: seq<Step>, key: Key, value: Key)
    requires steps != []
    ensures var n := |steps| - 1;
            LastValue(steps, key, value) <==>
              if steps[n].Write? && steps[n].key == key then steps[n].value == value
              else LastValue(steps[..n], key, value)
  {
    var n := |steps| - 1;
    if steps[n] == Write(key, value) {
      assert WritesLast(steps, n, key, value);
    } else if LastValue(steps, key, value) {
      var i :| WritesLast(steps, i, key, value);
      assert WritesLast(steps[..n], i, key, value);
    } else if LastValue(steps[..n], key, value) {
      var i :| WritesLast(steps[..n], i, key, value);
      assert forall j :: 0 <= j < n ==> steps[j] == steps[..n][j];
      if !(steps[n].Write? && steps[n].key == key) { StaysLast(steps, i, key, value); }
    }
  }

  lemma StaysLast(steps: seq<Step>, i: int, key: Key, value: Key)
    requires steps != [] && WritesLast(steps[..|steps| - 1], i, key, value)
    requires steps[|steps| - 1].Write? ==> steps[|steps| - 1].key != key
    ensures LastValue(steps, key, value)
  {
    var n := |steps| - 1;
    assert forall j :: 0 <= j < n ==> steps[j] == steps[..n][j];
    assert WritesLast(steps, i, key, value);
  }

  // At every point of every run, after Stop and after failures too, every frozen
  // memtable was accepted, refused or is in hand, and looking a key up from the newest
  // layer down gives the active value or that of the memtables that are not lost.
  lemma LayersAreTheKept(steps: seq<Step>, s: Store, key: Key)
    requires Reaches(steps, s)
    ensures TablesOf(Fates(s)) == s.frozen && s.written == AllOf(s.frozen) + s.active
    ensures Resolve(Layers(s), key) == Lookup(KeptOf(Fates(s)) + s.active, key)
  {
    RunInv(steps, s);
    KeptVisible(s);
    ResolveVisible(s, key);
  }

  // So the last value written is found exactly if no lost memtable matters for the key.
  lemma LossExact(steps: seq<Step>, s: Store, key: Key)
    requires Reaches(steps, s)
    ensures Resolve(Layers(s), key) == Lookup(s.written, key) <==> key in s.active || Unharmed(Fates(s), key)
  {
    LayersAreTheKept(steps, s, key);
    UnharmedExact(Fates(s), key);
  }

  // While nothing was refused and every Run succeeded no write is lost.
  lemma NothingLost(steps: seq<Step>, s: Store, key: Key)
    requires Reaches(steps, s) && Healthy(s.f)
    ensures Resolve(Layers(s), key) == Lookup(s.written, key)
  {
    RunInv(steps, s);
    HealthyFates(s);
    LossExact(steps, s, key);
  }

  // ---------------------------------------------------------------- Sync

  // Every accepted job has run, no call is inside requestFlush, and nothing is active.
  ghost predicate AllFlushed(s: Store) {
    && s.active == map[] && !s.mode.Flushing?
    && F.RanJobs(s.f.ran) == s.f.accepted && F.InTask(s.f.worker) == 0 && F.InHand(s.f.holder) == 0
  }

  // Nothing is queued, running or in hand: what is kept is in level 0.
  lemma Level0IsTheKept(s: Store)
    requires Inv(s) && s.f.queue == [] && F.Running(s.f.worker) == [] && InHand(s) == []
    ensures L0Map(s.f.l0) == KeptOf(Fates(s))
  {
    hide F.CounterExact, F.IdsGrow, F.DoneSeen, F.Bounded, F.LastFailure, OneCaller, Sized, JobFates, InHand;
    KeptBelow(s.f);
    KeptRefused(JobFates(s.f.accepted, s.f.ran), s.f.refused);
    assert Fates(s) == JobFates(s.f.accepted, s.f.ran) + RefusedFates(s.f.refused);
    assert L0Map(s.f.l0) + map[] == L0Map(s.f.l0);
  }

  lemma HealthyIsAll(s: Store)
    requires Inv(s) && Healthy(s.f)
    ensures KeptOf(Fates(s)) == AllOf(s.frozen)
  {
    hide Fates;
    HealthyFates(s);
    forall key ensures Lookup(KeptOf(Fates(s)), key) == Lookup(AllOf(s.frozen), key) { UnharmedExact(Fates(s), key); }
    SameLookups(KeptOf(Fates(s)), AllOf(s.frozen));
  }

  lemma SameLookups(a: Table, b: Table)
    requires forall key :: Lookup(a, key) == Lookup(b, key)
    ensures a == b
  {
    forall key ensures key in a <==> key in b { assert Lookup(a, key) == Lookup(b, key); }
    forall key | key in a ensures a[key] == b[key] { assert Lookup(a, key) == Lookup(b, key); }
  }

  lemma FlushedIsLevel0(s: Store)
    requires Inv(s) && AllFlushed(s)
    ensures L0Map(s.f.l0) == KeptOf(Fates(s))
    ensures Healthy(s.f) ==> L0Map(s.f.l0) == s.written
  {
    hide F.CounterExact, F.IdsGrow, F.DoneSeen, F.Bounded, F.LastFailure, OneCaller, Sized, Fates;
    assert |s.f.accepted| == |F.RanJobs(s.f.ran)| + |F.Running(s.f.worker)| + |s.f.queue|;
    Level0IsTheKept(s);
    if Healthy(s.f) {
      HealthyIsAll(s);
      assert AllOf(s.frozen) + map[] == AllOf(s.frozen);
    }
  }

  lemma PendingZero(f: F.State)
    requires F.Inv(f)
    ensures f.pending == 0 <==> F.RanJobs(f.ran) == f.accepted && F.InTask(f.worker) == 0 && F.InHand(f.holder) == 0
  {
    if F.RanJobs(f.ran) == f.accepted {
      assert |f.accepted| == |F.RanJobs(f.ran)| + |F.Running(f.worker)| + |f.queue|;
    }
    if f.pending == 0 { assert f.accepted == F.RanJobs(f.ran) + [] + []; }
  }

  // Sync returns after its wait: level 0 alone holds every memtable that is not lost,
  // and so a key's last value exactly if no lost memtable matters for it.
  lemma SyncIsDurable(steps: seq<Step>, s: Store, key: Key)
    requires Reaches(steps, s) && Enabled(s, SyncReturns)
    ensures AllFlushed(s) && L0Map(s.f.l0) == KeptOf(Fates(s))
    ensures Lookup(L0Map(s.f.l0), key) == Lookup(s.written, key) <==> Unharmed(Fates(s), key)
    ensures Healthy(s.f) ==> L0Map(s.f.l0) == s.written
  {
    hide Fates, Reaches, Unharmed, KeptOf, L0Map, AllOf;
    RunInv(steps, s);
    PendingZero(s.f);
    hide F.Inv;
    FlushedIsLevel0(s);
    UnharmedExact(Fates(s), key);
    assert AllOf(s.frozen) + map[] == AllOf(s.frozen);
  }

  // When the worker has exited, after Stop, level 0 holds every accepted memtable whose
  // job succeeded; if none was refused and none failed that is all but the active one
  // and one in hand.
  lemma ExitIsDurable(steps: seq<Step>, s: Store)
    requires Reaches(steps, s) && s.f.worker.Exited?
    ensures F.RanJobs(s.f.ran) == s.f.accepted && L0Map(s.f.l0) == KeptOf(JobFates(s.f.accepted, s.f.ran))
    ensures Healthy(s.f) && InHand(s) == [] ==> L0Map(s.f.l0) + s.active == s.written
  {
    hide Fates, Reaches, JobFates, RanMap;
    RunInv(steps, s);
    ExitDrained(s.f);
    KeptBelow(s.f);
    assert L0Map(s.f.l0) + map[] == L0Map(s.f.l0);
    if Healthy(s.f) && InHand(s) == [] {
      Level0IsTheKept(s);
      HealthyIsAll(s);
    }
  }

  lemma ExitDrained(f: F.State)
    requires F.Inv(f) && f.worker.Exited?
    ensures f.queue == [] && F.Running(f.worker) == [] && F.RanJobs(f.ran) == f.accepted
  {
    assert f.accepted == F.RanJobs(f.ran) + [] + [];
  }

  // Sync returns at once when the active memtable has size 0.  Everything is flushed
  // then exactly when no earlier job is pending and the empty pair is not active.
  lemma SyncNothingExact(steps: seq<Step>, s: Store)
    requires Reaches(steps, s) && Enabled(s, SyncNothing)
    ensures AllFlushed(s) <==> s.f.pending == 0 && s.active != map[[] := []]
    ensures Healthy(s.f) && s.f.pending == 0 && s.active != map[[] := []] ==> L0Map(s.f.l0) == s.written
  {
    RunInv(steps, s);
    PendingZero(s.f);
    var empty: Key := [];
    assert empty in map[empty := empty];
    if AllFlushed(s) { FlushedIsLevel0(s); }
  }

  // ---------------------------------------------------------------- where data is lost

  lemma Extend(steps: seq<Step>, s: Store, step: Step)
    requires Reaches(steps, s) && Enabled(s, step)
    ensures Reaches(steps + [step], Next(s, step))
  {
    assert (steps + [step])[..|steps|] == steps;
  }

  lemma Do(s: Store, steps: seq<Step>, step: Step) returns (t: Store, steps': seq<Step>)
    requires Reaches(steps, s) && Enabled(s, step)
    ensures t == Next(s, step) && steps' == steps + [step] && Reaches(steps', t)
  {
    Extend(steps, s, step);
    t, steps' := Next(s, step), steps + [step];
  }

  lemma DoInner(s: Store, steps: seq<Step>, inner: F.Step) returns (t: Store, steps': seq<Step>)
    requires Reaches(steps, s) && !inner.Call? && F.Enabled(s.f, inner)
    ensures t == s.(f := F.Next(s.f, inner)) && steps' == steps + [Inner(inner)] && Reaches(steps', t)
  {
    hide Reaches, F.Enabled, F.Next;
    t, steps' := Do(s, steps, Inner(inner));
  }

  function Requesting(f: F.State, table: Table, pc: F.Pc): F.State {
    f.(holder := F.Requester(table, pc))
  }

  // The three steps of requestFlush up to the loop, and the three after the first send.
  lemma RequestBegins(f: F.State, table: Table)
    requires f.holder.Free? && f.waiting == multiset{table} && !f.done
    ensures var g := f.(waiting := multiset{});
            && F.Enabled(f, F.LockRequest(table))
            && F.Next(f, F.LockRequest(table)) == Requesting(g, table, F.CheckDone)
            && F.RequestStep(Requesting(g, table, F.CheckDone)) == Requesting(g, table, F.TakeId)
            && F.RequestStep(Requesting(g, table, F.TakeId)) ==
                 Requesting(g.(nextId := f.nextId + 1), table, F.Attempt(f.nextId + 1, 0))
  {
    assert multiset{table} - multiset{table} == multiset{};
  }

  lemma RequestSends(f: F.State, table: Table, id: nat)
    requires !f.done && |f.queue| < F.QUEUE_CAP
    ensures var sent := f.(queue := f.queue + [F.Job(id, table)],
                           accepted := f.accepted + [F.Job(id, table)], pending := f.pending + 1);
            && F.RequestStep(Requesting(f, table, F.Attempt(id, 0))) == Requesting(f, table, F.Add(id, 0))
            && F.RequestStep(Requesting(f, table, F.Add(id, 0))) ==
                 Requesting(f.(pending := f.pending + 1), table, F.Send(id, 0))
            && F.RequestStep(Requesting(f.(pending := f.pending + 1), table, F.Send(id, 0))) ==
                 Requesting(sent, table, F.Unlock)
            && F.RequestStep(Requesting(sent, table, F.Unlock)) == sent.(holder := F.Free)
  {
  }

  // The steps of a writer whose memtable is full, up to the job in the queue.
  lemma Crossing(s0: Store, steps0: seq<Step>, key: Key, value: Key) returns (steps: seq<Step>, s: Store)
    requires Reaches(steps0, s0) && s0.mode.Idle? && s0.active == map[] && s0.size == 0
    requires s0.f.holder.Free? && s0.f.waiting == multiset{} && !s0.f.done && |s0.f.queue| < F.QUEUE_CAP
    requires |key| + |value| >= MAX_SIZE
    ensures Reaches(steps, s) && s.mode.Idle? && s.size == 0 && s.active == map[]
    ensures s.written == s0.written[key := value]
    ensures var f, job := s0.f, F.Job(s0.f.nextId + 1, map[key := value]);
            s.f == f.(queue := f.queue + [job], accepted := f.accepted + [job], pending := f.pending + 1,
                      nextId := f.nextId + 1)
  {
    hide Reaches, F.RequestStep;
    var table: Table := map[key := value];
    var f, id := s0.f, s0.f.nextId + 1;
    steps, s := CrossingBegins(s0, steps0, key, value);
    RequestSends(f.(nextId := id), table, id);
    s, steps := Do(s, steps, Inner(F.HolderStep));
    s, steps := Do(s, steps, Inner(F.HolderStep));
    s, steps := Do(s, steps, Inner(F.HolderStep));
    s, steps := Do(s, steps, Inner(F.HolderStep));
    s, steps := Do(s, steps, CallReturns);
  }

  // Its first steps, up to the first attempt to send the job.
  lemma CrossingBegins(s0: Store, steps0: seq<Step>, key: Key, value: Key) returns (steps: seq<Step>, s: Store)
    requires Reaches(steps0, s0) && s0.mode.Idle? && s0.active == map[] && s0.size == 0
    requires s0.f.holder.Free? && s0.f.waiting == multiset{} && !s0.f.done && |s0.f.queue| < F.QUEUE_CAP
    requires |key| + |value| >= MAX_SIZE
    ensures var table: Table := map[key := value];
            var id := s0.f.nextId + 1;
            && Reaches(steps, s) && s.mode == Flushing(table, false) && s.size == 0 && s.active == map[]
            && s.written == s0.written[key := value]
            && s.f == Requesting(s0.f.(nextId := id), table, F.Attempt(id, 0))
  {
    hide Reaches, F.RequestStep;
    var table: Table := map[key := value];
    var f, id := s0.f, s0.f.nextId + 1;
    RequestBegins(f.(waiting := multiset{table}), table);
    s, steps := Do(s0, steps0, Write(key, value));
    assert s.f == f.(waiting := multiset{table}) && s.mode == Flushing(table, false);
    s, steps := Do(s, steps, Inner(F.LockRequest(table)));
    s, steps := Do(s, steps, Inner(F.HolderStep));
    s, steps := Do(s, steps, Inner(F.HolderStep));
    assert s.f == Requesting(f.(nextId := id), table, F.Attempt(id, 0));
  }

  lemma CrossingWrite(key: Key, value: Key) returns (steps: seq<Step>, s: Store)
    requires |key| + |value| >= MAX_SIZE
    ensures Reaches(steps, s) && s.mode.Idle? && s.size == 0 && s.written == map[key := value] && s.active == map[]
    ensures var job := F.Job(1, map[key := value]);
            s.f == F.Init().(queue := [job], accepted := [job], pending := 1, nextId := 1)
  {
    hide Reaches;
    Begin();
    steps, s := Crossing(Init(), [], key, value);
  }

  lemma Begin()
    ensures Reaches([], Init())
  {
  }

  // After a write that fills the memtable, Sync returns nil while the job still waits
  // in the queue: nothing has reached level 0.
  lemma SyncTooEarly(key: Key, value: Key)
    requires |key| + |value| >= MAX_SIZE
    ensures exists steps, s ::
              && Reaches(steps, s) && Healthy(s.f) && Enabled(s, SyncNothing) && key in s.written
              && L0Map(s.f.l0) == map[]
  {
    var steps, s := CrossingWrite(key, value);
    assert key in s.written;
  }

  // The empty pair does not count for the size, so Sync never flushes it alone.
  lemma SyncSkipsEmptyPair()
    ensures exists steps, s ::
              && Reaches(steps, s) && Healthy(s.f) && Enabled(s, SyncNothing) && [] in s.written
              && L0Map(s.f.l0) == map[]
  {
    Extend([], Init(), Write([], []));
    var s := Next(Init(), Write([], []));
    assert [] in s.written;
  }

  // A Run that fails is not repeated: the job is gone and its table is in no layer.
  lemma FailedRunLoses(key: Key, value: Key)
    requires |key| + |value| >= MAX_SIZE
    ensures exists steps, s ::
              && Reaches(steps, s) && !s.f.done && key in s.written && s.f.pending == 1
              && Resolve(Layers(s), key) == F.None
  {
    hide Reaches, Layers, Resolve;
    var steps, s := CrossingWrite(key, value);
    s, steps := Do(s, steps, Inner(F.WorkerReceive));
    s, steps := Do(s, steps, Inner(F.WorkerRuns(false)));
    assert s.f.queue == [] && Below(s.f) == map[] && Hand(s) == map[] && s.active == map[];
    assert key !in Visible(s);
    ResolveVisible(s, key);
    assert key in s.written;
  }

  // The steps of Stop up to the wait for the loop.
  lemma StopLocks(f: F.State)
    requires f.holder.Free?
    ensures var a := f.(stopWaiting := f.stopWaiting + 1);
            && F.Enabled(f, F.CallStop) && F.Next(f, F.CallStop) == a
            && F.Enabled(a, F.LockStop) && F.Next(a, F.LockStop) == f.(holder := F.Stopper(false))
  {
  }

  lemma StopCloses(f: F.State)
    requires f.holder == F.Stopper(false)
    ensures var c := f.(done := true, holder := F.Stopper(true));
            && F.Enabled(f, F.HolderStep) && F.Next(f, F.HolderStep) == c
            && F.Enabled(c, F.HolderStep)
            && F.Next(c, F.HolderStep) == f.(done := true, stoppers := f.stoppers + 1, holder := F.Free)
  {
    hide F.RequestStep;
  }

  lemma AfterStop() returns (steps: seq<Step>, s: Store)
    ensures Reaches(steps, s) && s == Init().(f := F.Init().(done := true, stoppers := 1))
  {
    hide Reaches, F.Enabled, F.Next;
    Begin();
    StopLocks(F.Init());
    s, steps := DoInner(Init(), [], F.CallStop);
    s, steps := DoInner(s, steps, F.LockStop);
    StopCloses(s.f);
    s, steps := DoInner(s, steps, F.HolderStep);
    s, steps := DoInner(s, steps, F.HolderStep);
  }

  lemma RequestRefused(f: F.State, table: Table)
    requires f.holder.Free? && f.waiting == multiset{table} && f.done
    ensures var g := f.(waiting := multiset{});
            && F.Enabled(f, F.LockRequest(table))
            && F.Next(f, F.LockRequest(table)) == Requesting(g, table, F.CheckDone)
            && F.RequestStep(Requesting(g, table, F.CheckDone)) ==
                 Requesting(g.(refused := f.refused + [table]), table, F.Unlock)
            && F.RequestStep(Requesting(g.(refused := f.refused + [table]), table, F.Unlock)) ==
                 g.(refused := f.refused + [table])
  {
    assert multiset{table} - multiset{table} == multiset{};
  }

  // A memtable that fills up after Stop is refused by requestFlush and then dropped.
  lemma StopLosesWrites(key: Key, value: Key)
    requires |key| + |value| >= MAX_SIZE
    ensures exists steps, s ::
              && Reaches(steps, s) && s.mode.Idle? && key in s.written
              && Resolve(Layers(s), key) == F.None
  {
    hide Reaches, Layers, Resolve, F.RequestStep;
    var table: Table := map[key := value];
    var steps, s := AfterStop();
    s, steps := Do(s, steps, Write(key, value));
    assert s.f == F.Init().(done := true, stoppers := 1, waiting := multiset{table})
           && s.mode == Flushing(table, false);
    RequestRefused(s.f, table);
    s, steps := DoInner(s, steps, F.LockRequest(table));
    s, steps := DoInner(s, steps, F.HolderStep);
    s, steps := DoInner(s, steps, F.HolderStep);
    s, steps := Do(s, steps, CallReturns);
    assert Below(s.f) == map[] && Hand(s) == map[] && s.active == map[];
    assert key !in Visible(s);
    ResolveVisible(s, key);
    assert key in s.written;
  }
}
