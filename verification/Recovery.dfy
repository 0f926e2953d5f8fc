// From a write to what a restart reads: the write path (LayeredStore), the manifest and
// the table files put together.
//
// A flush writes the memtable as a table file named after the job and then a manifest
// with that file in front of level 0.  A restart parses the manifest, iterates the files
// of level 0 and lets newer ones win.
module Recovery {
  import opened Bytes
  import opened Codec
  import F = FlushProtocol
  import L = LayeredStore
  import M = Manifest
  import S = SstFormat
  import T = SstReader

  datatype Disk = Disk(files: map<nat, Key>, manifest: Option<Key>)

  // ---------------------------------------------------------------- what a restart reads

  function MapOf(pairs: seq<S.Pair>): L.Table {
    if pairs == [] then map[]
    else MapOf(pairs[..|pairs| - 1])[pairs[|pairs| - 1].key := pairs[|pairs| - 1].value]
  }

  function ReadTable(lib: S.Lib, files: map<nat, Key>, id: nat): Option<L.Table> {
    if id !in files then None
    else
      match S.Open(files[id])
      case None => None
      case Some(reader) => Some(MapOf(S.IterateFrom(lib, reader, 0)))
  }

  // readFromSST, one file: its bounds, its filter, and its pairs one after the other.
  function FileValue(lib: S.Lib, files: map<nat, Key>, meta: M.FileMeta, key: Key): Option<Key> {
    if Compare(key, meta.minKey) < 0 || Compare(key, meta.maxKey) > 0 || meta.fileId !in files then None
    else
      match S.Open(files[meta.fileId])
      case None => None
      case Some(r) => if !S.MayContain(lib, r.bloom, key) then None else T.Linear(S.IterateFrom(lib, r, 0), key)
  }

  // The file answers for its table.  The empty key may lie outside the bounds when the
  // memtable has it as nil.
  ghost predicate Answers(lib: S.Lib, files: map<nat, Key>, meta: M.FileMeta, table: L.Table) {
    forall key :: key != [] ==> FileValue(lib, files, meta, key) == if key in table then Some(table[key]) else None
  }

  // Level 0, newest file first.
  function ReadLevel(lib: S.Lib, files: map<nat, Key>, level: seq<M.FileMeta>): Option<L.Table> {
    if level == [] then Some(map[])
    else
      match (ReadLevel(lib, files, level[1..]), ReadTable(lib, files, level[0].fileId))
      case (Some(older), Some(newest)) => Some(older + newest)
      case _ => None
  }

  function Loaded(disk: Disk, crc: M.Crc): Option<M.Version> {
    if disk.manifest.None? then Some(M.Version(0, [])) else M.Parse(disk.manifest.value, crc)
  }

  function Level0(v: M.Version): seq<M.FileMeta> {
    if v.levels == [] then [] else v.levels[0]
  }

  function Recover(lib: S.Lib, crc: M.Crc, disk: Disk): Option<L.Table> {
    match Loaded(disk, crc)
    case None => None
    case Some(v) => ReadLevel(lib, disk.files, Level0(v))
  }

  // ---------------------------------------------------------------- what a flush writes

  // The table file, in key order and any split into blocks, and then the manifest.
  ghost predicate FlushedAs(lib: S.Lib, crc: M.Crc, job: F.Job, disk: Disk, disk': Disk,
                            groups: seq<seq<S.Pair>>, meta: M.FileMeta, num: int64)
  {
    && S.FileFits(lib, groups) && groups != [] && MapOf(S.Flatten(groups)) == job.table
    && T.Increasing(S.Flatten(groups)) && M.InBounds(meta, S.KeysOf(S.Flatten(groups)))
    && meta.fileId == job.id && Loaded(disk, crc).Some?
    && var v := M.Version(num, M.WithFile(Loaded(disk, crc).value.levels, meta));
       M.Fits(v) && disk' == Disk(disk.files[job.id := S.FileOf(lib, groups)], Some(M.Encode(v, crc)))
  }

  // A job that fails can leave a file, but no manifest.
  ghost predicate LeftBehind(job: F.Job, disk: Disk, disk': Disk) {
    && disk'.manifest == disk.manifest
    && forall id :: id in disk.files && id != job.id ==> id in disk'.files && disk'.files[id] == disk.files[id]
  }

  ghost predicate DiskStep(lib: S.Lib, crc: M.Crc, s: L.Store, step: L.Step, disk: Disk, disk': Disk) {
    if step.Inner? && step.step.WorkerRuns? && s.f.worker.Loop? && s.f.worker.task.Run? then
      var job := s.f.worker.task.job;
      if !step.step.ok then LeftBehind(job, disk, disk')
      else if job.table == map[] then disk' == disk
      else exists groups, meta, num :: FlushedAs(lib, crc, job, disk, disk', groups, meta, num)
    else disk' == disk
  }

  ghost predicate Reaches(lib: S.Lib, crc: M.Crc, steps: seq<L.Step>, s: L.Store, disk: Disk) {
    if steps == [] then s == L.Init() && disk == Disk(map[], None)
    else
      var n := |steps| - 1;
      exists before, was :: Reaches(lib, crc, steps[..n], before, was)
        && Follows(lib, crc, before, steps[n], was, s, disk)
  }

  ghost predicate Follows(lib: S.Lib, crc: M.Crc, s: L.Store, step: L.Step, disk: Disk, s': L.Store, disk': Disk) {
    L.Enabled(s, step) && L.Next(s, step) == s' && DiskStep(lib, crc, s, step, disk, disk')
  }

  // ---------------------------------------------------------------- the disk mirrors level 0

  ghost predicate RanAs(ran: seq<F.Result>, id: nat) {
    exists i :: 0 <= i < |ran| && ran[i].job.id == id
  }

  // The files of level 0 read back as its tables and answer for them, and are named
  // after jobs that have run.
  ghost predicate Stored(lib: S.Lib, files: map<nat, Key>, level: seq<M.FileMeta>, f: F.State) {
    && |level| == |f.l0|
    && forall i :: 0 <= i < |level| ==>
         && ReadTable(lib, files, level[i].fileId) == Some(f.l0[i]) && RanAs(f.ran, level[i].fileId)
         && Answers(lib, files, level[i], f.l0[i])
  }

  ghost predicate Mirrors(lib: S.Lib, crc: M.Crc, disk: Disk, f: F.State) {
    && Loaded(disk, crc).Some? && Stored(lib, disk.files, Level0(Loaded(disk, crc).value), f)
    && |Loaded(disk, crc).value.levels| <= 1
  }

  lemma {:induction false} LevelReads(lib: S.Lib, files: map<nat, Key>, level: seq<M.FileMeta>, l0: seq<L.Table>)
    requires |level| == |l0| && forall i :: 0 <= i < |level| ==> ReadTable(lib, files, level[i].fileId) == Some(l0[i])
    ensures ReadLevel(lib, files, level) == Some(L.L0Map(l0))
  {
    hide ReadTable;
    if level != [] { LevelReads(lib, files, level[1..], l0[1..]); }
  }

  // A job that runs has an id of its own.
  lemma FreshId(f: F.State)
    requires F.Inv(f) && f.worker.Loop? && f.worker.task.Run?
    ensures !RanAs(f.ran, f.worker.task.job.id)
  {
    hide F.CounterExact, F.DoneSeen, F.Bounded, F.LastFailure;
    var jobs, job := F.RanJobs(f.ran), f.worker.task.job;
    assert f.accepted == jobs + [job] + f.queue;
    assert f.accepted[|jobs|] == job;
    forall i | 0 <= i < |f.ran| ensures f.ran[i].job.id != job.id {
      assert f.accepted[i] == jobs[i] == f.ran[i].job;
    }
  }

  lemma FileReads(lib: S.Lib, files: map<nat, Key>, id: nat, groups: seq<seq<S.Pair>>)
    requires S.Lawful(lib) && S.FileFits(lib, groups) && groups != []
    ensures ReadTable(lib, files[id := S.FileOf(lib, groups)], id) == Some(MapOf(S.Flatten(groups)))
  {
    hide MapOf, S.FileOf, S.Open, S.IterateFrom, S.Lawful;
    S.IterationRoundTrip(lib, groups);
  }

  lemma {:induction false} LinearSnoc(ps: seq<S.Pair>, p: S.Pair, key: Key)
    ensures T.Linear(ps + [p], key) ==
            if T.Linear(ps, key).Some? then T.Linear(ps, key) else if p.key == key then Some(p.value) else None
  {
    if ps == [] {
      assert ([] + [p])[1..] == [];
    } else {
      assert (ps + [p])[1..] == ps[1..] + [p];
      LinearSnoc(ps[1..], p, key);
    }
  }

  // In key order the first hit is the only one.
  lemma {:induction false} LinearIsMap(ps: seq<S.Pair>, key: Key)
    requires T.Increasing(ps)
    ensures T.Linear(ps, key) == if key in MapOf(ps) then Some(MapOf(ps)[key]) else None
    ensures key in MapOf(ps) <==> key in S.KeysOf(ps)
  {
    hide Rank;
    if ps != [] {
      var n := |ps| - 1;
      LinearIsMap(ps[..n], key);
      LinearSnoc(ps[..n], ps[n], key);
      assert ps == ps[..n] + [ps[n]] && S.KeysOf(ps) == S.KeysOf(ps[..n]) + [ps[n].key];
    }
  }

  lemma FileAnswers(lib: S.Lib, files: map<nat, Key>, meta: M.FileMeta, groups: seq<seq<S.Pair>>)
    requires S.Lawful(lib) && S.FileFits(lib, groups) && groups != []
    requires T.Increasing(S.Flatten(groups)) && M.InBounds(meta, S.KeysOf(S.Flatten(groups)))
    ensures Answers(lib, files[meta.fileId := S.FileOf(lib, groups)], meta, MapOf(S.Flatten(groups)))
  {
    hide MapOf, S.FileOf, S.Open, S.IterateFrom, S.Lawful, S.GroupsFit, S.MayContain, T.Linear, T.Increasing, Rank;
    var ps := S.Flatten(groups);
    S.OpensFile(lib, groups);
    S.IterationRoundTrip(lib, groups);
    forall key | key != []
      ensures FileValue(lib, files[meta.fileId := S.FileOf(lib, groups)], meta, key) ==
              if key in MapOf(ps) then Some(MapOf(ps)[key]) else None
    {
      LinearIsMap(ps, key);
      CompareIsRankOrder(key, meta.minKey);
      CompareIsRankOrder(key, meta.maxKey);
      if key in S.KeysOf(ps) { S.NeverMissed(lib, S.Zeros(S.BloomSize(|S.KeysOf(ps)|)), S.KeysOf(ps), key); }
    }
  }

  lemma FlushMirrors(lib: S.Lib, crc: M.Crc, disk: Disk, disk': Disk, f: F.State, f': F.State,
                     groups: seq<seq<S.Pair>>, meta: M.FileMeta, num: int64)
    requires S.Lawful(lib) && Mirrors(lib, crc, disk, f) && F.Inv(f) && f.worker.Loop? && f.worker.task.Run?
    requires var job := f.worker.task.job;
             && FlushedAs(lib, crc, job, disk, disk', groups, meta, num)
             && f'.l0 == [job.table] + f.l0 && f'.ran == f.ran + [F.Result(job, true)]
    ensures Mirrors(lib, crc, disk', f')
  {
    hide F.Inv, S.FileFits, S.Lawful, MapOf, M.Parse, M.Encode, S.FileOf, S.Open, S.IterateFrom, Answers, T.Increasing;
    var job, old0 := f.worker.task.job, Loaded(disk, crc).value;
    var v := M.Version(num, M.WithFile(old0.levels, meta));
    M.RoundTrip(v, crc);
    FileReads(lib, disk.files, job.id, groups);
    FileAnswers(lib, disk.files, meta, groups);
    FreshId(f);
    var level, level' := Level0(old0), Level0(v);
    assert level' == [meta] + level;
    assert RanAs(f'.ran, job.id) by { assert f'.ran[|f.ran|].job.id == job.id; }
    forall i | 0 <= i < |level'|
      ensures ReadTable(lib, disk'.files, level'[i].fileId) == Some(f'.l0[i]) && RanAs(f'.ran, level'[i].fileId)
      ensures Answers(lib, disk'.files, level'[i], f'.l0[i])
    {
      if i > 0 {
        assert level'[i] == level[i - 1];
        SameFile(lib, disk.files, disk'.files, level[i - 1], f.l0[i - 1]);
        RanStays(f.ran, f'.ran, level[i - 1].fileId);
      }
    }
  }

  // A file that is left alone answers as before.
  lemma SameFile(lib: S.Lib, files: map<nat, Key>, files': map<nat, Key>, meta: M.FileMeta, table: L.Table)
    requires Answers(lib, files, meta, table)
    requires meta.fileId in files ==> meta.fileId in files' && files'[meta.fileId] == files[meta.fileId]
    requires meta.fileId !in files ==> meta.fileId !in files'
    ensures Answers(lib, files', meta, table)
  {
    hide S.Open, S.IterateFrom, S.MayContain, T.Linear;
    forall key | key != [] ensures FileValue(lib, files', meta, key) == FileValue(lib, files, meta, key) { }
  }

  lemma RanStays(ran: seq<F.Result>, ran': seq<F.Result>, id: nat)
    requires RanAs(ran, id) && ran <= ran'
    ensures RanAs(ran', id)
  {
    var i :| 0 <= i < |ran| && ran[i].job.id == id;
    assert ran'[i] == ran[i];
  }

  // Level 0 stays, and other files may come.
  lemma SameMirrors(lib: S.Lib, crc: M.Crc, disk: Disk, disk': Disk, f: F.State, f': F.State)
    requires Mirrors(lib, crc, disk, f) && f'.l0 == f.l0 && f.ran <= f'.ran && disk'.manifest == disk.manifest
    requires forall id :: id in disk.files && RanAs(f.ran, id) ==>
               id in disk'.files && disk'.files[id] == disk.files[id]
    ensures Mirrors(lib, crc, disk', f')
  {
    hide MapOf, M.Parse, S.Open, S.IterateFrom, RanAs, Answers;
    var level := Level0(Loaded(disk, crc).value);
    forall i | 0 <= i < |level|
      ensures ReadTable(lib, disk'.files, level[i].fileId) == Some(f.l0[i]) && RanAs(f'.ran, level[i].fileId)
      ensures Answers(lib, disk'.files, level[i], f.l0[i])
    {
      SameFile(lib, disk.files, disk'.files, level[i], f.l0[i]);
      RanStays(f.ran, f'.ran, level[i].fileId);
    }
  }

  lemma QuietStep(f: F.State, inner: F.Step)
    requires F.Enabled(f, inner) && !inner.WorkerRuns?
    ensures F.Next(f, inner).l0 == f.l0 && F.Next(f, inner).ran == f.ran
  {
    hide F.RequestStep;
    if inner.HolderStep? && f.holder.Requester? { F.RequestFrame(f); }
  }

  lemma StoreStep(s: L.Store, step: L.Step)
    requires L.Enabled(s, step) && !(step.Inner? && step.step.WorkerRuns?)
    ensures L.Next(s, step).f.l0 == s.f.l0 && L.Next(s, step).f.ran == s.f.ran
  {
    hide F.Next, F.Enabled;
    match step
    case Inner(inner) => QuietStep(s.f, inner);
    case Write(key, value) => L.CallOnly(s.f, s.active[key := value]);
    case SyncBegin => L.CallOnly(s.f, s.active);
    case _ =>
  }

  lemma RunStep(s: L.Store, step: L.Step)
    requires L.Enabled(s, step) && step.Inner? && step.step.WorkerRuns?
    ensures s.f.worker.Loop? && s.f.worker.task.Run?
    ensures var f', job := L.Next(s, step).f, s.f.worker.task.job;
            && f'.ran == s.f.ran + [F.Result(job, step.step.ok)]
            && f'.l0 == if step.step.ok && job.table != map[] then [job.table] + s.f.l0 else s.f.l0
  {
  }

  lemma StepMirrors(lib: S.Lib, crc: M.Crc, s: L.Store, step: L.Step, disk: Disk, s': L.Store, disk': Disk)
    requires S.Lawful(lib) && L.Inv(s) && Mirrors(lib, crc, disk, s.f) && Follows(lib, crc, s, step, disk, s', disk')
    ensures Mirrors(lib, crc, disk', s'.f)
  {
    hide Mirrors, F.Inv, L.Recorded, L.OneCaller, L.Sized, S.Lawful, FlushedAs, L.Next, L.Enabled, RanAs;
    if step.Inner? && step.step.WorkerRuns? {
      RunStep(s, step);
      var job := s.f.worker.task.job;
      if step.step.ok && job.table != map[] {
        var groups, meta, num :| FlushedAs(lib, crc, job, disk, disk', groups, meta, num);
        FlushMirrors(lib, crc, disk, disk', s.f, s'.f, groups, meta, num);
      } else {
        FreshId(s.f);
        SameMirrors(lib, crc, disk, disk', s.f, s'.f);
      }
    } else {
      StoreStep(s, step);
      SameMirrors(lib, crc, disk, disk', s.f, s'.f);
    }
  }

  lemma {:induction false} RunMirrors(lib: S.Lib, crc: M.Crc, steps: seq<L.Step>, s: L.Store, disk: Disk)
    requires S.Lawful(lib) && Reaches(lib, crc, steps, s, disk)
    ensures L.Reaches(steps, s) && Mirrors(lib, crc, disk, s.f)
  {
    hide Mirrors, DiskStep, L.Next, L.Enabled, S.Lawful;
    if steps == [] {
      assert Mirrors(lib, crc, disk, s.f) by { NothingStored(lib, crc); }
    } else {
      var n := |steps| - 1;
      var before, was :| Reaches(lib, crc, steps[..n], before, was)
        && Follows(lib, crc, before, steps[n], was, s, disk);
      RunMirrors(lib, crc, steps[..n], before, was);
      L.RunInv(steps[..n], before);
      StepMirrors(lib, crc, before, steps[n], was, s, disk);
    }
  }

  lemma NothingStored(lib: S.Lib, crc: M.Crc)
    ensures Mirrors(lib, crc, Disk(map[], None), L.Init().f)
  {
  }

  // ---------------------------------------------------------------- Sync and restart

  // At every point of every run a restart reads the merged tables of level 0.
  lemma RestartReadsLevel0(lib: S.Lib, crc: M.Crc, steps: seq<L.Step>, s: L.Store, disk: Disk)
    requires S.Lawful(lib) && Reaches(lib, crc, steps, s, disk)
    ensures Recover(lib, crc, disk) == Some(L.L0Map(s.f.l0))
  {
    hide Reaches, ReadTable, L.L0Map, ReadLevel, Loaded;
    RunMirrors(lib, crc, steps, s, disk);
    LevelReads(lib, disk.files, Level0(Loaded(disk, crc).value), s.f.l0);
  }

  // After Sync has waited, a restart reads the memtables that are not lost; if none was
  // refused and every Run succeeded, it reads exactly the map of all writes.
  lemma SyncThenRestart(lib: S.Lib, crc: M.Crc, steps: seq<L.Step>, s: L.Store, disk: Disk)
    requires S.Lawful(lib) && Reaches(lib, crc, steps, s, disk) && L.Enabled(s, L.SyncReturns)
    ensures Recover(lib, crc, disk) == Some(L.KeptOf(L.Fates(s)))
    ensures L.Healthy(s.f) ==> Recover(lib, crc, disk) == Some(s.written)
  {
    hide Reaches, Recover, L.Reaches, L.L0Map, L.KeptOf, L.Fates, L.Unharmed, L.AllFlushed;
    RestartReadsLevel0(lib, crc, steps, s, disk);
    RunMirrors(lib, crc, steps, s, disk);
    L.SyncIsDurable(steps, s, []);
  }
}
