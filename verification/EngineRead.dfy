// engine.Read (internal/ENG/LS/engine.go): the active memtable first, then the files of
// level 0.  A frozen memtable is out of its sight while its job waits or runs, and the
// files are searched from the back, where the oldest one is.
module EngineRead {
  import opened Bytes
  import C = Codec
  import F = FlushProtocol
  import L = LayeredStore
  import M = Manifest
  import R = Recovery
  import S = SstFormat
  import T = SstReader

  // readFromSST on the tables of level 0, newest first.
  function FromBack(files: seq<L.Table>, key: Key): F.Option<Key> {
    if files == [] then F.None
    else
      var n := |files| - 1;
      if key in files[n] then F.Some(files[n][key]) else FromBack(files[..n], key)
  }

  // The memtables are the active one and, inside requestFlush, the frozen one.
  function Read(s: L.Store, key: Key): F.Option<Key> {
    if key in s.active then F.Some(s.active[key])
    else if s.mode.Flushing? && key in s.mode.table then F.Some(s.mode.table[key])
    else FromBack(s.f.l0, key)
  }

  // ---------------------------------------------------------------- versions of a key

  // The values of the key, one for each table that holds it.
  function Versions(tables: seq<L.Table>, key: Key): seq<Key> {
    if tables == [] then []
    else
      var n := |tables| - 1;
      Versions(tables[..n], key) + if key in tables[n] then [tables[n][key]] else []
  }

  function Last(values: seq<Key>): F.Option<Key> {
    if values == [] then F.None else F.Some(values[|values| - 1])
  }

  lemma {:induction false} LastOfAll(tables: seq<L.Table>, key: Key)
    ensures L.Lookup(L.AllOf(tables), key) == Last(Versions(tables, key))
  {
    if tables != [] { LastOfAll(tables[..|tables| - 1], key); }
  }

  lemma {:induction false} LastOfFiles(files: seq<L.Table>, key: Key)
    ensures FromBack(files, key) == Last(Versions(files, key))
  {
    if files != [] { LastOfFiles(files[..|files| - 1], key); }
  }

  // ---------------------------------------------------------------- the frozen memtable in hand

  lemma {:induction false} HandIsNewest(steps: seq<L.Step>, s: L.Store)
    requires L.Reaches(steps, s) && s.mode.Flushing?
    ensures s.frozen != [] && s.frozen[|s.frozen| - 1] == s.mode.table
  {
    hide L.Next, L.Enabled;
    if steps != [] {
      var n := |steps| - 1;
      var before :| L.Reaches(steps[..n], before) && L.Enabled(before, steps[n]) && L.Next(before, steps[n]) == s;
      if before.mode.Flushing? { HandIsNewest(steps[..n], before); }
      HandStep(before, steps[n]);
    }
  }

  lemma HandStep(s: L.Store, step: L.Step)
    requires L.Enabled(s, step)
    requires s.mode.Flushing? ==> s.frozen != [] && s.frozen[|s.frozen| - 1] == s.mode.table
    ensures var s' := L.Next(s, step);
            s'.mode.Flushing? ==> s'.frozen != [] && s'.frozen[|s'.frozen| - 1] == s'.mode.table
  {
    hide F.Next, F.Enabled;
  }

  lemma {:induction false} KeptInAll(fates: seq<L.Fate>, key: Key)
    requires key in L.KeptOf(fates)
    ensures key in L.AllOf(L.TablesOf(fates))
  {
    if fates != [] {
      var n := |fates| - 1;
      assert L.TablesOf(fates)[..n] == L.TablesOf(fates[..n]);
      if key in L.KeptOf(fates[..n]) { KeptInAll(fates[..n], key); }
    }
  }

  lemma {:induction false} QueueKeeps(base: L.Table, queue: seq<F.Job>, key: Key)
    requires key in base
    ensures key in L.Queued(base, queue)
  {
    if queue != [] { QueueKeeps(base, queue[..|queue| - 1], key); }
  }

  // A file holds no key that was never frozen.
  lemma FilesAreFrozen(steps: seq<L.Step>, s: L.Store, key: Key)
    requires L.Reaches(steps, s) && key in L.L0Map(s.f.l0)
    ensures key in L.AllOf(s.frozen)
  {
    hide L.Reaches, L.Fates, L.KeptOf, L.AllOf, F.Inv, L.Hand, L.RunningTable;
    L.RunInv(steps, s);
    L.KeptVisible(s);
    QueueKeeps(L.L0Map(s.f.l0) + L.RunningTable(s.f.worker), s.f.queue, key);
    KeptInAll(L.Fates(s), key);
  }

  // ---------------------------------------------------------------- when Read is right

  // At every point of every run Read returns the last value written exactly if it is
  // active or in hand, or the key was never frozen, or the oldest file with the key has
  // the value that was frozen last.
  lemma ReadExact(steps: seq<L.Step>, s: L.Store, key: Key)
    requires L.Reaches(steps, s)
    ensures var files, all := Versions(s.f.l0, key), Versions(s.frozen, key);
            Read(s, key) == L.Lookup(s.written, key) <==>
              || key in s.active || (s.mode.Flushing? && key in s.mode.table)
              || all == [] || (files != [] && files[|files| - 1] == all[|all| - 1])
  {
    hide L.Reaches;
    L.LayersAreTheKept(steps, s, key);
    LastOfAll(s.frozen, key);
    LastOfFiles(s.f.l0, key);
    if s.mode.Flushing? { HandIsNewest(steps, s); }
    if Versions(s.f.l0, key) != [] {
      InFiles(s.f.l0, key);
      FilesAreFrozen(steps, s, key);
    }
  }

  lemma {:induction false} InFiles(files: seq<L.Table>, key: Key)
    ensures Versions(files, key) != [] <==> key in L.L0Map(files)
  {
    if files != [] {
      InFiles(files[1..], key);
      VersionsFront(files[0], files[1..], key);
      assert [files[0]] + files[1..] == files;
    }
  }

  lemma {:induction false} VersionsFront(table: L.Table, tables: seq<L.Table>, key: Key)
    ensures Versions([table] + tables, key) == (if key in table then [table[key]] else []) + Versions(tables, key)
  {
    if tables == [] {
      assert [table] + tables == [table] && [table][..0] == [];
    } else {
      var n := |tables| - 1;
      assert ([table] + tables)[..n + 1] == [table] + tables[..n];
      VersionsFront(table, tables[..n], key);
    }
  }

  // ---------------------------------------------------------------- after Sync

  // The files that the jobs have written, newest first.
  function FilesOf(ran: seq<F.Result>): seq<L.Table> {
    if ran == [] then []
    else
      var n := |ran| - 1;
      (if ran[n].ok && ran[n].job.table != map[] then [ran[n].job.table] else []) + FilesOf(ran[..n])
  }

  lemma {:induction false} FilesWritten(steps: seq<L.Step>, s: L.Store)
    requires L.Reaches(steps, s)
    ensures s.f.l0 == FilesOf(s.f.ran)
  {
    if steps != [] {
      var n := |steps| - 1;
      var before :| L.Reaches(steps[..n], before) && L.Enabled(before, steps[n]) && L.Next(before, steps[n]) == s;
      FilesWritten(steps[..n], before);
      FileStep(before, steps[n]);
    }
  }

  lemma FileStep(s: L.Store, step: L.Step)
    requires L.Enabled(s, step) && s.f.l0 == FilesOf(s.f.ran)
    ensures L.Next(s, step).f.l0 == FilesOf(L.Next(s, step).f.ran)
  {
    hide L.Next, L.Enabled;
    if step.Inner? && step.step.WorkerRuns? {
      R.RunStep(s, step);
      FilesSnoc(s.f.ran, F.Result(s.f.worker.task.job, step.step.ok));
    } else {
      R.StoreStep(s, step);
    }
  }

  lemma FilesSnoc(ran: seq<F.Result>, last: F.Result)
    ensures FilesOf(ran + [last]) == if last.ok && last.job.table != map[] then [last.job.table] + FilesOf(ran)
                                     else FilesOf(ran)
  {
    assert (ran + [last])[..|ran|] == ran;
    assert [] + FilesOf(ran) == FilesOf(ran);
  }

  function Reverse(values: seq<Key>): (r: seq<Key>)
    ensures |r| == |values| && forall i :: 0 <= i < |r| ==> r[i] == values[|values| - 1 - i]
  {
    seq(|values|, i requires 0 <= i < |values| => values[|values| - 1 - i])
  }

  function RanTables(ran: seq<F.Result>): (tables: seq<L.Table>)
    ensures |tables| == |ran|
  {
    L.TablesOf(L.JobFates(F.RanJobs(ran), ran))
  }

  lemma RanSnoc(ran: seq<F.Result>)
    requires ran != []
    ensures RanTables(ran)[..|ran| - 1] == RanTables(ran[..|ran| - 1])
    ensures RanTables(ran)[|ran| - 1] == ran[|ran| - 1].job.table
  {
  }

  // Level 0 holds the versions of the key the other way round.
  lemma {:induction false} FilesReverse(ran: seq<F.Result>, key: Key)
    requires forall i :: 0 <= i < |ran| ==> ran[i].ok
    ensures Versions(FilesOf(ran), key) == Reverse(Versions(RanTables(ran), key))
  {
    hide RanTables, Reverse;
    if ran == [] {
      assert Reverse([]) == [];
    } else {
      var n := |ran| - 1;
      var table, older := ran[n].job.table, FilesOf(ran[..n]);
      var mine := if key in table then [table[key]] else [];
      FilesReverse(ran[..n], key);
      RanSnoc(ran);
      VersionsFront(table, older, key);
      assert [] + older == older && [] + Versions(older, key) == Versions(older, key);
      assert Versions(FilesOf(ran), key) == mine + Versions(older, key);
      ReverseSnoc(Versions(RanTables(ran[..n]), key), mine);
    }
  }

  lemma ReverseSnoc(values: seq<Key>, more: seq<Key>)
    requires |more| <= 1
    ensures Reverse(values + more) == more + Reverse(values)
  {
  }

  // After the wait of Sync, if no job failed and none was refused, Read returns the
  // version of a key that was flushed first.  It is the last value written exactly if
  // the first and the last flushed version are the same.
  lemma ReadAfterSync(steps: seq<L.Step>, s: L.Store, key: Key)
    requires L.Reaches(steps, s) && L.Enabled(s, L.SyncReturns) && L.Healthy(s.f)
    ensures var all := Versions(s.frozen, key);
            && Read(s, key) == (if all == [] then F.None else F.Some(all[0]))
            && (Read(s, key) == L.Lookup(s.written, key) <==> all == [] || all[0] == all[|all| - 1])
  {
    hide L.Reaches, F.Inv, Versions;
    L.RunInv(steps, s);
    L.PendingZero(s.f);
    L.SyncIsDurable(steps, s, key);
    FilesWritten(steps, s);
    AllRan(steps, s);
    FilesReverse(s.f.ran, key);
    ReadExact(steps, s, key);
    LastOfFiles(s.f.l0, key);
  }

  lemma AllRan(steps: seq<L.Step>, s: L.Store)
    requires L.Reaches(steps, s) && L.Enabled(s, L.SyncReturns) && L.Healthy(s.f)
    ensures s.active == map[] && (forall i :: 0 <= i < |s.f.ran| ==> s.f.ran[i].ok)
    ensures s.frozen == RanTables(s.f.ran)
  {
    hide L.Reaches;
    L.RunInv(steps, s);
    L.SyncIsDurable(steps, s, []);
    F.LastFailureNone(s.f.ran);
    assert L.Fates(s) == L.JobFates(s.f.accepted, s.f.ran);
  }

  // ---------------------------------------------------------------- two runs

  // A write that fills the memtable is out of sight until its job has run.
  lemma ReadMissesQueued(key: Key, value: Key)
    requires |key| + |value| >= L.MAX_SIZE
    ensures exists steps, s ::
              && L.Reaches(steps, s) && s.mode.Idle? && L.Healthy(s.f) && L.Lookup(s.written, key) == F.Some(value)
              && Read(s, key) == F.None
  {
    hide L.Reaches;
    var steps, s := L.CrossingWrite(key, value);
    assert L.Lookup(s.written, key) == F.Some(value);
  }

  // Two versions of a key in two files: Read returns the older one, although every job
  // has succeeded and none is pending.
  lemma ReadIsStale(key: Key, first: Key, second: Key)
    requires |key| + |first| >= L.MAX_SIZE && |key| + |second| >= L.MAX_SIZE
    ensures exists steps, s ::
              && L.Reaches(steps, s) && s.mode.Idle? && L.Healthy(s.f) && s.f.pending == 0
              && L.Lookup(s.written, key) == F.Some(second) && Read(s, key) == F.Some(first)
  {
    hide L.Reaches;
    assert key in map[key := first] && key in map[key := second];
    var steps, s := L.CrossingWrite(key, first);
    steps, s := RunJob(steps, s, map[key := first]);
    steps, s := L.Crossing(s, steps, key, second);
    steps, s := RunJob(steps, s, map[key := second]);
    assert s.f.l0 == [map[key := second], map[key := first]];
    assert s.f.l0[..1] == [map[key := second]];
    assert L.Lookup(s.written, key) == F.Some(second);
  }

  // The worker runs the only job of the queue.
  lemma RunJob(steps0: seq<L.Step>, s0: L.Store, table: L.Table) returns (steps: seq<L.Step>, s: L.Store)
    requires L.Reaches(steps0, s0) && s0.mode.Idle? && s0.f.worker == F.Loop(false, F.Receive) && s0.f.pending == 1
    requires |s0.f.queue| == 1 && s0.f.queue[0].table == table != map[]
    ensures L.Reaches(steps, s)
    ensures var job := s0.f.queue[0];
            s == s0.(f := s0.f.(queue := [], l0 := [table] + s0.f.l0, ran := s0.f.ran + [F.Result(job, true)],
                                pending := 0))
  {
    hide L.Reaches;
    s, steps := L.Do(s0, steps0, L.Inner(F.WorkerReceive));
    s, steps := L.Do(s, steps, L.Inner(F.WorkerRuns(true)));
    s, steps := L.Do(s, steps, L.Inner(F.WorkerMarks));
    assert s0.f.queue[1..] == [];
  }

  // ---------------------------------------------------------------- the files on disk

  // One level, from its last file to its first.
  function FromFiles(lib: S.Lib, files: map<nat, Key>, level: seq<M.FileMeta>, key: Key): F.Option<Key> {
    if level == [] then F.None
    else
      var n := |level| - 1;
      match R.FileValue(lib, files, level[n], key)
      case Some(value) => F.Some(value)
      case None => FromFiles(lib, files, level[..n], key)
  }

  function FromLevels(lib: S.Lib, files: map<nat, Key>, levels: seq<seq<M.FileMeta>>, key: Key): F.Option<Key> {
    if levels == [] then F.None
    else
      var found := FromFiles(lib, files, levels[0], key);
      if found.Some? then found else FromLevels(lib, files, levels[1..], key)
  }

  // The pairs of a file one after the other.
  method ScanFile(lib: S.Lib, r: S.Reader, key: Key) returns (value: C.Option<Key>)
    ensures value == T.Linear(S.IterateFrom(lib, r, 0), key)
  {
    hide S.DecodeBlock, S.ReadBlock;
    for i := 0 to |r.index|
      invariant T.Linear(S.IterateFrom(lib, r, i), key) == T.Linear(S.IterateFrom(lib, r, 0), key)
    {
      var block := S.ReadBlock(lib, r.data, r.index[i].blockOffset, r.index[i].blockSize);
      if block.None? {
        return C.None;
      }
      var pairs := T.Decode(lib, block.value);
      if pairs.None? || pairs.value == [] {
        return C.None;
      }
      var ps := pairs.value;
      ghost var rest := S.IterateFrom(lib, r, i + 1);
      assert ps[0..] == ps;
      for j := 0 to |ps|
        invariant T.Linear(ps[j..] + rest, key) == T.Linear(ps + rest, key)
      {
        NextPair(ps, j, rest);
        if ps[j].key == key {
          return C.Some(ps[j].value);
        }
      }
      assert ps[|ps|..] + rest == rest;
    }
    return C.None;
  }

  lemma NextPair(ps: seq<S.Pair>, j: nat, rest: seq<S.Pair>)
    requires j < |ps|
    ensures (ps[j..] + rest)[1..] == ps[j + 1..] + rest && (ps[j..] + rest)[0] == ps[j]
  {
  }

  // readFromSST
  method ReadFromSST(lib: S.Lib, files: map<nat, Key>, levels: seq<seq<M.FileMeta>>, key: Key)
    returns (value: F.Option<Key>)
    ensures value == FromLevels(lib, files, levels, key)
  {
    hide S.Open, S.IterateFrom, S.MayContain, T.Linear;
    assert levels[0..] == levels;
    for l := 0 to |levels|
      invariant FromLevels(lib, files, levels[l..], key) == FromLevels(lib, files, levels, key)
    {
      var level := levels[l];
      var i := |level| - 1;
      assert level[..i + 1] == level;
      while i >= 0
        invariant -1 <= i < |level|
        invariant FromFiles(lib, files, level[..i + 1], key) == FromFiles(lib, files, level, key)
      {
        var file := level[i];
        assert level[..i + 1][..i] == level[..i] && level[..i + 1][i] == file;
        i := i - 1;
        if Compare(key, file.minKey) < 0 || Compare(key, file.maxKey) > 0 {
          continue;
        }
        if file.fileId !in files {
          continue;
        }
        var reader := S.Open(files[file.fileId]);
        if reader.None? {
          continue;
        }
        if !S.MayContain(lib, reader.value.bloom, key) {
          continue;
        }
        var found := ScanFile(lib, reader.value, key);
        if found.Some? {
          return F.Some(found.value);
        }
      }
      assert levels[l..][1..] == levels[l + 1..];
    }
    return F.None;
  }

  lemma {:induction false} FilesAsTables(lib: S.Lib, files: map<nat, Key>, level: seq<M.FileMeta>, l0: seq<L.Table>,
                                         key: Key)
    requires key != [] && |level| == |l0|
    requires forall i :: 0 <= i < |level| ==> R.Answers(lib, files, level[i], l0[i])
    ensures FromFiles(lib, files, level, key) == FromBack(l0, key)
  {
    hide R.FileValue;
    if level != [] { FilesAsTables(lib, files, level[..|level| - 1], l0[..|l0| - 1], key); }
  }

  // At every point of every run the files on disk answer as the tables of level 0 do.
  lemma ReadsTheDisk(lib: S.Lib, crc: M.Crc, steps: seq<L.Step>, s: L.Store, disk: R.Disk, key: Key)
    requires S.Lawful(lib) && R.Reaches(lib, crc, steps, s, disk) && key != []
    ensures R.Loaded(disk, crc).Some?
    ensures FromLevels(lib, disk.files, R.Loaded(disk, crc).value.levels, key) == FromBack(s.f.l0, key)
  {
    hide R.Reaches, R.Answers, R.Loaded, R.ReadTable, R.RanAs;
    R.RunMirrors(lib, crc, steps, s, disk);
    var v := R.Loaded(disk, crc).value;
    FilesAsTables(lib, disk.files, R.Level0(v), s.f.l0, key);
    if v.levels != [] { assert v.levels[1..] == []; }
  }
}
