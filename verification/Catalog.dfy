// The persistent catalog (internal/ENG/LS/catalog.go): a cache that is rewritten to a
// file on every change, and what is left of it after failed flushes, crashes and
// restarts.
module Catalog {
  import opened Bytes
  import opened Codec
  import opened CatalogFormat

  const VERSION: byte := 2
  const MAX_ID: uint64 := 0xFFFF_FFFF_FFFF_FFFF

  datatype Mem = Mem(cache: map<uint64, Entry>, byName: map<Key, uint64>, nextId: uint64)

  function Empty(): Mem {
    Mem(map[], map[], 1)
  }

  // ---------------------------------------------------------------- the file

  function Magic(): Key {
    [82, 67, 65, 84]
  }

  function EntriesOf(cache: map<uint64, Entry>, ids: seq<uint64>): (es: seq<Entry>)
    requires forall i :: 0 <= i < |ids| ==> ids[i] in cache
    ensures |es| == |ids| && forall i :: 0 <= i < |ids| ==> es[i] == cache[ids[i]]
  {
    seq(|ids|, i requires 0 <= i < |ids| => cache[ids[i]])
  }

  // flushLocked, with the ids in the order in which they are written.
  function FileOf(nextId: uint64, entries: seq<Entry>): Key {
    Magic() + [VERSION, 0, 0, 0, 0] + BigEndian(nextId, 8, WriteItems(WriteEntry, entries, []))
  }

  // bootstrap, one entry.
  function Add(m: Mem, e: Entry): Mem {
    Mem(m.cache[e.tableId := e], m.byName[e.name := e.tableId],
        if e.tableId >= m.nextId then (e.tableId + 1) % 0x1_0000_0000_0000_0000 else m.nextId)
  }

  function AddAll(m: Mem, es: seq<Entry>): Mem
    decreases es
  {
    if es == [] then m else AddAll(Add(m, es[0]), es[1..])
  }

  function Started(m: Mem): Mem {
    if m.nextId == 0 then m.(nextId := 1) else m
  }

  // bootstrap; None stands for its errors.
  function Load(data: Key): Option<Mem> {
    if |data| < 17 || data[..4] != Magic() || data[4] > VERSION then None
    else
      match ReadBig(data[9..], 8)
      case None => None
      case Some(next) =>
        match ReadItems(ReadEntry, next.1)
        case None => None
        case Some(es) => Some(Started(AddAll(Mem(map[], map[], next.0 % 0x1_0000_0000_0000_0000), es.0)))
  }

  function LoadFile(disk: Option<Key>): Option<Mem> {
    if disk.None? then Some(Empty()) else Load(disk.value)
  }

  // ---------------------------------------------------------------- the cache

  // byName is the inverse of the names in the cache.
  ghost predicate Named(m: Mem) {
    && (forall id :: id in m.cache ==>
          m.cache[id].tableId == id && m.cache[id].name in m.byName && m.byName[m.cache[id].name] == id)
    && (forall name :: name in m.byName ==> m.byName[name] in m.cache && m.cache[m.byName[name]].name == name)
  }

  // The sizes the format can hold.
  ghost predicate Storable(cache: map<uint64, Entry>) {
    |cache| < LIMIT && forall id :: id in cache ==> EntryFits(cache[id])
  }

  ghost predicate Sound(m: Mem) {
    Named(m) && Storable(m.cache)
  }

  // Every id of the cache once, in increasing order.
  ghost predicate Lists(ids: seq<uint64>, cache: map<uint64, Entry>) {
    && (forall i, j :: 0 <= i < j < |ids| ==> ids[i] < ids[j])
    && (forall id :: id in cache <==> id in ids)
  }

  // The cache with the column types as the file keeps them.
  ghost function NormCache(cache: map<uint64, Entry>): map<uint64, Entry> {
    map id | id in cache :: NormEntry(cache[id])
  }

  ghost function Norm(m: Mem): Mem {
    m.(cache := NormCache(m.cache))
  }

  // The counter that a restart finds: past every id, or 1 if an id is the largest number.
  ghost predicate CounterLoaded(m: Mem, loaded: Mem) {
    && loaded.nextId >= 1
    && (if MAX_ID in m.cache then loaded.nextId == 1
        else
          && loaded.nextId >= m.nextId && (forall id :: id in m.cache ==> id < loaded.nextId)
          && (m.nextId > 0 && (forall id :: id in m.cache ==> id < m.nextId) ==> loaded.nextId == m.nextId))
  }

  // The same tables.
  ghost predicate SameTables(m: Mem, loaded: Mem) {
    loaded.cache == NormCache(m.cache) && loaded.byName == m.byName && CounterLoaded(m, loaded)
  }

  // The file on disk holds the tables of m.
  ghost predicate OnDisk(m: Mem, disk: Option<Key>) {
    LoadFile(disk).Some? && SameTables(m, LoadFile(disk).value)
  }

  ghost predicate Within(part: Mem, m: Mem) {
    && (forall id :: id in part.cache ==> id in m.cache && part.cache[id] == m.cache[id])
    && (forall name :: name in part.byName ==> name in m.byName && part.byName[name] == m.byName[name])
  }

  lemma AddsOne(part: Mem, e: Entry, m: Mem)
    requires Named(m) && Within(part, m) && e.tableId in m.cache && m.cache[e.tableId] == e
    ensures Within(Add(part, e), m)
  {
  }

  lemma {:induction false} AddsAll(part: Mem, es: seq<Entry>, m: Mem)
    requires Named(m) && Within(part, m)
    requires forall i :: 0 <= i < |es| ==> es[i].tableId in m.cache && m.cache[es[i].tableId] == es[i]
    ensures var done := AddAll(part, es);
            && Within(done, m)
            && (forall id :: id in part.cache ==> id in done.cache)
            && (forall name :: name in part.byName ==> name in done.byName)
            && (forall i :: 0 <= i < |es| ==> es[i].tableId in done.cache && es[i].name in done.byName)
    decreases es
  {
    hide Named, Within;
    if es != [] {
      AddsOne(part, es[0], m);
      AddsAll(Add(part, es[0]), es[1..], m);
    }
  }

  // The counter after ids below the largest one ...
  lemma {:induction false} CountsOn(part: Mem, es: seq<Entry>)
    requires forall i :: 0 <= i < |es| ==> es[i].tableId < MAX_ID
    ensures var done := AddAll(part, es);
            && done.nextId >= part.nextId
            && (forall i :: 0 <= i < |es| ==> es[i].tableId < done.nextId)
            && ((forall i :: 0 <= i < |es| ==> es[i].tableId < part.nextId) ==> done.nextId == part.nextId)
    decreases es
  {
    if es != [] { CountsOn(Add(part, es[0]), es[1..]); }
  }

  // ... and after the largest one.
  lemma {:induction false} WrapsAround(part: Mem, es: seq<Entry>)
    requires es != [] && es[|es| - 1].tableId == MAX_ID
    ensures AddAll(part, es).nextId == 0
    decreases es
  {
    if |es| == 1 {
      assert es[1..] == [];
    } else {
      WrapsAround(Add(part, es[0]), es[1..]);
    }
  }

  lemma AddsCache(m: Mem, ids: seq<uint64>)
    requires Named(m) && Lists(ids, m.cache)
    ensures var done := Started(AddAll(Mem(map[], map[], m.nextId), EntriesOf(m.cache, ids)));
            done.cache == m.cache && done.byName == m.byName && CounterLoaded(m, done)
  {
    var es, none := EntriesOf(m.cache, ids), Mem(map[], map[], m.nextId);
    var done := AddAll(none, es);
    AddsAll(none, es, m);
    forall id | id in m.cache ensures id in done.cache && m.cache[id].name in done.byName {
      var i :| 0 <= i < |ids| && ids[i] == id;
      assert es[i].tableId == id;
    }
    hide AddAll;
    SameMaps(m, done);
    CounterAdds(m, ids);
  }

  lemma CounterAdds(m: Mem, ids: seq<uint64>)
    requires Named(m) && Lists(ids, m.cache)
    ensures CounterLoaded(m, Started(AddAll(Mem(map[], map[], m.nextId), EntriesOf(m.cache, ids))))
  {
    hide AddAll;
    var es, none := EntriesOf(m.cache, ids), Mem(map[], map[], m.nextId);
    if MAX_ID in m.cache {
      LastIsLargest(ids, MAX_ID);
      WrapsAround(none, es);
    } else {
      forall i | 0 <= i < |es| ensures es[i].tableId == ids[i] < MAX_ID { assert ids[i] in ids; }
      CountsOn(none, es);
      var done := AddAll(none, es);
      forall id | id in m.cache ensures id < done.nextId {
        var i :| 0 <= i < |ids| && ids[i] == id;
        assert es[i].tableId == id;
      }
    }
  }

  lemma LastIsLargest(ids: seq<uint64>, top: uint64)
    requires top in ids && forall i :: 0 <= i < |ids| ==> ids[i] <= top
    requires forall i, j :: 0 <= i < j < |ids| ==> ids[i] < ids[j]
    ensures ids[|ids| - 1] == top
  {
    var i :| 0 <= i < |ids| && ids[i] == top;
    if i < |ids| - 1 { assert ids[i] < ids[|ids| - 1]; }
  }

  lemma SameMaps(m: Mem, done: Mem)
    requires Named(m) && Within(done, m) && forall id :: id in m.cache ==>
               id in done.cache && m.cache[id].name in done.byName
    ensures done.cache == m.cache && done.byName == m.byName
  {
    forall name | name in m.byName ensures name in done.byName { assert m.byName[name] in m.cache; }
    assert done.cache.Keys == m.cache.Keys && done.byName.Keys == m.byName.Keys;
  }

  lemma EntriesBack(es: seq<Entry>)
    requires |es| < LIMIT && forall i :: 0 <= i < |es| ==> EntryFits(es[i])
    ensures ReadItems(ReadEntry, WriteItems(WriteEntry, es, [])) == Some((Map(NormEntry, es), []))
  {
    hide EntryFits, ReadItems, WriteItems, NormEntry, ReadEntry, WriteEntry;
    forall i | 0 <= i < |es| ensures Undoes(ReadEntry, WriteEntry, NormEntry, es[i]) {
      EntryRoundTrip(es[i], []);
      forall k ensures ReadEntry(WriteEntry(es[i], k)) == Some((NormEntry(es[i]), k)) { EntryRoundTrip(es[i], k); }
    }
    ReadsItems(ReadEntry, WriteEntry, NormEntry, es, []);
  }

  lemma NormNamed(m: Mem)
    requires Named(m)
    ensures Named(Norm(m))
  {
  }

  lemma NormEntries(cache: map<uint64, Entry>, ids: seq<uint64>)
    requires forall i :: 0 <= i < |ids| ==> ids[i] in cache
    ensures EntriesOf(NormCache(cache), ids) == Map(NormEntry, EntriesOf(cache, ids))
  {
    hide NormEntry;
  }

  // What flushLocked writes, bootstrap reads back.
  lemma FileRoundTrip(m: Mem, ids: seq<uint64>)
    requires Sound(m) && Lists(ids, m.cache) && |ids| < LIMIT
    ensures OnDisk(m, Some(FileOf(m.nextId, EntriesOf(m.cache, ids))))
  {
    hide EntryFits, FileOf, Load, Named, AddAll, NormEntry, CounterLoaded;
    var es := EntriesOf(m.cache, ids);
    forall i | 0 <= i < |es| ensures EntryFits(es[i]) { assert ids[i] in m.cache; }
    FileLoads(m.nextId, es);
    NormNamed(m);
    NormEntries(m.cache, ids);
    AddsCache(Norm(m), ids);
    NormCounter(m, Load(FileOf(m.nextId, es)).value);
  }

  // The header and the entries are read back; the entries go into empty maps.
  lemma FileLoads(nextId: uint64, es: seq<Entry>)
    requires |es| < LIMIT && forall i :: 0 <= i < |es| ==> EntryFits(es[i])
    ensures Load(FileOf(nextId, es)) == Some(Started(AddAll(Mem(map[], map[], nextId), Map(NormEntry, es))))
  {
    hide EntryFits, ReadItems, WriteItems, BigEndian, ReadBig, AddAll, NormEntry;
    var items := WriteItems(WriteEntry, es, []);
    var data := FileOf(nextId, es);
    ReadsBig64(nextId, items);
    assert data[..4] == Magic() && data[9..] == BigEndian(nextId, 8, items);
    EntriesBack(es);
  }

  lemma NormCounter(m: Mem, loaded: Mem)
    requires CounterLoaded(Norm(m), loaded)
    ensures CounterLoaded(m, loaded)
  {
    hide NormEntry;
    assert forall id :: id in m.cache <==> id in Norm(m).cache;
  }

  // The file gives back the cache as it is exactly if every column type fits its byte.
  lemma NormCacheSame(cache: map<uint64, Entry>)
    requires forall id :: id in cache ==> EntryFits(cache[id])
    ensures NormCache(cache) == cache <==> forall id :: id in cache ==> TypesFit(cache[id])
  {
    hide EntryFits, TypesFit, NormEntry;
    forall id | id in cache ensures NormEntry(cache[id]) == cache[id] <==> TypesFit(cache[id]) {
      EntryRoundTrip(cache[id], []);
    }
    if NormCache(cache) == cache {
      forall id | id in cache ensures TypesFit(cache[id]) { assert NormCache(cache)[id] == cache[id]; }
    }
  }

  // ---------------------------------------------------------------- operations

  datatype Op = NextId | Put(entry: Entry) | Delete(id: uint64) | PutIndex(table: uint64, index: Index)

  function MaxIndexId(xs: seq<Index>): (top: uint64)
    ensures forall i :: 0 <= i < |xs| ==> xs[i].indexId <= top
    ensures top == 0 || exists i :: 0 <= i < |xs| && xs[i].indexId == top
  {
    if xs == [] then 0
    else
      var rest := MaxIndexId(xs[1..]);
      if xs[0].indexId > rest then xs[0].indexId else rest
  }

  // A fresh index id is one more than every index id of the cache.
  ghost predicate FreshIndexId(cache: map<uint64, Entry>, id: uint64) {
    && (forall t :: t in cache ==> MaxIndexId(cache[t].indexes) < id)
    && (id == 1 || exists t :: t in cache && MaxIndexId(cache[t].indexes) + 1 == id)
  }

  predicate HasIndex(xs: seq<Index>, name: Key) {
    exists i :: 0 <= i < |xs| && xs[i].name == name
  }

  // The operation passes its checks and gets to the flush.
  predicate Accepted(m: Mem, op: Op) {
    match op
    case NextId => true
    case Put(e) => e.name != [] && e.createSql != [] && e.name !in m.byName && e.tableId !in m.cache
    case Delete(id) => id in m.cache
    case PutIndex(id, x) => id in m.cache && x.name != [] && !HasIndex(m.cache[id].indexes, x.name)
  }

  // The cache that is flushed; indexId is the id an index without one gets.
  function Applied(m: Mem, op: Op, indexId: uint64): Mem
    requires Accepted(m, op)
  {
    match op
    case NextId => m.(nextId := (m.nextId + 1) % 0x1_0000_0000_0000_0000)
    case Put(e) => m.(cache := m.cache[e.tableId := e], byName := m.byName[e.name := e.tableId])
    case Delete(id) => m.(cache := m.cache - {id}, byName := m.byName - {m.cache[id].name})
    case PutIndex(id, x) =>
      var stored := if x.indexId == 0 then x.(indexId := indexId) else x;
      m.(cache := m.cache[id := m.cache[id].(indexes := m.cache[id].indexes + [stored])])
  }

  // The sizes that the format can hold.
  ghost predicate Holdable(m: Mem, op: Op) {
    match op
    case NextId => true
    case Put(e) => EntryFits(e) && |m.cache| + 1 < LIMIT
    case Delete(_) => true
    case PutIndex(id, x) => IndexFits(x) && (id in m.cache ==> |m.cache[id].indexes| + 1 < LIMIT)
  }

  lemma AppliedNamed(m: Mem, op: Op, indexId: uint64)
    requires Named(m) && Accepted(m, op)
    ensures Named(Applied(m, op, indexId))
  {
  }

  lemma StorableWith(cache: map<uint64, Entry>, id: uint64, e: Entry)
    requires Storable(cache) && EntryFits(e) && (id !in cache ==> |cache| + 1 < LIMIT)
    ensures Storable(cache[id := e])
  {
    hide EntryFits;
    if id in cache {
      assert cache[id := e].Keys == cache.Keys;
      CacheSize(cache[id := e], cache);
    } else {
      assert cache[id := e].Keys == cache.Keys + {id};
    }
  }

  lemma StorableWithout(cache: map<uint64, Entry>, id: uint64)
    requires Storable(cache)
    ensures Storable(cache - {id})
  {
    hide EntryFits;
    assert (cache - {id}).Keys == cache.Keys - {id};
    CacheSize(cache, cache - {id});
  }

  lemma AppliedStorable(m: Mem, op: Op, indexId: uint64)
    requires Storable(m.cache) && Accepted(m, op) && Holdable(m, op)
    ensures Storable(Applied(m, op, indexId).cache)
  {
    hide EntryFits, IndexFits;
    match op
    case NextId =>
    case Put(e) => StorableWith(m.cache, e.tableId, e);
    case Delete(id) => StorableWithout(m.cache, id);
    case PutIndex(id, x) =>
      var stored := if x.indexId == 0 then x.(indexId := indexId) else x;
      var e := m.cache[id];
      IndexFitsWith(x, indexId);
      MoreIndexes(e, stored);
      StorableWith(m.cache, id, e.(indexes := e.indexes + [stored]));
  }

  lemma IndexFitsWith(x: Index, indexId: uint64)
    requires IndexFits(x)
    ensures IndexFits(x.(indexId := indexId))
  {
  }

  lemma MoreIndexes(e: Entry, x: Index)
    requires EntryFits(e) && IndexFits(x) && |e.indexes| + 1 < LIMIT
    ensures EntryFits(e.(indexes := e.indexes + [x]))
  {
    hide IndexFits;
  }

  lemma AppliedSound(m: Mem, op: Op, indexId: uint64)
    requires Sound(m) && Accepted(m, op) && Holdable(m, op)
    ensures Sound(Applied(m, op, indexId))
  {
    hide Named, Storable, Holdable;
    AppliedNamed(m, op, indexId);
    AppliedStorable(m, op, indexId);
  }

  lemma CacheSize(a: map<uint64, Entry>, b: map<uint64, Entry>)
    ensures a.Keys == b.Keys ==> |a| == |b|
    ensures b.Keys <= a.Keys ==> |b| <= |a|
  {
    assert |a| == |a.Keys| && |b| == |b.Keys|;
    if b.Keys <= a.Keys { SubsetSize(b.Keys, a.Keys); }
  }

  lemma {:induction false} SubsetSize(a: set<uint64>, b: set<uint64>)
    requires a <= b
    ensures |a| <= |b|
  {
    if a != {} {
      var x :| x in a;
      SubsetSize(a - {x}, b - {x});
    }
  }

  // ---------------------------------------------------------------- crashes and restarts

  datatype Outcome = Completes | FlushFails | CrashBeforeRename | CrashAfterRename

  // running is the process, if there is one; committed is what the last rename put on
  // disk; given lists the ids that NextID returned; wrapped tells that the counter has
  // gone back to its beginning.
  datatype World = World(disk: Option<Key>, running: Option<Mem>, committed: Mem, given: seq<uint64>, wrapped: bool)

  datatype Step = Run(op: Op, indexId: uint64, ids: seq<uint64>, outcome: Outcome) | Crash | Restart

  ghost predicate Enabled(w: World, step: Step) {
    match step
    case Run(op, indexId, ids, _) =>
      && w.running.Some? && Holdable(w.running.value, op)
      && (Accepted(w.running.value, op) ==>
            && Lists(ids, Applied(w.running.value, op, indexId).cache)
            && (op.PutIndex? ==> FreshIndexId(w.running.value.cache, indexId)))
    case Crash => w.running.Some?
    case Restart => w.running.None?
  }

  ghost function Flushed(m: Mem, ids: seq<uint64>): Option<Key>
    requires Lists(ids, m.cache)
  {
    Some(FileOf(m.nextId, EntriesOf(m.cache, ids)))
  }

  ghost function Next(w: World, step: Step): World
    requires Enabled(w, step)
  {
    match step
    case Run(op, indexId, ids, outcome) =>
      var m := w.running.value;
      if !Accepted(m, op) then w
      else
        var m' := Applied(m, op, indexId);
        (match outcome
        case Completes =>
          World(Flushed(m', ids), Some(m'), m', if op.NextId? then w.given + [m.nextId] else w.given,
                w.wrapped || (op.NextId? && m.nextId == MAX_ID))
        case FlushFails => w
        case CrashBeforeRename => w.(running := None)
        case CrashAfterRename =>
          World(Flushed(m', ids), None, m', w.given, w.wrapped || (op.NextId? && m.nextId == MAX_ID)))
    case Crash => w.(running := None)
    case Restart =>
      match LoadFile(w.disk)
      case None => w
      case Some(m) => w.(running := Some(m), committed := m, wrapped := w.wrapped || MAX_ID in m.cache)
  }

  ghost predicate Reaches(steps: seq<Step>, w: World) {
    if steps == [] then w == World(None, None, Empty(), [], false)
    else
      var n := |steps| - 1;
      exists before: World :: Reaches(steps[..n], before) && Enabled(before, steps[n]) && Next(before, steps[n]) == w
  }

  ghost predicate GivenOnce(given: seq<uint64>, nextId: uint64) {
    && (forall i, j :: 0 <= i < j < |given| ==> given[i] < given[j])
    && (forall i :: 0 <= i < |given| ==> given[i] < nextId)
  }

  ghost predicate Inv(w: World) {
    && Sound(w.committed) && OnDisk(w.committed, w.disk)
    && (w.running.Some? ==> w.running.value == w.committed)
    && (!w.wrapped ==> w.committed.nextId >= 1 && GivenOnce(w.given, w.committed.nextId))
  }

  function IdSet(ids: seq<uint64>): set<uint64> {
    set id | id in ids
  }

  lemma ListedSize(ids: seq<uint64>, cache: map<uint64, Entry>)
    requires Lists(ids, cache)
    ensures |ids| == |cache|
  {
    assert cache.Keys == IdSet(ids);
    DistinctSize(ids);
  }

  lemma {:induction false} DistinctSize(ids: seq<uint64>)
    requires forall i, j :: 0 <= i < j < |ids| ==> ids[i] < ids[j]
    ensures |IdSet(ids)| == |ids|
  {
    if ids != [] {
      var n := |ids| - 1;
      DistinctSize(ids[..n]);
      SetSnoc(ids[..n], ids[n]);
      assert ids == ids[..n] + [ids[n]];
    }
  }

  lemma SetSnoc(ids: seq<uint64>, id: uint64)
    requires id !in ids
    ensures |IdSet(ids + [id])| == |IdSet(ids)| + 1
  {
    assert IdSet(ids + [id]) == IdSet(ids) + {id};
  }

  lemma LoadedSound(m: Mem, loaded: Mem)
    requires Sound(m) && SameTables(m, loaded)
    ensures Sound(loaded) && SameTables(loaded, loaded)
  {
    hide EntryFits, NormEntry, TypesFit;
    NormNamed(m);
    assert loaded.cache.Keys == m.cache.Keys;
    CacheSize(loaded.cache, m.cache);
    forall id | id in loaded.cache
      ensures EntryFits(loaded.cache[id]) && NormEntry(loaded.cache[id]) == loaded.cache[id]
    {
      assert loaded.cache[id] == NormEntry(m.cache[id]);
      NormTwice(m.cache[id]);
    }
    assert NormCache(loaded.cache) == loaded.cache;
  }

  // A restart finds the committed tables.
  lemma RestartKeeps(w: World)
    requires Inv(w) && w.running.None?
    ensures Inv(Next(w, Restart)) && SameTables(w.committed, Next(w, Restart).committed)
            && Next(w, Restart).running.Some?
  {
    hide EntryFits, Load, Named, Storable, NormEntry;
    var m := LoadFile(w.disk).value;
    LoadedSound(w.committed, m);
    assert MAX_ID in m.cache <==> MAX_ID in w.committed.cache;
  }

  // It finds an id counter that has gone back exactly if some table has the largest id.
  lemma RestartGoesBack(w: World)
    requires Inv(w) && w.running.None?
    ensures Next(w, Restart).committed.nextId < w.committed.nextId <==>
              MAX_ID in w.committed.cache && w.committed.nextId > 1
  {
    hide EntryFits, Load, Named, Storable, NormCache;
    RestartKeeps(w);
  }

  lemma AppliedNext(m: Mem, op: Op, indexId: uint64)
    requires Accepted(m, op)
    ensures Applied(m, op, indexId).nextId ==
            if !op.NextId? then m.nextId else if m.nextId == MAX_ID then 0 else m.nextId + 1
  {
  }

  lemma StepKeeps(w: World, step: Step)
    requires Inv(w) && Enabled(w, step)
    ensures Inv(Next(w, step))
  {
    hide Sound, OnDisk, Applied, Holdable, Accepted, FileOf, FreshIndexId, LoadFile, SameTables;
    match step
    case Run(op, indexId, ids, outcome) =>
      var m := w.running.value;
      if Accepted(m, op) {
        var m' := Applied(m, op, indexId);
        AppliedSound(m, op, indexId);
        AppliedNext(m, op, indexId);
        FileKept(m', ids);
      }
    case Crash =>
    case Restart => RestartKeeps(w);
  }

  lemma FileKept(m: Mem, ids: seq<uint64>)
    requires Sound(m) && Lists(ids, m.cache)
    ensures OnDisk(m, Flushed(m, ids))
  {
    hide EntryFits, OnDisk;
    ListedSize(ids, m.cache);
    FileRoundTrip(m, ids);
  }

  lemma InitInv()
    ensures Inv(World(None, None, Empty(), [], false))
  {
    assert NormCache(map[]) == map[];
  }

  lemma {:induction false} RunInv(steps: seq<Step>, w: World)
    requires Reaches(steps, w)
    ensures Inv(w)
  {
    hide Inv, Next, Enabled;
    if steps == [] {
      InitInv();
    } else {
      var n := |steps| - 1;
      var before :| Reaches(steps[..n], before) && Enabled(before, steps[n]) && Next(before, steps[n]) == w;
      RunInv(steps[..n], before);
      StepKeeps(before, steps[n]);
    }
  }

  // At every point of every run, the file decodes to the tables of the last operation
  // that got through its rename, column types as the format keeps them, and names and ids
  // stay inverse to each other.
  lemma FileFollows(steps: seq<Step>, w: World)
    requires Reaches(steps, w)
    ensures LoadFile(w.disk).Some? && SameTables(w.committed, LoadFile(w.disk).value)
    ensures LoadFile(w.disk).value.cache == w.committed.cache <==>
            forall id :: id in w.committed.cache ==> TypesFit(w.committed.cache[id])
    ensures w.running.Some? ==> w.running.value == w.committed
    ensures Named(w.committed)
  {
    hide Reaches, EntryFits, TypesFit, Load, NormEntry;
    RunInv(steps, w);
    NormCacheSame(w.committed.cache);
  }

  // NextID never returns an id twice, across failures, crashes and restarts, as long as
  // the counter has not gone past the largest number, by itself or through a table of
  // that id that a restart found.
  lemma IdsNeverRepeat(steps: seq<Step>, w: World)
    requires Reaches(steps, w) && !w.wrapped
    ensures forall i, j :: 0 <= i < j < |w.given| ==> w.given[i] < w.given[j]
    ensures forall i :: 0 <= i < |w.given| ==> w.given[i] < w.committed.nextId
  {
    hide Reaches, EntryFits, Load, Sound, OnDisk;
    RunInv(steps, w);
  }

  lemma Begin()
    ensures Reaches([], World(None, None, Empty(), [], false))
  {
  }

  lemma Do(w: World, steps: seq<Step>, step: Step) returns (w': World, steps': seq<Step>)
    requires Reaches(steps, w) && Enabled(w, step)
    ensures w' == Next(w, step) && Reaches(steps', w')
  {
    w', steps' := Next(w, step), steps + [step];
    assert steps'[..|steps|] == steps;
  }

  // A run that hands out 1 and stores a table with the largest id ...
  lemma TopStored(e: Entry) returns (steps: seq<Step>, w: World)
    requires e.tableId == MAX_ID && EntryFits(e) && e.name != [] && e.createSql != []
    ensures Reaches(steps, w) && w.given == [1] && w.running.Some? && w.committed.cache == map[MAX_ID := e]
  {
    hide Reaches, EntryFits, Load, NormEntry, FileOf;
    Begin();
    w, steps := Do(World(None, None, Empty(), [], false), [], Restart);
    assert w.running == Some(Empty());
    w, steps := Do(w, steps, Run(NextId, 0, [], Completes));
    assert w.running == Some(Mem(map[], map[], 2)) && w.given == [1];
    TopListed(map[MAX_ID := e]);
    w, steps := Do(w, steps, Run(Put(e), 0, [MAX_ID], Completes));
  }

  lemma TopListed(cache: map<uint64, Entry>)
    requires cache.Keys == {MAX_ID}
    ensures Lists([MAX_ID], cache)
  {
    assert forall id :: id in cache <==> id in cache.Keys;
  }

  // ... restarts and hands out 1 again.
  lemma TopIdWraps(e: Entry)
    requires e.tableId == MAX_ID && EntryFits(e) && e.name != [] && e.createSql != []
    ensures exists steps, w :: Reaches(steps, w) && w.given == [1, 1]
  {
    hide Reaches, EntryFits, LoadFile, NormEntry, FileOf, Named, Storable;
    var steps, w := TopStored(e);
    w, steps := Do(w, steps, Crash);
    RunInv(steps, w);
    RestartKeeps(w);
    w, steps := Do(w, steps, Restart);
    RunInv(steps, w);
    var m := w.running.value;
    assert m.nextId == 1 && m.cache.Keys == {MAX_ID};
    TopListed(m.cache);
    w, steps := Do(w, steps, Run(NextId, 0, [MAX_ID], Completes));
    assert w.given == [1] + [1] == [1, 1];
  }

  // ---------------------------------------------------------------- what a run leaves in the file

  // The operation is carried out if its flush succeeds.
  ghost predicate Succeeds(m: Mem, op: Op) {
    match op
    case NextId => true
    case Put(e) =>
      && e.name != [] && e.createSql != []
      && forall id :: id in m.cache ==> id != e.tableId && m.cache[id].name != e.name
    case Delete(id) => id in m.cache
    case PutIndex(id, x) =>
      && id in m.cache && x.name != []
      && forall i :: 0 <= i < |m.cache[id].indexes| ==> m.cache[id].indexes[i].name != x.name
  }

  lemma AcceptedMeans(m: Mem, op: Op)
    requires Named(m)
    ensures Accepted(m, op) <==> Succeeds(m, op)
  {
    if op.Put? && op.entry.name in m.byName { assert m.cache[m.byName[op.entry.name]].name == op.entry.name; }
  }

  // The step carries its operation out and gets through the rename.
  ghost predicate Through(w: World, step: Step) {
    && step.Run? && (step.outcome.Completes? || step.outcome.CrashAfterRename?)
    && w.running.Some? && Succeeds(w.running.value, step.op)
  }

  ghost predicate Puts(w: World, step: Step, id: uint64): (puts: bool)
    ensures puts ==> step.Run? && step.op.Put?
  {
    Through(w, step) && step.op.Put? && step.op.entry.tableId == id
  }

  ghost predicate Deletes(w: World, step: Step, id: uint64) {
    Through(w, step) && step.op == Op.Delete(id)
  }

  // The index that the step puts on the table, with its id.
  ghost function NewIndex(w: World, step: Step, id: uint64): seq<Index> {
    if Through(w, step) && step.op.PutIndex? && step.op.table == id then
      var x := step.op.index;
      [if x.indexId == 0 then x.(indexId := step.indexId) else x]
    else []
  }

  // To the file, the table is the entry with more indexes.
  ghost predicate IsWith(f: Entry, e: Entry, more: seq<Index>) {
    NormEntry(f) == NormEntry(e).(indexes := e.indexes + more)
  }

  lemma RunStep(w: World, step: Step, id: uint64)
    requires Inv(w) && Enabled(w, step) && step.Run?
    ensures var was, now := w.committed.cache, Next(w, step).committed.cache;
            && (id in now <==> Puts(w, step, id) || (id in was && !Deletes(w, step, id)))
            && (Puts(w, step, id) ==> id !in was && now[id] == step.op.entry)
            && (id in was && id in now ==> IsWith(now[id], was[id], NewIndex(w, step, id)))
  {
    hide Inv, Next, Enabled, NormEntry, Applied, Accepted;
    Committed(w, step);
    if Through(w, step) { AppliedTable(w.committed, step.op, step.indexId, id); }
    if id in w.committed.cache { With(w.committed.cache[id], NewIndex(w, step, id)); }
  }

  lemma With(e: Entry, more: seq<Index>)
    ensures IsWith(e.(indexes := e.indexes + more), e, more) && (more == [] ==> IsWith(e, e, more))
  {
    hide NormColumn;
    assert e.indexes + [] == e.indexes;
  }

  lemma Committed(w: World, step: Step)
    requires Inv(w) && Enabled(w, step) && step.Run?
    ensures w.running == Some(w.committed) && Named(w.committed)
    ensures if Through(w, step) then Accepted(w.committed, step.op)
                                     && Next(w, step).committed == Applied(w.committed, step.op, step.indexId)
            else Next(w, step).committed == w.committed
  {
    hide EntryFits, LoadFile, FileOf, Storable, Holdable, FreshIndexId, CounterLoaded, Applied, Accepted, Succeeds;
    AcceptedMeans(w.committed, step.op);
  }

  lemma AppliedTable(m: Mem, op: Op, indexId: uint64, id: uint64)
    requires Named(m) && Accepted(m, op)
    ensures var was, now := m.cache, Applied(m, op, indexId).cache;
            && (id in now <==> (op.Put? && op.entry.tableId == id) || (id in was && op != Op.Delete(id)))
            && (op.Put? && op.entry.tableId == id ==> id !in was && now[id] == op.entry)
            && (id in was && id in now ==>
                  now[id] == if op.PutIndex? && op.table == id then
                               var x := if op.index.indexId == 0 then op.index.(indexId := indexId) else op.index;
                               was[id].(indexes := was[id].indexes + [x])
                             else was[id])
  {
  }

  // What one step does to one table.
  lemma TableStep(w: World, step: Step, id: uint64)
    requires Inv(w) && Enabled(w, step)
    ensures var was, now := w.committed.cache, Next(w, step).committed.cache;
            && (id in now <==> Puts(w, step, id) || (id in was && !Deletes(w, step, id)))
            && (Puts(w, step, id) ==> id !in was && now[id] == step.op.entry)
            && (id in was && id in now ==> IsWith(now[id], was[id], NewIndex(w, step, id)))
  {
    hide EntryFits, LoadFile, NormColumn, FileOf, Storable, Holdable, FreshIndexId, CounterLoaded;
    match step
    case Run(op, indexId, ids, outcome) => RunStep(w, step, id);
    case Crash =>
    case Restart =>
      RestartKeeps(w);
      if id in w.committed.cache { Fits(w.committed.cache, id); NormTwice(w.committed.cache[id]); }
  }

  lemma Fits(cache: map<uint64, Entry>, id: uint64)
    requires Storable(cache) && id in cache
    ensures EntryFits(cache[id])
  {
    hide EntryFits;
  }

  // The worlds that a run goes through.
  ghost predicate Runs(steps: seq<Step>, ws: seq<World>): (runs: bool)
    ensures runs ==> |ws| == |steps| + 1
  {
    && |ws| == |steps| + 1 && ws[0] == World(None, None, Empty(), [], false)
    && forall i :: 0 <= i < |steps| ==> Enabled(ws[i], steps[i]) && ws[i + 1] == Next(ws[i], steps[i])
  }

  lemma {:induction false} RunsReach(steps: seq<Step>, ws: seq<World>, n: nat)
    requires Runs(steps, ws) && n <= |steps|
    ensures Reaches(steps[..n], ws[n])
  {
    hide Next, Enabled;
    if n > 0 {
      RunsReach(steps, ws, n - 1);
      assert steps[..n][..n - 1] == steps[..n - 1];
    }
  }

  // The table was put by step i and not deleted before step n.
  ghost predicate Lives(steps: seq<Step>, ws: seq<World>, i: nat, n: nat, id: uint64): (lives: bool)
    requires n <= |steps| < |ws|
    ensures lives ==> i < n && steps[i].Run? && steps[i].op.Put?
  {
    i < n && Puts(ws[i], steps[i], id) && forall j :: i < j < n ==> !Deletes(ws[j], steps[j], id)
  }

  // The indexes that were put on the table after step i and before step n.
  ghost function IndexesAfter(steps: seq<Step>, ws: seq<World>, i: nat, n: nat, id: uint64): seq<Index>
    requires n <= |steps| < |ws|
  {
    if n <= i + 1 then []
    else IndexesAfter(steps, ws, i, n - 1, id) + NewIndex(ws[n - 1], steps[n - 1], id)
  }

  lemma WithMore(now: Entry, was: Entry, e: Entry, more: seq<Index>, x: seq<Index>)
    requires IsWith(was, e, more) && IsWith(now, was, x)
    ensures IsWith(now, e, more + x)
  {
    hide NormColumn;
    assert NormEntry(was).indexes == was.indexes;
    assert e.indexes + (more + x) == (e.indexes + more) + x;
  }

  lemma StepAt(steps: seq<Step>, ws: seq<World>, n: nat, id: uint64)
    requires Runs(steps, ws) && n < |steps|
    ensures var was, now := ws[n].committed.cache, ws[n + 1].committed.cache;
            && (id in now <==> Puts(ws[n], steps[n], id) || (id in was && !Deletes(ws[n], steps[n], id)))
            && (Puts(ws[n], steps[n], id) ==> id !in was && now[id] == steps[n].op.entry)
            && (id in was && id in now ==> IsWith(now[id], was[id], NewIndex(ws[n], steps[n], id)))
  {
    hide Inv, Next, Enabled, Puts, Deletes, NewIndex, IsWith, Reaches;
    RunsReach(steps, ws, n);
    RunInv(steps[..n], ws[n]);
    TableStep(ws[n], steps[n], id);
  }

  // A table that lives is there, with its indexes in the order of their steps ...
  lemma {:induction false} LivesIn(steps: seq<Step>, ws: seq<World>, i: nat, n: nat, id: uint64)
    requires Runs(steps, ws) && n <= |steps| && Lives(steps, ws, i, n, id)
    ensures id in ws[n].committed.cache
    ensures IsWith(ws[n].committed.cache[id], steps[i].op.entry, IndexesAfter(steps, ws, i, n, id))
  {
    hide Runs, Puts, Deletes, NewIndex;
    StepAt(steps, ws, n - 1, id);
    if i < n - 1 {
      LivesIn(steps, ws, i, n - 1, id);
      WithMore(ws[n].committed.cache[id], ws[n - 1].committed.cache[id], steps[i].op.entry,
               IndexesAfter(steps, ws, i, n - 1, id), NewIndex(ws[n - 1], steps[n - 1], id));
    } else {
      assert steps[i].op.entry.indexes + [] == steps[i].op.entry.indexes;
    }
  }

  // ... and every table that is there lives.
  lemma {:induction false} InLives(steps: seq<Step>, ws: seq<World>, n: nat, id: uint64) returns (i: nat)
    requires Runs(steps, ws) && n <= |steps| && id in ws[n].committed.cache
    ensures Lives(steps, ws, i, n, id)
  {
    hide Next, Enabled, Puts, Deletes, NewIndex, IsWith;
    StepAt(steps, ws, n - 1, id);
    if Puts(ws[n - 1], steps[n - 1], id) {
      i := n - 1;
    } else {
      i := InLives(steps, ws, n - 1, id);
    }
  }

  lemma KeptWith(f: Entry, e: Entry, more: seq<Index>)
    requires IsWith(f, e, more)
    ensures KeptAs(e.(indexes := e.indexes + more), NormEntry(f))
  {
    NormKeeps(e);
  }

  // At every point of every run, the file holds exactly the tables that were put and not
  // deleted since: each as it was put, with the indexes that were put on it since, in order.
  lemma TablesInFile(steps: seq<Step>, ws: seq<World>, id: uint64)
    requires Runs(steps, ws)
    ensures var n, file := |steps|, LoadFile(ws[|steps|].disk);
            && file.Some?
            && (id in file.value.cache <==> exists i: nat :: Lives(steps, ws, i, n, id))
            && forall i: nat :: Lives(steps, ws, i, n, id) ==>
                 var e := steps[i].op.entry;
                 KeptAs(e.(indexes := e.indexes + IndexesAfter(steps, ws, i, n, id)), file.value.cache[id])
  {
    hide Runs, Reaches, Load, NormEntry, Lives, IndexesAfter, KeptAs;
    var n := |steps|;
    RunsReach(steps, ws, n);
    assert steps[..n] == steps;
    FileFollows(steps, ws[n]);
    forall i: nat | Lives(steps, ws, i, n, id)
      ensures id in ws[n].committed.cache
      ensures var e := steps[i].op.entry;
              KeptAs(e.(indexes := e.indexes + IndexesAfter(steps, ws, i, n, id)),
                     NormEntry(ws[n].committed.cache[id]))
    {
      LivesIn(steps, ws, i, n, id);
      KeptWith(ws[n].committed.cache[id], steps[i].op.entry, IndexesAfter(steps, ws, i, n, id));
    }
    if id in ws[n].committed.cache { var i := InLives(steps, ws, n, id); }
  }

  // ---------------------------------------------------------------- free ids

  // The counter is past every table.
  ghost predicate Ahead(m: Mem) {
    forall id :: id in m.cache ==> id < m.nextId
  }

  ghost function Handed(m: Mem, n: nat): Mem {
    if n == 0 then m else Applied(Handed(m, n - 1), NextId, 0)
  }

  lemma {:induction false} HandedIs(m: Mem, n: nat)
    requires m.nextId + n <= MAX_ID
    ensures Handed(m, n) == m.(nextId := m.nextId + n)
  {
    if n > 0 { HandedIs(m, n - 1); }
  }

  // However often NextID is called before the counter wraps around, it returns an id of
  // no table, exactly if the counter is past all of them.
  lemma AheadExact(m: Mem)
    ensures Ahead(m) <==>
            forall n: nat :: m.nextId + n <= MAX_ID ==> Handed(m, n).nextId !in Handed(m, n).cache
  {
    forall n: nat | m.nextId + n <= MAX_ID ensures Handed(m, n) == m.(nextId := m.nextId + n) { HandedIs(m, n); }
    if !Ahead(m) {
      var id :| id in m.cache && id >= m.nextId;
      var n: nat := id - m.nextId;
      assert Handed(m, n).nextId in Handed(m, n).cache;
    }
  }

  // A table that is stored has an id below the counter, like all ids that NextID gave.
  ghost predicate StoresBelow(w: World, step: Step)
    requires Enabled(w, step)
  {
    step.Run? && step.op.Put? && !step.outcome.FlushFails? && !step.outcome.CrashBeforeRename? ==>
      step.op.entry.tableId < w.running.value.nextId
  }

  ghost predicate PutsBelow(steps: seq<Step>, w: World) {
    if steps == [] then w == World(None, None, Empty(), [], false)
    else
      var n := |steps| - 1;
      exists before: World ::
        && PutsBelow(steps[..n], before) && Enabled(before, steps[n]) && Next(before, steps[n]) == w
        && StoresBelow(before, steps[n])
  }

  lemma AheadStep(w: World, step: Step)
    requires Inv(w) && Enabled(w, step) && StoresBelow(w, step) && Ahead(w.committed) && !Next(w, step).wrapped
    ensures Ahead(Next(w, step).committed)
  {
    hide Sound, OnDisk, Holdable, FileOf, FreshIndexId, LoadFile;
    if step.Restart? { RestartKeeps(w); }
  }

  lemma {:induction false} AheadRun(steps: seq<Step>, w: World)
    requires PutsBelow(steps, w) && !w.wrapped
    ensures Reaches(steps, w) && Inv(w) && Ahead(w.committed)
  {
    hide Inv, Next, Enabled, StoresBelow;
    if steps == [] {
      InitInv();
    } else {
      var n := |steps| - 1;
      var before :|
        && PutsBelow(steps[..n], before) && Enabled(before, steps[n]) && Next(before, steps[n]) == w
        && StoresBelow(before, steps[n]);
      WrappedStays(before, steps[n]);
      AheadRun(steps[..n], before);
      StepKeeps(before, steps[n]);
      AheadStep(before, steps[n]);
    }
  }

  lemma WrappedStays(w: World, step: Step)
    requires Enabled(w, step)
    ensures w.wrapped ==> Next(w, step).wrapped
  {
    hide Holdable, FileOf, FreshIndexId, LoadFile, Applied, Accepted;
  }

  // So in a run in which no table is stored with an id that the counter has yet to
  // reach, NextID returns an id of no table, and one it has not returned before.
  lemma NextIdIsFree(steps: seq<Step>, w: World, ids: seq<uint64>)
    requires PutsBelow(steps, w) && !w.wrapped && Enabled(w, Run(NextId, 0, ids, Completes))
    ensures var id, w' := w.committed.nextId, Next(w, Run(NextId, 0, ids, Completes));
            w'.given == w.given + [id] && id !in w.committed.cache && id !in w'.committed.cache && id !in w.given
  {
    hide Sound, OnDisk, FileOf, FreshIndexId, Reaches, PutsBelow;
    AheadRun(steps, w);
  }

  // Otherwise it may return the id of a table: one that is stored as 1 in an empty
  // catalog does not move the counter.
  lemma TakenIdIsGiven(e: Entry) returns (steps: seq<Step>, w: World)
    requires e.tableId == 1 && EntryFits(e) && e.name != [] && e.createSql != []
    ensures Reaches(steps, w) && !w.wrapped && w.committed.cache == map[1 := e]
    ensures var step := Run(NextId, 0, [1], Completes); Enabled(w, step) && Next(w, step).given == [1]
  {
    hide Reaches, EntryFits, Load, NormEntry, FileOf;
    Begin();
    w, steps := Do(World(None, None, Empty(), [], false), [], Restart);
    assert map[1 := e].Keys == {1} && Lists([1], map[1 := e]);
    w, steps := Do(w, steps, Run(Put(e), 0, [1], Completes));
    assert w.running == Some(Mem(map[1 := e], map[e.name := 1], 1));
  }

  // ---------------------------------------------------------------- the object

  // The sorted ids of the cache.
  method SortedIds(cache: map<uint64, Entry>) returns (ids: seq<uint64>)
    ensures Lists(ids, cache)
  {
    ids := [];
    var rest := cache.Keys;
    while rest != {}
      invariant rest <= cache.Keys
      invariant forall i, j :: 0 <= i < j < |ids| ==> ids[i] < ids[j]
      invariant forall id :: id in ids <==> id in cache && id !in rest
      decreases rest
    {
      var id :| id in rest;
      var p := 0;
      while p < |ids| && ids[p] < id
        invariant p <= |ids| && forall i :: 0 <= i < p ==> ids[i] < id
      {
        p := p + 1;
      }
      InsertSorted(ids, p, id);
      ids, rest := ids[..p] + [id] + ids[p..], rest - {id};
    }
  }

  lemma InsertSorted(ids: seq<uint64>, p: nat, id: uint64)
    requires p <= |ids| && id !in ids && forall i, j :: 0 <= i < j < |ids| ==> ids[i] < ids[j]
    requires (forall i :: 0 <= i < p ==> ids[i] < id) && (p < |ids| ==> ids[p] >= id)
    ensures var ids' := ids[..p] + [id] + ids[p..];
            && (forall i, j :: 0 <= i < j < |ids'| ==> ids'[i] < ids'[j])
            && (forall x :: x in ids' <==> x in ids || x == id)
  {
    assert p < |ids| ==> ids[p] != id;
    forall x ensures x in ids[..p] + [id] + ids[p..] <==> x in ids || x == id { InsertedIn(ids, p, id, x); }
  }

  lemma InsertedIn(ids: seq<uint64>, p: nat, id: uint64, x: uint64)
    requires p <= |ids|
    ensures x in ids[..p] + [id] + ids[p..] <==> x in ids || x == id
  {
    assert ids == ids[..p] + ids[p..];
  }

  method EncodeFile(nextId: uint64, cache: map<uint64, Entry>, ids: seq<uint64>) returns (buf: Key)
    requires forall i :: 0 <= i < |ids| ==> ids[i] in cache
    ensures buf == FileOf(nextId, EntriesOf(cache, ids))
  {
    ghost var es := EntriesOf(cache, ids);
    var entries := [];
    for i := 0 to |ids|
      invariant |entries| == i && forall j :: 0 <= j < i ==> entries[j] == cache[ids[j]]
    {
      entries := entries + [cache[ids[i]]];
    }
    assert entries == es;
    buf := FileOf(nextId, entries);
  }

  lemma IndexSound(m: Mem, table: uint64, x: Index, indexId: uint64)
    requires Sound(m) && Holdable(m, Op.PutIndex(table, x)) && table in m.cache && x.name != []
    requires forall i :: 0 <= i < |m.cache[table].indexes| ==> m.cache[table].indexes[i].name != x.name
    requires x.indexId != 0 ==> indexId == x.indexId
    ensures var e := m.cache[table];
            Sound(m.(cache := m.cache[table := e.(indexes := e.indexes + [x.(indexId := indexId)])]))
  {
    hide Sound, Holdable;
    AppliedSound(m, Op.PutIndex(table, x), indexId);
  }

  class Catalog {
    var cache: map<uint64, Entry>
    var byName: map<Key, uint64>
    var nextId: uint64
    var closed: bool
    var disk: Option<Key>   // catalog.dat

    ghost function View(): Mem
      reads this
    {
      Mem(cache, byName, nextId)
    }

    // The file decodes to the cache.
    ghost predicate Valid()
      reads this
    {
      Sound(View()) && OnDisk(View(), disk)
    }

    constructor (disk: Option<Key>)
      ensures this.disk == disk && !closed && View() == Mem(map[], map[], 1)
    {
      this.disk, cache, byName, nextId, closed := disk, map[], map[], 1, false;
    }

    // renameOk is whether the new file took the place of the old one.
    method Flush(renameOk: bool) returns (ok: bool)
      requires Sound(View())
      modifies this`disk
      ensures ok == renameOk
      ensures ok ==> OnDisk(View(), disk)
      ensures !ok ==> disk == old(disk)
    {
      hide Sound, Lists;
      var ids := SortedIds(cache);
      ListsHold(ids, cache);
      var buf := EncodeFile(nextId, cache, ids);
      if !renameOk {
        return false;
      }
      FileKept(View(), ids);
      disk := Some(buf);
      return true;
    }

    method NextID(renameOk: bool) returns (id: Option<uint64>)
      requires Valid()
      modifies this
      ensures Valid() && closed == old(closed)
      ensures id == if old(closed) || !renameOk then None else Some(old(nextId))
      ensures nextId == if id.None? then old(nextId) else if old(nextId) == MAX_ID then 0 else old(nextId) + 1
      ensures cache == old(cache) && byName == old(byName)
      ensures id.None? ==> disk == old(disk)
    {
      hide OnDisk, Named, Storable;
      if closed {
        return None;
      }
      AppliedSound(View(), NextId, 0);
      var next := nextId;
      nextId := (nextId + 1) % 0x1_0000_0000_0000_0000;
      var ok := Flush(renameOk);
      if !ok {
        nextId := (nextId - 1) % 0x1_0000_0000_0000_0000;
        return None;
      }
      return Some(next);
    }

    method Put(entry: Entry, renameOk: bool) returns (ok: bool)
      requires Valid() && Holdable(View(), Op.Put(entry))
      modifies this
      ensures Valid() && closed == old(closed)
      ensures ok <==> !old(closed) && renameOk && entry.name != [] && entry.createSql != []
                      && entry.tableId !in old(cache) && entry.name !in old(byName)
      ensures ok ==> cache == old(cache)[entry.tableId := entry]
      ensures ok ==> byName == old(byName)[entry.name := entry.tableId]
      ensures nextId == old(nextId)
      ensures !ok ==> cache == old(cache) && byName == old(byName) && disk == old(disk)
    {
      hide OnDisk, Sound, Holdable;
      if entry.name == [] || entry.createSql == [] {
        return false;
      }
      if closed {
        return false;
      }
      if entry.name in byName || entry.tableId in cache {
        return false;
      }
      AppliedSound(View(), Op.Put(entry), 0);
      cache := cache[entry.tableId := entry];
      byName := byName[entry.name := entry.tableId];
      ok := Flush(renameOk);
      if !ok {
        cache := cache - {entry.tableId};
        byName := byName - {entry.name};
        assert cache == old(cache) && byName == old(byName);
      }
    }

    method Delete(id: uint64, renameOk: bool) returns (ok: bool)
      requires Valid()
      modifies this
      ensures Valid() && closed == old(closed)
      ensures ok <==> !old(closed) && id in old(cache) && renameOk
      ensures ok ==> cache == old(cache) - {id} && byName == old(byName) - {old(cache)[id].name}
      ensures nextId == old(nextId)
      ensures !ok ==> cache == old(cache) && byName == old(byName) && disk == old(disk)
    {
      hide OnDisk, Sound, Named;
      if closed {
        return false;
      }
      if id !in cache {
        return false;
      }
      var entry := cache[id];
      AppliedSound(View(), Op.Delete(id), 0);
      NameOf(View(), id);
      cache := cache - {id};
      byName := byName - {entry.name};
      ok := Flush(renameOk);
      if !ok {
        cache := cache[id := entry];
        byName := byName[entry.name := id];
        PutBack(old(cache), id);
        PutBack(old(byName), entry.name);
      }
    }

    method NextIndexId() returns (id: uint64)
      requires forall t :: t in cache ==> MaxIndexId(cache[t].indexes) < MAX_ID
      ensures FreshIndexId(cache, id)
    {
      var maxId: uint64 := 0;
      var rest := cache.Keys;
      while rest != {}
        invariant rest <= cache.Keys && maxId < MAX_ID
        invariant forall t :: t in cache && t !in rest ==> MaxIndexId(cache[t].indexes) <= maxId
        invariant maxId == 0 || exists t :: t in cache && MaxIndexId(cache[t].indexes) == maxId
        decreases rest
      {
        var t :| t in rest;
        var m := MaxIndexId(cache[t].indexes);
        if m > maxId {
          maxId := m;
        }
        rest := rest - {t};
      }
      id := maxId + 1;
    }

    method PutIndex(table: uint64, index: Index, renameOk: bool) returns (ok: bool, indexId: uint64)
      requires Valid() && Holdable(View(), Op.PutIndex(table, index))
      requires forall t :: t in cache ==> MaxIndexId(cache[t].indexes) < MAX_ID
      modifies this
      ensures Valid() && closed == old(closed)
      ensures ok <==> !old(closed) && renameOk && table in old(cache) && index.name != []
                      && forall i :: 0 <= i < |old(cache)[table].indexes| ==>
                           old(cache)[table].indexes[i].name != index.name
      ensures ok && index.indexId != 0 ==> indexId == index.indexId
      ensures ok && index.indexId == 0 ==> FreshIndexId(old(cache), indexId)
      ensures ok ==> var e := old(cache)[table];
                     cache == old(cache)[table := e.(indexes := e.indexes + [index.(indexId := indexId)])]
      ensures byName == old(byName) && nextId == old(nextId)
      ensures !ok ==> cache == old(cache) && disk == old(disk)
    {
      hide OnDisk, Sound, Holdable, FreshIndexId, Applied, Accepted, MaxIndexId;
      ok, indexId := false, index.indexId;
      if closed {
        return;
      }
      if table !in cache {
        return;
      }
      var entry := cache[table];
      if index.name == [] {
        return;
      }
      for i := 0 to |entry.indexes|
        invariant forall j :: 0 <= j < i ==> entry.indexes[j].name != index.name
        modifies {}
      {
        if entry.indexes[i].name == index.name {
          return;
        }
      }
      var stored := index;
      if index.indexId == 0 {
        indexId := NextIndexId();
        stored := index.(indexId := indexId);
      }
      IndexSound(View(), table, index, indexId);
      cache := cache[table := entry.(indexes := entry.indexes + [stored])];
      ok := Flush(renameOk);
      if !ok {
        var added := cache[table];
        cache := cache[table := added.(indexes := added.indexes[..|added.indexes| - 1])];
        assert cache[table] == entry && cache == old(cache);
      }
    }

    // The entries of the file go into the empty maps one by one.
    method LoadEntries(data: Key, ghost start: uint64) returns (ok: bool)
      requires View() == Mem(map[], map[], start)
      modifies this`cache, this`byName, this`nextId
      ensures ok <==> ReadItems(ReadEntry, data).Some?
      ensures ok ==> View() == AddAll(Mem(map[], map[], start), ReadItems(ReadEntry, data).value.0)
    {
      hide ReadItems, ReadEntry;
      var count := ReadUvarint(data);
      ItemsCount(data);
      if count.None? {
        return false;
      }
      var rest := count.value.1;
      ghost var done: seq<Entry> := [];
      AppendNone(ReadList(ReadEntry, count.value.0, rest));
      for i := 0 to count.value.0
        invariant ReadItems(ReadEntry, data) == Appended(done, ReadList(ReadEntry, count.value.0 - i, rest))
        invariant View() == AddAll(Mem(map[], map[], start), done)
      {
        var e := ReadEntry(rest);
        if e.None? {
          return false;
        }
        AppendMore(done, e.value.0, ReadList(ReadEntry, count.value.0 - i - 1, e.value.1));
        AddSnoc(Mem(map[], map[], start), done, e.value.0);
        cache := cache[e.value.0.tableId := e.value.0];
        byName := byName[e.value.0.name := e.value.0.tableId];
        if e.value.0.tableId >= nextId {
          nextId := (e.value.0.tableId + 1) % 0x1_0000_0000_0000_0000;
        }
        done, rest := done + [e.value.0], e.value.1;
      }
      assert done + [] == done;
      return true;
    }

    // bootstrap: what a restart finds.
    method Bootstrap() returns (ok: bool)
      requires cache == map[] && byName == map[] && nextId == 1
      modifies this`cache, this`byName, this`nextId
      ensures ok <==> LoadFile(disk).Some?
      ensures ok ==> View() == LoadFile(disk).value
    {
      hide ReadItems, ReadBig, AddAll;
      if disk.None? {
        return true;
      }
      var data := disk.value;
      if |data| < 17 {
        return false;
      }
      if data[..4] != Magic() {
        return false;
      }
      if data[4] > VERSION {
        return false;
      }
      var next := ReadBig(data[9..], 8);
      if next.None? {
        return false;
      }
      nextId := next.value.0 % 0x1_0000_0000_0000_0000;
      ok := LoadEntries(next.value.1, nextId);
      if ok && nextId == 0 {
        nextId := 1;
      }
    }
  }

  lemma ListsHold(ids: seq<uint64>, cache: map<uint64, Entry>)
    requires Lists(ids, cache)
    ensures forall i :: 0 <= i < |ids| ==> ids[i] in cache
  {
  }

  lemma PutBack<K, V>(m: map<K, V>, k: K)
    requires k in m
    ensures (m - {k})[k := m[k]] == m
  {
  }

  lemma NameOf(m: Mem, id: uint64)
    requires Sound(m) && id in m.cache
    ensures m.cache[id].name in m.byName && m.byName[m.cache[id].name] == id
  {
  }

  function Appended(done: seq<Entry>, rest: Option<(seq<Entry>, Key)>): Option<(seq<Entry>, Key)> {
    match rest
    case None => None
    case Some(r) => Some((done + r.0, r.1))
  }

  lemma AppendNone(r: Option<(seq<Entry>, Key)>)
    ensures Appended([], r) == r
  {
    if r.Some? { assert [] + r.value.0 == r.value.0; }
  }

  lemma AppendMore(done: seq<Entry>, e: Entry, r: Option<(seq<Entry>, Key)>)
    ensures Appended(done, Appended([e], r)) == Appended(done + [e], r)
  {
    if r.Some? { assert done + ([e] + r.value.0) == done + [e] + r.value.0; }
  }

  lemma {:induction false} AddSnoc(m: Mem, es: seq<Entry>, e: Entry)
    ensures AddAll(m, es + [e]) == Add(AddAll(m, es), e)
    decreases es
  {
    if es == [] {
      assert [] + [e] == [e] && [e][1..] == [];
    } else {
      assert (es + [e])[1..] == es[1..] + [e];
      AddSnoc(Add(m, es[0]), es[1..], e);
    }
  }

  lemma ItemsCount(data: Key)
    ensures ReadItems(ReadEntry, data) ==
            if ReadUvarint(data).None? then None
            else ReadList(ReadEntry, ReadUvarint(data).value.0, ReadUvarint(data).value.1)
  {
  }
}
