// The table reader (internal/ENG/LS/sst_reader.go): parsing loops, the binary search
// of the index, the point lookup and the iterator.
module SstReader {
  import opened Bytes
  import opened Codec
  import opened SstFormat
  import opened SstWriter

  // ---------------------------------------------------------------- parsing loops

  method ParseEntry(data: Key, offset: nat) returns (e: Option<IndexEntry>, next: nat)
    requires offset <= |data|
    ensures next <= |data|
    ensures ReadEntry(data[offset..]) == if e.None? then None else Some((e.value, data[next..]))
  {
    hide ReadKey, LittleValue;
    if offset + 4 > |data| { return None, offset; }
    var key;
    key, next := ParseKey(data, offset);
    if key.None? { return None, next; }
    if next + 16 > |data| { return None, next; }
    assert data[next..][..8] == data[next..next + 8] && data[next..][8..16] == data[next + 8..next + 16];
    assert data[next..][16..] == data[next + 16..];
    e := Some(IndexEntry(key.value, ToInt64(LittleValue(data[next..next + 8])),
                         ToInt64(LittleValue(data[next + 8..next + 16]))));
    next := next + 16;
  }

  method ParseIndexBlock(data: Key) returns (entries: seq<IndexEntry>)
    ensures entries == ParseIndex(data)
  {
    hide ReadEntry;
    entries := [];
    var offset := 0;
    assert data[0..] == data && [] + ParseIndex(data) == ParseIndex(data);
    while offset < |data|
      invariant offset <= |data| && entries + ParseIndex(data[offset..]) == ParseIndex(data)
    {
      ghost var rest := data[offset..];
      var e, next := ParseEntry(data, offset);
      if e.None? {
        assert entries + [] == entries;
        return;
      }
      assert ParseIndex(rest) == [e.value] + ParseIndex(data[next..]);
      assert entries + ([e.value] + ParseIndex(data[next..])) == entries + [e.value] + ParseIndex(data[next..]);
      assert |data[next..]| < |rest|;
      entries, offset := entries + [e.value], next;
    }
    NoEntry();
    assert data[offset..] == [] && entries + [] == entries;
  }

  // openSST
  method OpenTable(data: Key) returns (r: Option<Reader>)
    ensures r == Open(data)
  {
    hide LittleValue, ParseIndex;
    if |data| < 32 {
      return None;
    }
    var footerStart := |data| - FOOTER_SIZE;
    var indexOffset := LittleValue(data[footerStart..footerStart + 8]);
    var indexSize := LittleValue(data[footerStart + 8..footerStart + 12]);
    var bloomOffset := LittleValue(data[footerStart + 12..footerStart + 20]);
    var bloomSize := LittleValue(data[footerStart + 20..footerStart + 24]);
    if LittleValue(data[footerStart + 24..]) != MAGIC {
      return None;
    }
    var index: seq<IndexEntry>, bloom: Key := [], [];
    if 0 < indexOffset < |data| {
      if indexOffset + indexSize > |data| { return None; }
      index := ParseIndexBlock(data[indexOffset..indexOffset + indexSize]);
    }
    if 0 < bloomOffset < |data| {
      if bloomOffset + bloomSize > |data| { return None; }
      bloom := data[bloomOffset..bloomOffset + bloomSize];
    }
    return Some(Reader(data, index, bloom));
  }

  method DecodeSegment(body: Key, pos: nat, end: nat) returns (pairs: seq<Pair>)
    ensures pairs == DecodeFrom(body, pos, end)
  {
    hide ReadKey;
    pairs := [];
    var p := pos;
    assert [] + DecodeFrom(body, pos, end) == DecodeFrom(body, pos, end);
    while p < end && p < |body|
      invariant pairs + DecodeFrom(body, p, end) == DecodeFrom(body, pos, end)
      decreases |body| - p
    {
      ghost var from := p;
      var key, value, next;
      key, next := ParseKey(body, p);
      if key.None? { break; }
      value, next := ParseKey(body, next);
      if value.None? { break; }
      assert |body[next..]| == |body| - next;
      assert DecodeFrom(body, from, end) == [Pair(key.value, value.value)] + DecodeFrom(body, next, end);
      assert pairs + ([Pair(key.value, value.value)] + DecodeFrom(body, next, end)) ==
               pairs + [Pair(key.value, value.value)] + DecodeFrom(body, next, end);
      pairs, p := pairs + [Pair(key.value, value.value)], next;
    }
    assert DecodeFrom(body, p, end) == [] && pairs + [] == pairs;
  }

  // decodeBlock
  method Decode(lib: Lib, data: Key) returns (pairs: Option<seq<Pair>>)
    ensures pairs == DecodeBlock(lib, data)
  {
    hide DecodeFrom, LittleValue;
    if |data| < 8 { return None; }
    var n := |data| - 8;
    var body := data[..n];
    if lib.crc(body) != LittleValue(data[n + 4..]) { return None; }
    var count := LittleValue(data[n..n + 4]);
    var offset := n - 4 * count;
    if offset < 0 { return None; }
    var points: seq<nat> := [];
    if count == 0 {
      points := [0];
    } else {
      points := Restarts(data, offset, count);
    }
    var done: seq<Pair> := [];
    assert points[0..] == points && [] + Segments(body, points) == Segments(body, points);
    for i := 0 to |points|
      invariant done + Segments(body, points[i..]) == Segments(body, points)
    {
      assert points[i..][1..] == points[i + 1..];
      var end := if i + 1 < |points| then points[i + 1] else |body|;
      var part := DecodeSegment(body, points[i], end);
      assert done + (part + Segments(body, points[i + 1..])) == done + part + Segments(body, points[i + 1..]);
      done := done + part;
    }
    assert done + [] == done;
    return Some(done);
  }

  method Restarts(data: Key, offset: nat, count: nat) returns (points: seq<nat>)
    requires offset + 4 * count <= |data|
    ensures points == RestartPoints(data, offset, count)
  {
    points := [];
    assert [] + RestartPoints(data, offset, count) == RestartPoints(data, offset, count);
    for i := 0 to count
      invariant points + RestartPoints(data, offset + 4 * i, count - i) == RestartPoints(data, offset, count)
    {
      var at := offset + 4 * i;
      var point := LittleValue(data[at..at + 4]);
      assert points + ([point] + RestartPoints(data, at + 4, count - i - 1)) ==
               points + [point] + RestartPoints(data, at + 4, count - i - 1);
      points := points + [point];
    }
    assert points + [] == points;
  }

  // ---------------------------------------------------------------- point lookup

  // The binary search of searchIndex between lo and hi.
  function Bisect(index: seq<IndexEntry>, key: Key, lo: nat, hi: int): nat
    requires lo <= hi + 1 && hi < |index|
    decreases hi - lo + 1
  {
    if lo > hi then lo
    else
      var mid := (lo + hi) / 2;
      if Compare(index[mid].largestKey, key) >= 0 then Bisect(index, key, lo, mid - 1)
      else Bisect(index, key, mid + 1, hi)
  }

  function SearchIndex(index: seq<IndexEntry>, key: Key): int {
    if index == [] then -1
    else
      var lo := Bisect(index, key, 0, |index| - 1);
      if lo >= |index| then |index| - 1 else lo
  }

  // The scan of one block, which stops behind the key.
  function Scan(ps: seq<Pair>, key: Key): Option<Key> {
    if ps == [] then None
    else if Compare(ps[0].key, key) == 0 then Some(ps[0].value)
    else if Compare(ps[0].key, key) > 0 then None
    else Scan(ps[1..], key)
  }

  function Find(lib: Lib, r: Reader, key: Key): Option<Key> {
    if !MayContain(lib, r.bloom, key) then None
    else
      var i := SearchIndex(r.index, key);
      if i < 0 || i >= |r.index| then None
      else
        match BlockPairs(lib, r, i)
        case None => None
        case Some(ps) => Scan(ps, key)
  }

  method SearchIndexLoop(index: seq<IndexEntry>, key: Key) returns (i: int)
    ensures i == SearchIndex(index, key)
  {
    if |index| == 0 {
      return -1;
    }
    var lo, hi := 0, |index| - 1;
    while lo <= hi
      invariant 0 <= lo <= hi + 1 <= |index|
      invariant Bisect(index, key, lo, hi) == Bisect(index, key, 0, |index| - 1)
      decreases hi - lo
    {
      var mid := (lo + hi) / 2;
      var cmp := Compare(index[mid].largestKey, key);
      if cmp >= 0 {
        hi := mid - 1;
      } else {
        lo := mid + 1;
      }
    }
    if lo >= |index| {
      return |index| - 1;
    }
    return lo;
  }

  method FindKey(lib: Lib, r: Reader, key: Key) returns (value: Option<Key>)
    ensures value == Find(lib, r, key)
  {
    hide MayContain, DecodeBlock;
    if !MayContain(lib, r.bloom, key) {
      return None;
    }
    var blockIdx := SearchIndexLoop(r.index, key);
    if blockIdx < 0 || blockIdx >= |r.index| {
      return None;
    }
    var blockData := ReadBlock(lib, r.data, r.index[blockIdx].blockOffset, r.index[blockIdx].blockSize);
    if blockData.None? {
      return None;
    }
    var kvPairs := Decode(lib, blockData.value);
    if kvPairs.None? {
      return None;
    }
    var ps := kvPairs.value;
    assert ps[0..] == ps;
    for i := 0 to |ps|
      invariant Scan(ps[i..], key) == Scan(ps, key)
    {
      assert ps[i..][1..] == ps[i + 1..];
      var cmp := Compare(ps[i].key, key);
      if cmp == 0 {
        return Some(ps[i].value);
      }
      if cmp > 0 {
        return None;
      }
    }
    return None;
  }

  // The first pair with the key.
  function Linear(ps: seq<Pair>, key: Key): Option<Key> {
    if ps == [] then None else if ps[0].key == key then Some(ps[0].value) else Linear(ps[1..], key)
  }

  ghost predicate Increasing(ps: seq<Pair>) {
    forall i, j :: 0 <= i < j < |ps| ==> Rank(ps[i].key) < Rank(ps[j].key)
  }

  predicate HasKey(ps: seq<Pair>, key: Key) {
    exists i :: 0 <= i < |ps| && ps[i].key == key
  }

  lemma {:induction false} ScanIsLinear(ps: seq<Pair>, key: Key)
    requires Increasing(ps)
    ensures Scan(ps, key) == Linear(ps, key)
  {
    if ps != [] {
      CompareIsRankOrder(ps[0].key, key);
      ScanIsLinear(ps[1..], key);
      if Compare(ps[0].key, key) > 0 {
        assert !HasKey(ps[1..], key);
        LinearNone(ps[1..], key);
      }
    }
  }

  lemma {:induction false} LinearNone(ps: seq<Pair>, key: Key)
    ensures Linear(ps, key).None? <==> !HasKey(ps, key)
  {
    if ps != [] {
      LinearNone(ps[1..], key);
      if HasKey(ps[1..], key) {
        var i :| 0 <= i < |ps[1..]| && ps[1..][i].key == key;
        assert ps[i + 1].key == key;
      }
    }
  }

  lemma {:induction false} LinearCat(a: seq<Pair>, b: seq<Pair>, key: Key)
    ensures Linear(a + b, key) == if Linear(a, key).Some? then Linear(a, key) else Linear(b, key)
  {
    if a == [] {
      assert a + b == b;
    } else {
      assert (a + b)[1..] == a[1..] + b;
      LinearCat(a[1..], b, key);
    }
  }

  // The keys of each block increase, and every key of a block comes before the next one's.
  lemma {:induction false} BlocksIncrease(groups: seq<seq<Pair>>, i: nat, j: nat, x: nat)
    requires NoneEmpty(groups) && Increasing(Flatten(groups)) && i < |groups|
    ensures Increasing(groups[i])
    ensures i < j < |groups| && x < |groups[j]| ==> Rank(LastKey(groups[i])) < Rank(groups[j][x].key)
  {
    var all, g, rest := Flatten(groups), groups[0], Flatten(groups[1..]);
    assert all == g + rest;
    assert Increasing(rest) by {
      forall a, b | 0 <= a < b < |rest| ensures Rank(rest[a].key) < Rank(rest[b].key) {
        assert all[|g| + a] == rest[a] && all[|g| + b] == rest[b];
      }
    }
    if i > 0 {
      BlocksIncrease(groups[1..], i - 1, if j == 0 then 0 else j - 1, x);
    } else {
      forall a, b | 0 <= a < b < |g|
        ensures Rank(g[a].key) < Rank(g[b].key)
      {
        assert all[a] == g[a] && all[b] == g[b];
      }
      if i < j < |groups| && x < |groups[j]| {
        var at := InFlatten(groups[1..], j - 1, x);
        assert all[|g| + at] == groups[j][x] && all[|g| - 1] == g[|g| - 1];
      }
    }
  }

  lemma {:induction false} InFlatten(groups: seq<seq<Pair>>, j: nat, x: nat) returns (at: nat)
    requires j < |groups| && x < |groups[j]|
    ensures at < |Flatten(groups)| && Flatten(groups)[at] == groups[j][x]
  {
    if j == 0 {
      at := x;
    } else {
      var rest := InFlatten(groups[1..], j - 1, x);
      at := |groups[0]| + rest;
    }
  }

  lemma {:induction false} LinearFlatten(groups: seq<seq<Pair>>, i: nat, key: Key)
    requires i < |groups| && HasKey(groups[i], key) && forall j :: 0 <= j < i ==> !HasKey(groups[j], key)
    ensures Linear(Flatten(groups), key) == Linear(groups[i], key)
  {
    LinearCat(groups[0], Flatten(groups[1..]), key);
    LinearNone(groups[0], key);
    if i > 0 { LinearFlatten(groups[1..], i - 1, key); }
  }

  lemma {:induction false} LinearAbsent(groups: seq<seq<Pair>>, key: Key)
    requires forall j :: 0 <= j < |groups| ==> !HasKey(groups[j], key)
    ensures Linear(Flatten(groups), key).None?
  {
    if groups != [] {
      LinearCat(groups[0], Flatten(groups[1..]), key);
      LinearNone(groups[0], key);
      LinearAbsent(groups[1..], key);
    }
  }

  ghost predicate IndexSorted(index: seq<IndexEntry>) {
    forall i, j :: 0 <= i < j < |index| ==> Rank(index[i].largestKey) < Rank(index[j].largestKey)
  }

  // The first block whose largest key is not below the key.
  lemma {:induction false} BisectFirst(index: seq<IndexEntry>, key: Key, lo: nat, hi: int)
    requires lo <= hi + 1 <= |index| && IndexSorted(index)
    requires forall i :: 0 <= i < lo ==> Rank(index[i].largestKey) < Rank(key)
    requires forall i :: hi < i < |index| ==> Rank(index[i].largestKey) >= Rank(key)
    ensures var p := Bisect(index, key, lo, hi);
            && p <= |index|
            && (forall i :: 0 <= i < p ==> Rank(index[i].largestKey) < Rank(key))
            && (forall i :: p <= i < |index| ==> Rank(index[i].largestKey) >= Rank(key))
    decreases hi - lo + 1
  {
    hide Rank, Compare;
    if lo <= hi {
      var mid := (lo + hi) / 2;
      CompareIsRankOrder(index[mid].largestKey, key);
      if Compare(index[mid].largestKey, key) >= 0 {
        BisectFirst(index, key, lo, mid - 1);
      } else {
        BisectFirst(index, key, mid + 1, hi);
      }
    }
  }

  // For strictly increasing keys, Find answers as a scan of all added pairs does.
  lemma FindIsLinear(lib: Lib, groups: seq<seq<Pair>>, key: Key)
    requires Lawful(lib) && FileFits(lib, groups) && groups != [] && Increasing(Flatten(groups))
    ensures Open(FileOf(lib, groups)).Some?
    ensures Find(lib, Open(FileOf(lib, groups)).value, key) == Linear(Flatten(groups), key)
  {
    OpensFile(lib, groups);
    var r := Open(FileOf(lib, groups)).value;
    if exists i :: 0 <= i < |groups| && HasKey(groups[i], key) {
      var i :| 0 <= i < |groups| && HasKey(groups[i], key);
      FindsPresent(lib, groups, r, key, i);
    } else {
      FindsAbsent(lib, groups, r, key);
    }
  }

  lemma FindsAbsent(lib: Lib, groups: seq<seq<Pair>>, r: Reader, key: Key)
    requires Lawful(lib) && FileFits(lib, groups) && groups != [] && Increasing(Flatten(groups))
    requires Open(FileOf(lib, groups)) == Some(r)
    requires forall i :: 0 <= i < |groups| ==> !HasKey(groups[i], key)
    ensures Find(lib, r, key).None? && Linear(Flatten(groups), key).None?
  {
    hide Open, MayContain, BlockPairs, Bisect, Lawful, FileOf, GroupsFit, Flatten, Increasing, IndexOf;
    LinearAbsent(groups, key);
    BlockRead(lib, groups, r, 0);
    var i := SearchIndex(r.index, key);
    if 0 <= i < |r.index| {
      BlockRead(lib, groups, r, i);
      BlocksIncrease(groups, i, 0, 0);
      ScanIsLinear(groups[i], key);
      LinearNone(groups[i], key);
    }
  }

  lemma FindsPresent(lib: Lib, groups: seq<seq<Pair>>, r: Reader, key: Key, i: nat)
    requires Lawful(lib) && FileFits(lib, groups) && Increasing(Flatten(groups))
    requires Open(FileOf(lib, groups)) == Some(r) && i < |groups| && HasKey(groups[i], key)
    ensures Find(lib, r, key) == Linear(Flatten(groups), key)
  {
    hide Open, MayContain, BlockPairs, Bisect, Lawful, FileOf, GroupsFit, Flatten, Increasing, IndexOf, Rank, BloomOf,
      HasKey, Linear, Scan;
    OpensFile(lib, groups);
    KeyAdded(groups, i, key);
    BloomHit(lib, KeysOf(Flatten(groups)), key);
    KeyBlock(lib, groups, r, key, i);
    BlockRead(lib, groups, r, i);
    BlocksIncrease(groups, i, 0, 0);
    ScanIsLinear(groups[i], key);
    LinearFlatten(groups, i, key);
  }

  lemma BloomHit(lib: Lib, keys: seq<Key>, key: Key)
    requires key in keys
    ensures MayContain(lib, BloomOf(lib, keys), key)
  {
    NeverMissed(lib, Zeros(BloomSize(|keys|)), keys, key);
  }

  lemma KeyAdded(groups: seq<seq<Pair>>, i: nat, key: Key)
    requires i < |groups| && HasKey(groups[i], key)
    ensures key in KeysOf(Flatten(groups))
  {
    var x :| 0 <= x < |groups[i]| && groups[i][x].key == key;
    var at := InFlatten(groups, i, x);
    assert KeysOf(Flatten(groups))[at] == key;
  }

  // The block of a key is the first whose last key is not below it.
  lemma BlockOfKey(groups: seq<seq<Pair>>, key: Key, i: nat)
    requires NoneEmpty(groups) && Increasing(Flatten(groups)) && i < |groups| && HasKey(groups[i], key)
    ensures Rank(key) <= Rank(LastKey(groups[i]))
    ensures forall j :: 0 <= j < i ==> Rank(LastKey(groups[j])) < Rank(key) && !HasKey(groups[j], key)
  {
    hide Rank, Flatten;
    var x :| 0 <= x < |groups[i]| && groups[i][x].key == key;
    BlocksIncrease(groups, i, 0, 0);
    forall j | 0 <= j < i ensures Rank(LastKey(groups[j])) < Rank(key) && !HasKey(groups[j], key) {
      BlocksIncrease(groups, j, i, x);
      forall y | 0 <= y < |groups[j]| ensures groups[j][y].key != key {
        assert y < |groups[j]| - 1 ==> Rank(groups[j][y].key) < Rank(LastKey(groups[j]));
      }
    }
  }

  lemma LastKeysIncrease(groups: seq<seq<Pair>>)
    requires NoneEmpty(groups) && Increasing(Flatten(groups))
    ensures forall a, b :: 0 <= a < b < |groups| ==> Rank(LastKey(groups[a])) < Rank(LastKey(groups[b]))
  {
    hide Rank, Flatten, Increasing;
    forall a, b | 0 <= a < b < |groups| ensures Rank(LastKey(groups[a])) < Rank(LastKey(groups[b])) {
      BlocksIncrease(groups, a, b, |groups[b]| - 1);
    }
  }

  // The search of the index leads to the one block that holds the key.
  lemma KeyBlock(lib: Lib, groups: seq<seq<Pair>>, r: Reader, key: Key, i: nat)
    requires Lawful(lib) && FileFits(lib, groups) && Increasing(Flatten(groups))
    requires Open(FileOf(lib, groups)) == Some(r) && i < |groups| && HasKey(groups[i], key)
    ensures SearchIndex(r.index, key) == i
    ensures forall j :: 0 <= j < i ==> !HasKey(groups[j], key)
  {
    hide Open, Lawful, FileOf, GroupsFit, Flatten, IndexOf, Rank, Bisect, HasKey, Increasing, LastKey, BlockPairs;
    BlockOfKey(groups, key, i);
    LastKeysIncrease(groups);
    BlockRead(lib, groups, r, i);
    forall j | 0 <= j < |r.index| ensures r.index[j].largestKey == LastKey(groups[j]) {
      BlockRead(lib, groups, r, j);
    }
    forall j | 0 <= j < i ensures Rank(r.index[j].largestKey) < Rank(key) {
      assert r.index[j].largestKey == LastKey(groups[j]);
    }
    BisectFirst(r.index, key, 0, |r.index| - 1);
    var p := Bisect(r.index, key, 0, |r.index| - 1);
    assert r.index[i].largestKey == LastKey(groups[i]);
    SameFirst(r.index, key, p, i);
  }

  lemma SameFirst(index: seq<IndexEntry>, key: Key, p: nat, i: nat)
    requires p <= |index| && i < |index| && Rank(index[i].largestKey) >= Rank(key)
    requires forall j :: 0 <= j < i ==> Rank(index[j].largestKey) < Rank(key)
    requires forall j :: 0 <= j < p ==> Rank(index[j].largestKey) < Rank(key)
    requires forall j :: p <= j < |index| ==> Rank(index[j].largestKey) >= Rank(key)
    ensures p == i
  {
    var at := if p < i then p else i;
    assert Rank(index[at].largestKey) >= Rank(key) <==> at >= p;
  }

  // ---------------------------------------------------------------- the iterator

  // Every block can be read and holds a pair.
  ghost predicate Whole(lib: Lib, r: Reader) {
    forall i :: 0 <= i < |r.index| ==> BlockPairs(lib, r, i).Some? && BlockPairs(lib, r, i).value != []
  }

  lemma FromThenRest(pairs: seq<Pair>, i: nat, rest: seq<Pair>)
    requires i <= |pairs|
    ensures pairs[i..] + rest == if i == |pairs| then rest else [pairs[i]] + (pairs[i + 1..] + rest)
  {
  }

  lemma FinishedIsWhole(lib: Lib, groups: seq<seq<Pair>>)
    requires Lawful(lib) && FileFits(lib, groups) && groups != []
    ensures Open(FileOf(lib, groups)).Some? && Whole(lib, Open(FileOf(lib, groups)).value)
  {
    hide BlockPairs, FileOf, Open, Lawful;
    OpensFile(lib, groups);
    var r := Open(FileOf(lib, groups)).value;
    BlockRead(lib, groups, r, 0);
    forall i | 0 <= i < |r.index| ensures BlockPairs(lib, r, i).Some? && BlockPairs(lib, r, i).value != [] {
      BlockRead(lib, groups, r, i);
    }
  }

  // Iteration from a block on begins with its pairs.
  lemma BlockLoads(lib: Lib, r: Reader, i: nat)
    requires Whole(lib, r)
    ensures i >= |r.index| ==> IterateFrom(lib, r, i) == []
    ensures i < |r.index| ==>
              && BlockPairs(lib, r, i).Some? && BlockPairs(lib, r, i).value != []
              && var pairs := BlockPairs(lib, r, i).value;
                 [pairs[0]] + (pairs[1..] + IterateFrom(lib, r, i + 1)) == IterateFrom(lib, r, i)
  {
    hide BlockPairs;
    if i < |r.index| { FromThenRest(BlockPairs(lib, r, i).value, 0, IterateFrom(lib, r, i + 1)); }
  }

  class Iterator {
    const lib: Lib
    const reader: Reader
    var blockIdx: int
    var pairIdx: nat
    var pairs: seq<Pair>   // [] is nil: no block loaded yet

    ghost predicate Valid()
      reads this
    {
      && Whole(lib, reader)
      && (pairs == [] ==> blockIdx == -1)
      && (pairs != [] ==> 0 <= blockIdx < |reader.index| && pairIdx < |pairs|)
    }

    // The pairs that Next has not reached yet.
    ghost function Remaining(): seq<Pair>
      requires Valid()
      reads this
    {
      if pairs == [] then IterateFrom(lib, reader, 0) else pairs[pairIdx + 1..] + IterateFrom(lib, reader, blockIdx + 1)
    }

    constructor (lib: Lib, reader: Reader)
      requires Whole(lib, reader)
      ensures Valid() && Remaining() == IterateFrom(lib, reader, 0) && this.lib == lib && this.reader == reader
    {
      this.lib, this.reader, blockIdx, pairIdx, pairs := lib, reader, -1, 0, [];
    }

    method LoadBlock(i: int) returns (ok: bool)
      requires Valid() && i >= 0
      modifies this
      ensures ok <==> i < |reader.index|
      ensures ok ==> blockIdx == i && pairIdx == 0 && Some(pairs) == BlockPairs(lib, reader, i)
      ensures ok ==>
                && pairs != []
                && [pairs[0]] + (pairs[1..] + IterateFrom(lib, reader, i + 1)) == IterateFrom(lib, reader, i)
      ensures !ok ==> unchanged(this) && IterateFrom(lib, reader, i) == []
    {
      hide DecodeBlock, IterateFrom, Whole, Unpack;
      BlockLoads(lib, reader, i);
      if i >= |reader.index| {
        return false;
      }
      var entry := reader.index[i];
      var blockData := ReadBlock(lib, reader.data, entry.blockOffset, entry.blockSize);
      assert BlockPairs(lib, reader, i).Some?;
      var decoded := Decode(lib, blockData.value);
      pairs, blockIdx, pairIdx := decoded.value, i, 0;
      return true;
    }

    // Next yields the remaining pairs one by one and then false for ever.
    method Next() returns (ok: bool)
      requires Valid()
      modifies this
      ensures Valid()
      ensures ok <==> old(Remaining()) != []
      ensures ok ==> pairs != [] && [pairs[pairIdx]] + Remaining() == old(Remaining())
      ensures !ok ==> Remaining() == []
    {
      hide BlockPairs, IterateFrom;
      if pairs == [] {
        var loaded := LoadBlock(0);
        if !loaded {
          return false;
        }
        return pairIdx < |pairs|;
      }
      FromThenRest(pairs, pairIdx + 1, IterateFrom(lib, reader, blockIdx + 1));
      if pairIdx + 1 < |pairs| {
        pairIdx := pairIdx + 1;
        return true;
      }
      var loaded := LoadBlock(blockIdx + 1);
      if !loaded {
        return false;
      }
      return pairIdx < |pairs|;
    }
  }
}
