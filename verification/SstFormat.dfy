// The layout of a sorted string table (internal/ENG/LS/sst_writer.go, sst_reader.go,
// sst_dict.go) as functions, and the proof that the reader undoes the writer.
//
// A table is given by the pairs of each of its blocks.  The compressor, the trainer of
// its dictionary, the checksum and the two hashes are parameters.
module SstFormat {
  import opened Bytes
  import opened Codec

  datatype Pair = Pair(key: Key, value: Key)
  datatype IndexEntry = IndexEntry(largestKey: Key, blockOffset: int64, blockSize: int64)
  datatype Lib = Lib(crc: Key -> uint32, h1: Key -> uint32, h2: Key -> uint32,
                     train: Key -> Key, deflate: (Key, Key) -> Key, inflate: (Key, Key) -> Option<Key>)

  const BLOCK_SIZE := 4 * 1024
  const FOOTER_SIZE := 28
  const MAGIC: uint32 := 0x52545453

  // Inflating undoes deflating with the same dictionary; the trainer caps its dictionary.
  ghost predicate Lawful(lib: Lib) {
    && (forall block, dict :: lib.inflate(lib.deflate(block, dict), dict) == Some(block))
    && (forall block :: |lib.train(block)| <= 4096)
  }

  // ---------------------------------------------------------------- one block

  function PairBytes(p: Pair, k: Key): Key {
    Blob(p.key, Blob(p.value, k))
  }

  function PairsBytes(ps: seq<Pair>, k: Key): Key {
    if ps == [] then k else PairBytes(ps[0], PairsBytes(ps[1..], k))
  }

  // finishCurrentBlock: no restart points, then the checksum.
  function Seal(lib: Lib, body: Key): Key {
    body + [0, 0, 0, 0] + LittleEndian(lib.crc(body), 4, [])
  }

  function CompressPlain(lib: Lib, block: Key): Key {
    var compressed := [1] + lib.deflate(block, []);
    if |compressed| < |block| + 1 then compressed else [0] + block
  }

  function Compress(lib: Lib, block: Key): Key {
    if block == [] then []
    else
      var dict := if |block| < 8 then [] else lib.train(block);
      if dict == [] then CompressPlain(lib, block)
      else
        var compressed := lib.deflate(block, dict);
        if |compressed| >= |block| then CompressPlain(lib, block)
        else [2] + Uvarint(|dict|, dict + compressed)
  }

  function Decompress(lib: Lib, data: Key): Option<Key> {
    if |data| < 2 then None
    else if data[0] == 0 then Some(data[1..])
    else if data[0] == 1 then lib.inflate(data[1..], [])
    else if data[0] != 2 then None
    else
      match ReadUvarint(data[1..])
      case None => None
      case Some(len) =>
        match ReadBytes(len.0, len.1)
        case None => None
        case Some(dict) => lib.inflate(dict.1, dict.0)
  }

  function DecompressPlain(lib: Lib, data: Key): Option<Key> {
    if data == [] then None
    else if data[0] == 0 then Some(data[1..])
    else lib.inflate(data[1..], [])
  }

  // The tail of readBlock: the second decompressor, then the raw bytes, if the first fails.
  function Unpack(lib: Lib, raw: Key): Key {
    match Decompress(lib, raw)
    case Some(block) => block
    case None =>
      match DecompressPlain(lib, raw)
      case Some(block) => block
      case None => raw
  }

  lemma UnpackCompress(lib: Lib, block: Key)
    requires Lawful(lib) && block != []
    ensures Unpack(lib, Compress(lib, block)) == block
    ensures Compress(lib, block) != []
  {
    var c := Compress(lib, block);
    if c == CompressPlain(lib, block) {
      assert ([1] + lib.deflate(block, []))[1..] == lib.deflate(block, []);
      assert ([0] + block)[1..] == block;
    } else {
      var dict := lib.train(block);
      var rest := dict + lib.deflate(block, dict);
      ReadsUvarint(|dict|, rest);
      ReadsBytes(dict, lib.deflate(block, dict));
      assert c[1..] == Uvarint(|dict|, rest) && |Uvarint(|dict|, rest)| >= 1;
    }
  }

  // ---------------------------------------------------------------- decodeBlock

  function DecodeFrom(body: Key, pos: nat, end: nat): seq<Pair>
    decreases |body| - pos
  {
    if pos >= end || pos >= |body| then []
    else
      match ReadKey(body[pos..])
      case None => []
      case Some(key) =>
        match ReadKey(key.1)
        case None => []
        case Some(value) => [Pair(key.0, value.0)] + DecodeFrom(body, |body| - |value.1|, end)
  }

  function Segments(body: Key, points: seq<nat>): seq<Pair> {
    if points == [] then []
    else DecodeFrom(body, points[0], if |points| > 1 then points[1] else |body|) + Segments(body, points[1..])
  }

  function RestartPoints(data: Key, offset: nat, count: nat): seq<nat>
    requires offset + 4 * count <= |data|
    decreases count
  {
    if count == 0 then [] else [LittleValue(data[offset..offset + 4])] + RestartPoints(data, offset + 4, count - 1)
  }

  function DecodeBlock(lib: Lib, data: Key): Option<seq<Pair>> {
    if |data| < 8 then None
    else
      var n := |data| - 8;
      var count := LittleValue(data[n..n + 4]);
      if LittleValue(data[n + 4..]) != lib.crc(data[..n]) || n - 4 * count < 0 then None
      else Some(Segments(data[..n], if count == 0 then [0] else RestartPoints(data, n - 4 * count, count)))
  }

  ghost predicate PairFits(p: Pair) {
    |p.key| < LIMIT && |p.value| < LIMIT
  }

  ghost predicate PairsFit(ps: seq<Pair>) {
    forall i :: 0 <= i < |ps| ==> PairFits(ps[i])
  }

  lemma {:induction false} DecodesPairs(ps: seq<Pair>, body: Key, pos: nat)
    requires PairsFit(ps) && pos <= |body| && body[pos..] == PairsBytes(ps, [])
    ensures DecodeFrom(body, pos, |body|) == ps
  {
    hide PairBytes, ReadKey;
    if ps != [] {
      var rest := PairsBytes(ps[1..], []);
      DecodesPair(ps[0], rest, body, pos);
      var next := |body| - |rest|;
      assert body[next..] == body[pos..][next - pos..];
      DecodesPairs(ps[1..], body, next);
      assert [ps[0]] + ps[1..] == ps;
    }
  }

  lemma DecodesPair(p: Pair, rest: Key, body: Key, pos: nat)
    requires PairFits(p) && pos <= |body| && body[pos..] == PairBytes(p, rest)
    ensures pos < |body| && |rest| < |body| - pos && rest == body[pos..][|body| - |rest| - pos..]
    ensures DecodeFrom(body, pos, |body|) == [p] + DecodeFrom(body, |body| - |rest|, |body|)
  {
    hide Blob, ReadKey;
    BlobNotEmpty(p.key, Blob(p.value, rest));
    BlobNotEmpty(p.value, rest);
    ReadsKey(p.key, Blob(p.value, rest));
    ReadsKey(p.value, rest);
  }

  lemma BlobNotEmpty(s: Key, k: Key)
    ensures |Blob(s, k)| >= 1 + |s| + |k|
  {
    UvarintCat(|s|, s + k);
  }

  lemma DecodesSeal(lib: Lib, ps: seq<Pair>)
    requires PairsFit(ps) && ps != []
    ensures DecodeBlock(lib, Seal(lib, PairsBytes(ps, []))) == Some(ps)
  {
    hide PairsBytes, DecodeFrom, LittleEndian, LittleValue;
    var body := PairsBytes(ps, []);
    var data := Seal(lib, body);
    var sum := LittleEndian(lib.crc(body), 4, []);
    ReadsLittle32(lib.crc(body), []);
    assert sum[..4] == sum;
    var n := |data| - 8;
    assert data[..n] == body && data[n..n + 4] == [0, 0, 0, 0] && data[n + 4..] == sum;
    ZeroCount();
    assert body[0..] == body;
    DecodesPairs(ps, body, 0);
    assert [0][1..] == [];
    assert Segments(body, [0]) == ps + [];
    assert LittleValue(data[n + 4..]) == lib.crc(body);
    assert ps + [] == ps;
  }

  lemma ZeroCount()
    ensures LittleValue([0, 0, 0, 0]) == 0
  {
    var z: Key := [0, 0, 0, 0];
    assert z[1..] == [0, 0, 0] && z[1..][1..] == [0, 0] && z[1..][1..][1..] == [0] && z[1..][1..][1..][1..] == [];
  }

  // ---------------------------------------------------------------- the blocks of a file

  // A block that was stored holds at least one pair.
  ghost predicate GroupsFit(groups: seq<seq<Pair>>) {
    forall i :: 0 <= i < |groups| ==> groups[i] != [] && PairsFit(groups[i])
  }

  predicate NoneEmpty(groups: seq<seq<Pair>>) {
    forall i :: 0 <= i < |groups| ==> groups[i] != []
  }

  function LastKey(g: seq<Pair>): Key
    requires g != []
  {
    g[|g| - 1].key
  }

  function Chunk(lib: Lib, g: seq<Pair>): Key {
    Compress(lib, Seal(lib, PairsBytes(g, [])))
  }

  function Chunks(lib: Lib, groups: seq<seq<Pair>>): Key {
    if groups == [] then [] else Chunk(lib, groups[0]) + Chunks(lib, groups[1..])
  }

  function Flatten(groups: seq<seq<Pair>>): seq<Pair> {
    if groups == [] then [] else groups[0] + Flatten(groups[1..])
  }

  // The index for blocks that start at off.
  function Entries(lib: Lib, groups: seq<seq<Pair>>, off: nat): seq<IndexEntry>
    requires NoneEmpty(groups)
  {
    if groups == [] then []
    else
      var size := |Chunk(lib, groups[0])|;
      [IndexEntry(LastKey(groups[0]), ToInt64(off), ToInt64(size))] + Entries(lib, groups[1..], off + size)
  }

  function EntryBytes(e: IndexEntry, k: Key): Key {
    Blob(e.largestKey, LittleEndian(ToUint64(e.blockOffset), 8, LittleEndian(ToUint64(e.blockSize), 8, k)))
  }

  function IndexBytes(es: seq<IndexEntry>, k: Key): Key {
    if es == [] then k else EntryBytes(es[0], IndexBytes(es[1..], k))
  }

  function ReadEntry(data: Key): (r: Option<(IndexEntry, Key)>)
    ensures r.Some? ==> |r.value.1| < |data|
  {
    if |data| < 4 then None
    else
      match ReadKey(data)
      case None => None
      case Some(key) =>
        if |key.1| < 16 then None
        else Some((IndexEntry(key.0, ToInt64(LittleValue(key.1[..8])), ToInt64(LittleValue(key.1[8..16]))),
                   key.1[16..]))
  }

  // parseIndexBlock stops at the first entry that is cut off.
  function ParseIndex(data: Key): seq<IndexEntry> {
    match ReadEntry(data)
    case None => []
    case Some(r) => [r.0] + ParseIndex(r.1)
  }

  lemma ReadsEntry(e: IndexEntry, k: Key)
    requires |e.largestKey| < LIMIT
    ensures ReadEntry(EntryBytes(e, k)) == Some((e, k))
  {
    hide Blob, LittleEndian;
    var k1 := LittleEndian(ToUint64(e.blockSize), 8, k);
    var k2 := LittleEndian(ToUint64(e.blockOffset), 8, k1);
    ReadsLittle64(ToUint64(e.blockSize), k);
    ReadsLittle64(ToUint64(e.blockOffset), k1);
    ReadsKey(e.largestKey, k2);
    BlobNotEmpty(e.largestKey, k2);
    SignKept(e.blockOffset);
    SignKept(e.blockSize);
    assert k2[8..16] == k1[..8] && k2[16..] == k1[8..];
  }

  lemma {:induction false} ParsesIndex(es: seq<IndexEntry>)
    requires forall i :: 0 <= i < |es| ==> |es[i].largestKey| < LIMIT
    ensures ParseIndex(IndexBytes(es, [])) == es
  {
    hide EntryBytes, ReadEntry;
    if es != [] {
      ReadsEntry(es[0], IndexBytes(es[1..], []));
      ParsesIndex(es[1..]);
      assert [es[0]] + es[1..] == es;
    } else {
      assert ReadEntry([]).None? by { NoEntry(); }
    }
  }

  lemma NoEntry()
    ensures ReadEntry([]).None?
  {
  }

  // The entry names the last key of the block and the bytes it was compressed to.
  predicate PointsAt(lib: Lib, e: IndexEntry, g: seq<Pair>, data: Key)
    requires g != []
  {
    && e.largestKey == LastKey(g)
    && 0 <= e.blockOffset && 0 <= e.blockSize && e.blockOffset + e.blockSize <= |data|
    && data[e.blockOffset..e.blockOffset + e.blockSize] == Chunk(lib, g)
  }

  lemma EntrySteps(lib: Lib, groups: seq<seq<Pair>>, off: nat, i: nat)
    requires NoneEmpty(groups) && i < |groups|
    ensures |Entries(lib, groups, off)| == |groups|
            && |Entries(lib, groups[1..], off + |Chunk(lib, groups[0])|)| == |groups| - 1
    ensures Entries(lib, groups, off)[i] ==
            if i == 0 then IndexEntry(LastKey(groups[0]), ToInt64(off), ToInt64(|Chunk(lib, groups[0])|))
            else Entries(lib, groups[1..], off + |Chunk(lib, groups[0])|)[i - 1]
  {
    hide Chunk;
    EntriesLength(lib, groups, off);
    EntriesLength(lib, groups[1..], off + |Chunk(lib, groups[0])|);
  }

  // The blocks stand behind the bytes pre, whatever follows them.
  lemma Middle(pre: Key, c: Key, rest: Key, post: Key)
    ensures pre + (c + rest + post) == pre + c + (rest + post)
    ensures (pre + (c + rest + post))[|pre|..|pre| + |c|] == c
  {
    assert (pre + c + (rest + post))[|pre|..|pre| + |c|] == c;
  }

  lemma {:induction false} EntryPoints(lib: Lib, groups: seq<seq<Pair>>, pre: Key, post: Key, i: nat)
    requires NoneEmpty(groups) && i < |groups| && |pre + (Chunks(lib, groups) + post)| < LIMIT
    ensures |Entries(lib, groups, |pre|)| == |groups|
    ensures PointsAt(lib, Entries(lib, groups, |pre|)[i], groups[i], pre + (Chunks(lib, groups) + post))
  {
    hide Chunk, Entries, PointsAt, Chunks;
    var c, rest := Chunk(lib, groups[0]), Chunks(lib, groups[1..]);
    ChunksStep(lib, groups);
    EntrySteps(lib, groups, |pre|, i);
    Middle(pre, c, rest, post);
    if i > 0 {
      EntryPoints(lib, groups[1..], pre + c, post, i - 1);
    } else {
      FirstPoints(lib, groups[0], pre, rest, post);
    }
  }

  lemma FirstPoints(lib: Lib, g: seq<Pair>, pre: Key, rest: Key, post: Key)
    requires g != [] && |pre + (Chunk(lib, g) + rest + post)| < LIMIT
    ensures PointsAt(lib, IndexEntry(LastKey(g), ToInt64(|pre|), ToInt64(|Chunk(lib, g)|)), g,
                     pre + (Chunk(lib, g) + rest + post))
  {
    hide Chunk;
    Middle(pre, Chunk(lib, g), rest, post);
  }

  lemma ChunksStep(lib: Lib, groups: seq<seq<Pair>>)
    requires NoneEmpty(groups) && groups != []
    ensures Chunks(lib, groups) == Chunk(lib, groups[0]) + Chunks(lib, groups[1..])
  {
    hide Chunk;
  }

  lemma {:induction false} EntriesLength(lib: Lib, groups: seq<seq<Pair>>, off: nat)
    requires NoneEmpty(groups)
    ensures |Entries(lib, groups, off)| == |groups|
    ensures forall i :: 0 <= i < |groups| ==> Entries(lib, groups, off)[i].largestKey == LastKey(groups[i])
  {
    hide Chunk;
    if groups != [] { EntriesLength(lib, groups[1..], off + |Chunk(lib, groups[0])|); }
  }

  // ---------------------------------------------------------------- the key filter

  predicate Bit(x: nat, i: nat) {
    if i == 0 then x % 2 == 1 else Bit(x / 2, i - 1)
  }

  // x | 1 << i
  function SetBit(x: nat, i: nat): nat {
    if i == 0 then x / 2 * 2 + 1 else SetBit(x / 2, i - 1) * 2 + x % 2
  }

  lemma {:induction false} SetBitOnly(x: nat, i: nat, j: nat)
    ensures Bit(SetBit(x, i), j) <==> i == j || Bit(x, j)
  {
    if i > 0 && j > 0 {
      SetBitOnly(x / 2, i - 1, j - 1);
      assert SetBit(x, i) / 2 == SetBit(x / 2, i - 1);
    }
  }

  lemma SetBitByte(x: byte, i: nat)
    requires i < 8
    ensures SetBit(x, i) < 256
  {
    SetBitBound(x, i, 8);
    assert Two(3) == 8 && Two(6) == 64 && Two(8) == 256;
  }

  ghost function Two(n: nat): nat {
    if n == 0 then 1 else 2 * Two(n - 1)
  }

  lemma {:induction false} SetBitBound(x: nat, i: nat, n: nat)
    requires i < n && x < Two(n)
    ensures SetBit(x, i) < Two(n)
  {
    if i > 0 { SetBitBound(x / 2, i - 1, n - 1); }
  }

  function SetBucket(bloom: Key, bucket: nat): (r: Key)
    requires bucket < 8 * |bloom|
    ensures |r| == |bloom|
  {
    SetBitByte(bloom[bucket / 8], bucket % 8);
    bloom[bucket / 8 := SetBit(bloom[bucket / 8], bucket % 8)]
  }

  predicate HasBucket(bloom: Key, bucket: nat)
    requires bucket < 8 * |bloom|
  {
    Bit(bloom[bucket / 8], bucket % 8)
  }

  lemma SetBucketOnly(bloom: Key, b: nat, c: nat)
    requires b < 8 * |bloom| && c < 8 * |bloom|
    ensures HasBucket(SetBucket(bloom, b), c) <==> b == c || HasBucket(bloom, c)
  {
    SetBitOnly(bloom[b / 8], b % 8, c % 8);
    if b / 8 == c / 8 && b % 8 == c % 8 { assert b == c; }
  }

  function BloomSize(n: nat): (size: nat)
    ensures size >= 1
  {
    if n == 0 then 1 else (n * 10 + 7) / 8
  }

  // The two bits of a hash pair, modulo bits.
  function Mark(bloom: Key, h: uint32, g: uint32, bits: nat): (r: Key)
    requires 0 < bits <= 8 * |bloom|
    ensures |r| == |bloom|
  {
    SetBucket(SetBucket(bloom, h % bits), g % bits)
  }

  function KeyFilter(lib: Lib, bloom: Key, keys: seq<Key>): (r: Key)
    requires bloom != []
    ensures |r| == |bloom|
  {
    if keys == [] then bloom
    else
      var n := |keys| - 1;
      Mark(KeyFilter(lib, bloom, keys[..n]), lib.h1(keys[n]), lib.h2(keys[n]), 8 * |bloom|)
  }

  function Prefix8(key: Key): Key {
    if |key| > 8 then key[..8] else key
  }

  // The prefix filter takes its buckets modulo the number of bytes.
  function PrefixFilter(lib: Lib, bloom: Key, keys: seq<Key>): (r: Key)
    requires bloom != []
    ensures |r| == |bloom|
  {
    if keys == [] then bloom
    else
      var n := |keys| - 1;
      Mark(PrefixFilter(lib, bloom, keys[..n]), lib.h1(Prefix8(keys[n])), lib.h2(Prefix8(keys[n])), |bloom|)
  }

  predicate MayContain(lib: Lib, bloom: Key, key: Key) {
    bloom == [] || (HasBucket(bloom, lib.h1(key) % (8 * |bloom|)) && HasBucket(bloom, lib.h2(key) % (8 * |bloom|)))
  }

  // The filter answers true for exactly the keys whose two bits some added keys set;
  // so an added key is never missed.
  lemma {:induction false} FilterExact(lib: Lib, bloom: Key, keys: seq<Key>, c: nat)
    requires bloom != [] && c < 8 * |bloom|
    ensures HasBucket(KeyFilter(lib, bloom, keys), c) <==>
            || HasBucket(bloom, c)
            || exists i ::
                 0 <= i < |keys| && (c == lib.h1(keys[i]) % (8 * |bloom|) || c == lib.h2(keys[i]) % (8 * |bloom|))
  {
    hide HasBucket, Mark;
    if keys != [] {
      var n := |keys| - 1;
      FilterExact(lib, bloom, keys[..n], c);
      MarkExact(KeyFilter(lib, bloom, keys[..n]), lib.h1(keys[n]), lib.h2(keys[n]), 8 * |bloom|, c);
      forall i | 0 <= i < n ensures keys[..n][i] == keys[i] { }
    }
  }

  lemma MarkExact(bloom: Key, h: uint32, g: uint32, bits: nat, c: nat)
    requires 0 < bits <= 8 * |bloom| && c < 8 * |bloom|
    ensures HasBucket(Mark(bloom, h, g, bits), c) <==> HasBucket(bloom, c) || c == h % bits || c == g % bits
  {
    hide HasBucket, SetBucket;
    SetBucketOnly(bloom, h % bits, c);
    SetBucketOnly(SetBucket(bloom, h % bits), g % bits, c);
  }

  // The prefix filter has a bit set for exactly the hashes of the first eight bytes of
  // some key; it uses no bit beyond its number of bytes.
  lemma {:induction false} PrefixExact(lib: Lib, bloom: Key, keys: seq<Key>, c: nat)
    requires bloom != [] && c < 8 * |bloom|
    ensures HasBucket(PrefixFilter(lib, bloom, keys), c) <==>
            || HasBucket(bloom, c)
            || exists i ::
                 && 0 <= i < |keys|
                 && var start := if |keys[i]| <= 8 then keys[i] else keys[i][..8];
                    c == lib.h1(start) % |bloom| || c == lib.h2(start) % |bloom|
  {
    hide HasBucket, Mark;
    if keys != [] {
      var n := |keys| - 1;
      PrefixExact(lib, bloom, keys[..n], c);
      MarkExact(PrefixFilter(lib, bloom, keys[..n]), lib.h1(Prefix8(keys[n])), lib.h2(Prefix8(keys[n])), |bloom|, c);
      forall i | 0 <= i < n ensures keys[..n][i] == keys[i] { }
    }
  }

  lemma NeverMissed(lib: Lib, bloom: Key, keys: seq<Key>, key: Key)
    requires bloom != [] && key in keys
    ensures MayContain(lib, KeyFilter(lib, bloom, keys), key)
  {
    var i :| 0 <= i < |keys| && keys[i] == key;
    FilterExact(lib, bloom, keys, lib.h1(key) % (8 * |bloom|));
    FilterExact(lib, bloom, keys, lib.h2(key) % (8 * |bloom|));
  }

  function Zeros(n: nat): Key {
    seq(n, _ => 0)
  }

  // MayContainPrefix counts bits where the writer counted bytes.
  predicate MayContainPrefix(lib: Lib, filter: Key, prefix: Key) {
    var p := Prefix8(prefix);
    filter == [] || (HasBucket(filter, lib.h1(p) % (8 * |filter|)) && HasBucket(filter, lib.h2(p) % (8 * |filter|)))
  }

  // So the start of a key that the filter was built from is found exactly if both of its
  // hashes happen to fall into the first eighth of the bits.
  lemma PrefixFound(lib: Lib, n: nat, keys: seq<Key>, key: Key)
    requires n > 0 && key in keys
    ensures MayContainPrefix(lib, PrefixFilter(lib, Zeros(n), keys), key) <==>
              var start := if |key| <= 8 then key else key[..8];
              lib.h1(start) % (8 * n) < n && lib.h2(start) % (8 * n) < n
  {
    hide HasBucket, PrefixFilter;
    var start := Prefix8(key);
    var i :| 0 <= i < |keys| && keys[i] == key;
    BucketFound(lib, n, keys, i, lib.h1(start));
    BucketFound(lib, n, keys, i, lib.h2(start));
  }

  lemma BucketFound(lib: Lib, n: nat, keys: seq<Key>, i: nat, h: uint32)
    requires n > 0 && i < |keys| && (h == lib.h1(Prefix8(keys[i])) || h == lib.h2(Prefix8(keys[i])))
    ensures HasBucket(PrefixFilter(lib, Zeros(n), keys), h % (8 * n)) <==> h % (8 * n) < n
  {
    hide HasBucket, PrefixFilter;
    var c := h % (8 * n);
    PrefixExact(lib, Zeros(n), keys, c);
    NoBucket(n, c);
    if c < n { SameRest(h, n); }
  }

  lemma NoBucket(n: nat, c: nat)
    requires c < 8 * n
    ensures !HasBucket(Zeros(n), c)
  {
    NoBit(c % 8);
  }

  lemma {:induction false} NoBit(i: nat)
    ensures !Bit(0, i)
  {
    if i > 0 { NoBit(i - 1); }
  }

  lemma SameRest(h: nat, n: nat)
    requires n > 0 && h % (8 * n) < n
    ensures h % n == h % (8 * n)
  {
    var q, r := h / (8 * n), h % (8 * n);
    assert h == n * (8 * q) + r by { assert 8 * n * q == n * (8 * q); }
    RestOf(h, n, 8 * q, r);
  }

  lemma RestOf(h: nat, n: nat, q: nat, r: nat)
    requires r < n && h == n * q + r
    ensures h % n == r
  {
    var a, b := h / n, h % n;
    assert n * (a - q) == r - b by { assert n * (a - q) == n * a - n * q; }
    Multiple(n, a - q);
  }

  lemma Multiple(n: int, e: int)
    requires n > 0
    ensures e >= 1 ==> n * e >= n
    ensures e <= -1 ==> n * e <= -n
  {
  }

  // The table of the one key "a", whose FNV-1a hash is 0xE40C292C, denies that it may
  // hold a key with the prefix "a".
  lemma PrefixMissed(lib: Lib)
    requires lib.h1([97]) == 0xE40C292C
    ensures !MayContainPrefix(lib, PrefixBloomOf(lib, [[97]]), [97])
  {
    var keys: seq<Key> := [[97]];
    assert keys[0] == [97];
    PrefixFound(lib, BloomSize(1), keys, [97]);
  }

  // ---------------------------------------------------------------- the file


  function KeysOf(ps: seq<Pair>): (keys: seq<Key>)
    ensures |keys| == |ps|
  {
    seq(|ps|, i requires 0 <= i < |ps| => ps[i].key)
  }

  function IndexOf(lib: Lib, groups: seq<seq<Pair>>): Key
    requires NoneEmpty(groups)
  {
    IndexBytes(Entries(lib, groups, 0), [])
  }

  function BloomOf(lib: Lib, keys: seq<Key>): Key {
    KeyFilter(lib, Zeros(BloomSize(|keys|)), keys)
  }

  function PrefixBloomOf(lib: Lib, keys: seq<Key>): Key {
    PrefixFilter(lib, Zeros(BloomSize(|keys|)), keys)
  }

  function Footer(indexOffset: nat, indexSize: nat, bloomOffset: nat, bloomSize: nat): Key {
    LittleEndian(indexOffset, 8, LittleEndian(indexSize % 0x1_0000_0000, 4,
      LittleEndian(bloomOffset, 8, LittleEndian(bloomSize % 0x1_0000_0000, 4, LittleEndian(MAGIC, 4, [])))))
  }

  // Finish
  function FileOf(lib: Lib, groups: seq<seq<Pair>>): Key
    requires NoneEmpty(groups)
  {
    var chunks, index, keys := Chunks(lib, groups), IndexOf(lib, groups), KeysOf(Flatten(groups));
    chunks + index + BloomOf(lib, keys) + PrefixBloomOf(lib, keys)
    + Footer(|chunks|, |index|, |chunks| + |index|, BloomSize(|keys|))
  }

  datatype Reader = Reader(data: Key, index: seq<IndexEntry>, bloom: Key)

  // openSST; None stands for ErrInvalidSSTFormat and for a slice out of range.
  function Open(data: Key): Option<Reader> {
    if |data| < 32 then None
    else
      var f := |data| - FOOTER_SIZE;
      var indexOffset, indexSize := LittleValue(data[f..f + 8]), LittleValue(data[f + 8..f + 12]);
      var bloomOffset, bloomSize := LittleValue(data[f + 12..f + 20]), LittleValue(data[f + 20..f + 24]);
      if LittleValue(data[f + 24..]) != MAGIC then None
      else
        var hasIndex, hasBloom := 0 < indexOffset < |data|, 0 < bloomOffset < |data|;
        if (hasIndex && indexOffset + indexSize > |data|) || (hasBloom && bloomOffset + bloomSize > |data|) then None
        else
          Some(Reader(data,
                      if hasIndex then ParseIndex(data[indexOffset..indexOffset + indexSize]) else [],
                      if hasBloom then data[bloomOffset..bloomOffset + bloomSize] else []))
  }

  // The sizes that the footer holds in 32 bits are not cut.
  ghost predicate FileFits(lib: Lib, groups: seq<seq<Pair>>) {
    && NoneEmpty(groups) && GroupsFit(groups)
    && |FileOf(lib, groups)| < LIMIT
    && |IndexOf(lib, groups)| < 0x1_0000_0000 && BloomSize(|Flatten(groups)|) < 0x1_0000_0000
  }

  lemma FooterRead(a: uint64, b: uint32, c: uint64, d: uint32)
    ensures var f := Footer(a, b, c, d);
            && |f| == 28 && LittleValue(f[..8]) == a && LittleValue(f[8..12]) == b && LittleValue(f[12..20]) == c
            && LittleValue(f[20..24]) == d && LittleValue(f[24..]) == MAGIC
  {
    hide LittleEndian, LittleValue;
    var k1 := LittleEndian(MAGIC, 4, []);
    var k2 := LittleEndian(d, 4, k1);
    var k3 := LittleEndian(c, 8, k2);
    var k4 := LittleEndian(b, 4, k3);
    var f := LittleEndian(a, 8, k4);
    ReadsLittle32(MAGIC, []);
    ReadsLittle32(d, k1);
    ReadsLittle64(c, k2);
    ReadsLittle32(b, k3);
    ReadsLittle64(a, k4);
    assert k1[..4] == k1;
    assert f[8..12] == k4[..4] && k4[4..] == f[12..];
    assert f[12..20] == k3[..8] && f[20..] == k2;
    assert f[20..24] == k2[..4] && f[24..] == k1;
  }

  lemma ChunksNotEmpty(lib: Lib, groups: seq<seq<Pair>>)
    requires Lawful(lib) && groups != []
    ensures Chunks(lib, groups) != []
  {
    UnpackCompress(lib, Seal(lib, PairsBytes(groups[0], [])));
  }

  lemma FileParts(data: Key, chunks: Key, index: Key, bloom: Key, prefix: Key, footer: Key)
    requires data == chunks + index + bloom + prefix + footer && |footer| == FOOTER_SIZE
    ensures var f := |data| - FOOTER_SIZE;
            && data[f..f + 8] == footer[..8] && data[f + 8..f + 12] == footer[8..12]
            && data[f + 12..f + 20] == footer[12..20] && data[f + 20..f + 24] == footer[20..24]
            && data[f + 24..] == footer[24..]
            && data[|chunks|..|chunks| + |index|] == index
            && data[|chunks| + |index|..|chunks| + |index| + |bloom|] == bloom
  {
  }

  // The footer of a laid out file reads back as the places of its parts.
  lemma FooterOfParts(data: Key, chunks: Key, index: Key, bloom: Key, prefix: Key)
    requires |chunks| + |index| < LIMIT && |index| < 0x1_0000_0000 && |bloom| < 0x1_0000_0000
    requires data == chunks + index + bloom + prefix + Footer(|chunks|, |index|, |chunks| + |index|, |bloom|)
    ensures |data| >= |chunks| + |index| + |bloom| + FOOTER_SIZE
    ensures var f := |data| - FOOTER_SIZE;
            && LittleValue(data[f..f + 8]) == |chunks| && LittleValue(data[f + 8..f + 12]) == |index|
            && LittleValue(data[f + 12..f + 20]) == |chunks| + |index| && LittleValue(data[f + 20..f + 24]) == |bloom|
            && LittleValue(data[f + 24..]) == MAGIC
  {
    hide LittleValue, Footer;
    FooterRead(|chunks|, |index|, |chunks| + |index|, |bloom|);
    FileParts(data, chunks, index, bloom, prefix, Footer(|chunks|, |index|, |chunks| + |index|, |bloom|));
  }

  // A file laid out from such parts opens to the index and the filter.
  lemma OpensParts(data: Key, chunks: Key, index: Key, bloom: Key, prefix: Key)
    requires |chunks| + |index| < LIMIT && |index| < 0x1_0000_0000 && |bloom| < 0x1_0000_0000
    requires data == chunks + index + bloom + prefix + Footer(|chunks|, |index|, |chunks| + |index|, |bloom|)
    requires chunks != [] && |index| >= 4
    ensures Open(data) == Some(Reader(data, ParseIndex(index), bloom))
  {
    hide LittleValue, Footer, ParseIndex, Open;
    FooterOfParts(data, chunks, index, bloom, prefix);
    Slices(data, chunks, index, bloom, prefix + Footer(|chunks|, |index|, |chunks| + |index|, |bloom|));
    OpensAt(data, |chunks|, |index|, |chunks| + |index|, |bloom|);
  }

  lemma OpensAt(data: Key, i: nat, m: nat, j: nat, n: nat)
    requires |data| >= 32 && 0 < i && i + m < |data| && 0 < j && j + n < |data|
    requires var f := |data| - FOOTER_SIZE;
             && LittleValue(data[f..f + 8]) == i && LittleValue(data[f + 8..f + 12]) == m
             && LittleValue(data[f + 12..f + 20]) == j && LittleValue(data[f + 20..f + 24]) == n
             && LittleValue(data[f + 24..]) == MAGIC
    ensures Open(data) == Some(Reader(data, ParseIndex(data[i..i + m]), data[j..j + n]))
  {
    hide LittleValue, ParseIndex;
  }

  lemma Slices(data: Key, a: Key, b: Key, c: Key, rest: Key)
    requires data == a + b + c + rest
    ensures data[|a|..|a| + |b|] == b && data[|a| + |b|..|a| + |b| + |c|] == c
  {
  }

  // A finished file opens to its index and its filter.
  lemma OpensFile(lib: Lib, groups: seq<seq<Pair>>)
    requires Lawful(lib) && FileFits(lib, groups) && groups != []
    ensures Open(FileOf(lib, groups)) ==
            Some(Reader(FileOf(lib, groups), Entries(lib, groups, 0), BloomOf(lib, KeysOf(Flatten(groups)))))
  {
    hide Open, Chunks, IndexOf, BloomOf, PrefixBloomOf, Footer, ParseIndex, Entries, Flatten, GroupsFit;
    var keys, data := KeysOf(Flatten(groups)), FileOf(lib, groups);
    var chunks, index, bloom := Chunks(lib, groups), IndexOf(lib, groups), BloomOf(lib, keys);
    FilterLength(lib, keys);
    ChunksNotEmpty(lib, groups);
    IndexParses(lib, groups);
    IndexLong(lib, groups);
    OpensParts(data, chunks, index, bloom, PrefixBloomOf(lib, keys));
  }

  lemma IndexLong(lib: Lib, groups: seq<seq<Pair>>)
    requires NoneEmpty(groups) && groups != []
    ensures |IndexOf(lib, groups)| >= 17
  {
    hide Blob, Chunk;
    var es := Entries(lib, groups, 0);
    var k := IndexBytes(es[1..], []);
    var k1 := LittleEndian(ToUint64(es[0].blockSize), 8, k);
    ReadsLittle64(ToUint64(es[0].blockSize), k);
    ReadsLittle64(ToUint64(es[0].blockOffset), k1);
    BlobNotEmpty(es[0].largestKey, LittleEndian(ToUint64(es[0].blockOffset), 8, k1));
  }

  lemma FilterLength(lib: Lib, keys: seq<Key>)
    ensures |BloomOf(lib, keys)| == BloomSize(|keys|)
  {
  }

  lemma EntryKeysFit(lib: Lib, groups: seq<seq<Pair>>)
    requires NoneEmpty(groups) && GroupsFit(groups)
    ensures forall i :: 0 <= i < |Entries(lib, groups, 0)| ==> |Entries(lib, groups, 0)[i].largestKey| < LIMIT
  {
    EntriesLength(lib, groups, 0);
    forall i | 0 <= i < |groups| ensures |Entries(lib, groups, 0)[i].largestKey| < LIMIT {
      assert PairFits(groups[i][|groups[i]| - 1]);
    }
  }

  lemma IndexParses(lib: Lib, groups: seq<seq<Pair>>)
    requires NoneEmpty(groups) && GroupsFit(groups)
    ensures ParseIndex(IndexOf(lib, groups)) == Entries(lib, groups, 0)
  {
    EntryKeysFit(lib, groups);
    ParsesIndex(Entries(lib, groups, 0));
  }

  // ---------------------------------------------------------------- reading the blocks

  // readBlock
  function ReadBlock(lib: Lib, data: Key, offset: int, size: int): Option<Key> {
    if offset < 0 || offset >= |data| || size < 0 then None
    else Some(Unpack(lib, data[offset..if offset + size > |data| then |data| else offset + size]))
  }

  function BlockPairs(lib: Lib, r: Reader, i: nat): Option<seq<Pair>>
    requires i < |r.index|
  {
    match ReadBlock(lib, r.data, r.index[i].blockOffset, r.index[i].blockSize)
    case None => None
    case Some(block) => DecodeBlock(lib, block)
  }

  lemma BlockRead(lib: Lib, groups: seq<seq<Pair>>, r: Reader, i: nat)
    requires Lawful(lib) && FileFits(lib, groups) && Open(FileOf(lib, groups)) == Some(r) && i < |groups|
    ensures |r.index| == |groups| && r.index[i].largestKey == LastKey(groups[i])
    ensures BlockPairs(lib, r, i) == Some(groups[i])
  {
    hide Open, Compress, Unpack, Seal, DecodeBlock, IndexOf, BloomOf, PrefixBloomOf, Footer, Flatten;
    OpensFile(lib, groups);
    var chunks := Chunks(lib, groups);
    var keys := KeysOf(Flatten(groups));
    var post := IndexOf(lib, groups) + BloomOf(lib, keys) + PrefixBloomOf(lib, keys)
      + Footer(|chunks|, |IndexOf(lib, groups)|, |chunks| + |IndexOf(lib, groups)|, BloomSize(|keys|));
    assert r.data == [] + (chunks + post);
    EntryPoints(lib, groups, [], post, i);
    var block := Seal(lib, PairsBytes(groups[i], []));
    SealLong(lib, PairsBytes(groups[i], []));
    UnpackCompress(lib, block);
    DecodesSeal(lib, groups[i]);
  }

  lemma SealLong(lib: Lib, body: Key)
    ensures |Seal(lib, body)| >= 4
  {
  }

  // What iterating from block i on yields; it ends at a block that cannot be read.
  function IterateFrom(lib: Lib, r: Reader, i: nat): seq<Pair>
    decreases |r.index| - i
  {
    if i >= |r.index| then []
    else
      match BlockPairs(lib, r, i)
      case None => []
      case Some(ps) => if ps == [] then [] else ps + IterateFrom(lib, r, i + 1)
  }

  lemma {:induction false} IteratesGroups(lib: Lib, groups: seq<seq<Pair>>, r: Reader, i: nat)
    requires Lawful(lib) && FileFits(lib, groups) && Open(FileOf(lib, groups)) == Some(r) && i <= |groups| == |r.index|
    ensures IterateFrom(lib, r, i) == Flatten(groups[i..])
    decreases |groups| - i
  {
    hide Open, BlockPairs, FileFits, FileOf, Lawful;
    if i < |groups| {
      BlockRead(lib, groups, r, i);
      GroupNotEmpty(lib, groups, i);
      IteratesGroups(lib, groups, r, i + 1);
      assert groups[i..][1..] == groups[i + 1..];
    }
  }

  lemma GroupNotEmpty(lib: Lib, groups: seq<seq<Pair>>, i: nat)
    requires FileFits(lib, groups) && i < |groups|
    ensures groups[i] != []
  {
  }

  // The reader of a finished file yields exactly the pairs that were added, in their
  // order, however they were split into blocks.
  lemma IterationRoundTrip(lib: Lib, groups: seq<seq<Pair>>)
    requires Lawful(lib) && FileFits(lib, groups) && groups != []
    ensures Open(FileOf(lib, groups)).Some?
    ensures IterateFrom(lib, Open(FileOf(lib, groups)).value, 0) == Flatten(groups)
  {
    OpensFile(lib, groups);
    var r := Open(FileOf(lib, groups)).value;
    BlockRead(lib, groups, r, 0);
    IteratesGroups(lib, groups, r, 0);
    assert groups[0..] == groups;
  }
}
