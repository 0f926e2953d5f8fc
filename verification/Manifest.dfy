// The manifest of the storage engine (internal/ENG/LS/manifest.go) and the step
// that adds a flushed file to it (internal/ENG/LS/flush.go, updateManifest).
//
// The file on disk always parses to the version in memory.  The creation time is not
// written, so it is not part of a version here.
module Manifest {
  import opened Bytes
  import opened Codec

  datatype FileMeta = FileMeta(minKey: Key, maxKey: Key, fileId: uint64, size: int64, level: int64, bloomBits: int64)
  datatype Version = Version(num: int64, levels: seq<seq<FileMeta>>)

  // Go slices are shorter than 2^63.
  ghost predicate FileFits(f: FileMeta) {
    |f.minKey| < LIMIT && |f.maxKey| < LIMIT
  }

  ghost predicate LevelFits(level: seq<FileMeta>) {
    forall i :: 0 <= i < |level| ==> FileFits(level[i])
  }

  ghost predicate Fits(v: Version) {
    && |v.levels| < LIMIT
    && (forall i :: 0 <= i < |v.levels| ==> |v.levels[i]| < LIMIT)
    && (forall i :: 0 <= i < |v.levels| ==> LevelFits(v.levels[i]))
  }

  // ---------------------------------------------------------------- encoding

  function Int64(x: int64, k: Key): Key {
    LittleEndian(ToUint64(x), 8, k)
  }

  function FileTail(f: FileMeta, k: Key): Key {
    LittleEndian(f.fileId, 8, Int64(f.size, Int64(f.level, Int64(f.bloomBits, k))))
  }

  function FileBytes(f: FileMeta, k: Key): Key {
    Blob(f.minKey, Blob(f.maxKey, FileTail(f, k)))
  }

  function FilesBytes(files: seq<FileMeta>, k: Key): Key {
    if files == [] then k else FileBytes(files[0], FilesBytes(files[1..], k))
  }

  function LevelsBytes(levels: seq<seq<FileMeta>>, k: Key): Key
    requires forall i :: 0 <= i < |levels| ==> |levels[i]| < LIMIT
  {
    if levels == [] then k else Int64(|levels[0]|, FilesBytes(levels[0], LevelsBytes(levels[1..], k)))
  }

  function Body(v: Version, k: Key): Key
    requires |v.levels| < LIMIT && forall i :: 0 <= i < |v.levels| ==> |v.levels[i]| < LIMIT
  {
    Int64(v.num, Int64(|v.levels|, LevelsBytes(v.levels, k)))
  }

  // crc32.Checksum with the Koopman table is any function of the bytes.
  type Crc = Key -> uint32

  function Encode(v: Version, crc: Crc): Key
    requires |v.levels| < LIMIT && forall i :: 0 <= i < |v.levels| ==> |v.levels[i]| < LIMIT
  {
    Body(v, LittleEndian(crc(Body(v, [])), 4, []))
  }

  // ---------------------------------------------------------------- parsing
  //
  // None stands for ErrInvalidManifest and for a run-time panic.

  function ReadInt64(data: Key): Option<(int64, Key)> {
    match ReadLittle(data, 8)
    case None => None
    case Some(r) => Some((ToInt64(r.0), r.1))
  }

  function ReadTail(min: Key, max: Key, data: Key): Option<(FileMeta, Key)> {
    match ReadLittle(data, 8)
    case None => None
    case Some(id) =>
      match ReadInt64(id.1)
      case None => None
      case Some(size) =>
        match ReadInt64(size.1)
        case None => None
        case Some(level) =>
          match ReadInt64(level.1)
          case None => None
          case Some(bits) => Some((FileMeta(min, max, id.0 % 0x1_0000_0000_0000_0000, size.0, level.0, bits.0), bits.1))
  }

  function ReadFile(data: Key): Option<(FileMeta, Key)> {
    match ReadKey(data)
    case None => None
    case Some(min) =>
      match ReadKey(min.1)
      case None => None
      case Some(max) => ReadTail(min.0, max.0, max.1)
  }

  function ReadFiles(n: nat, data: Key): Option<(seq<FileMeta>, Key)> {
    if n == 0 then Some(([], data))
    else
      match ReadFile(data)
      case None => None
      case Some(f) =>
        match ReadFiles(n - 1, f.1)
        case None => None
        case Some(rest) => Some(([f.0] + rest.0, rest.1))
  }

  function ReadLevel(data: Key): Option<(seq<FileMeta>, Key)> {
    match ReadInt64(data)
    case None => None
    case Some(count) => if count.0 < 0 then None else ReadFiles(count.0, count.1)
  }

  function ReadLevels(n: nat, data: Key): Option<(seq<seq<FileMeta>>, Key)> {
    if n == 0 then Some(([], data))
    else
      match ReadLevel(data)
      case None => None
      case Some(level) =>
        match ReadLevels(n - 1, level.1)
        case None => None
        case Some(rest) => Some(([level.0] + rest.0, rest.1))
  }

  function ReadBody(data: Key): Option<Version> {
    match ReadInt64(data)
    case None => None
    case Some(num) =>
      match ReadInt64(num.1)
      case None => None
      case Some(count) =>
        if count.0 < 0 then None
        else
          match ReadLevels(count.0, count.1)
          case None => None
          case Some(levels) => Some(Version(num.0, levels.0))
  }

  function Parse(data: Key, crc: Crc): Option<Version> {
    if |data| < 16 || ReadBody(data).None? || LittleValue(data[|data| - 4..]) != crc(data[..|data| - 4]) then None
    else ReadBody(data)
  }

  // ---------------------------------------------------------------- round trip

  lemma ReadsInt64(x: int64, k: Key)
    ensures ReadInt64(Int64(x, k)) == Some((x, k)) && |Int64(x, k)| == 8 + |k|
  {
    ReadsLittle64(ToUint64(x), k);
    SignKept(x);
  }

  lemma ReadsTail(f: FileMeta, k: Key)
    ensures ReadTail(f.minKey, f.maxKey, FileTail(f, k)) == Some((f, k))
  {
    hide Int64, ReadInt64, LittleEndian, ReadLittle;
    var k3 := Int64(f.bloomBits, k);
    var k2 := Int64(f.level, k3);
    ReadsLittle64(f.fileId, Int64(f.size, k2));
    ReadsInt64(f.size, k2);
    ReadsInt64(f.level, k3);
    ReadsInt64(f.bloomBits, k);
  }

  lemma ReadsFile(f: FileMeta, k: Key)
    requires FileFits(f)
    ensures ReadFile(FileBytes(f, k)) == Some((f, k))
  {
    hide Blob, ReadKey, FileTail, ReadTail;
    ReadsKey(f.minKey, Blob(f.maxKey, FileTail(f, k)));
    ReadsKey(f.maxKey, FileTail(f, k));
    ReadsTail(f, k);
  }

  lemma {:induction false} ReadsFiles(files: seq<FileMeta>, k: Key)
    requires forall i :: 0 <= i < |files| ==> FileFits(files[i])
    ensures ReadFiles(|files|, FilesBytes(files, k)) == Some((files, k))
  {
    hide FileBytes, ReadFile;
    if files != [] {
      ReadsFile(files[0], FilesBytes(files[1..], k));
      ReadsFiles(files[1..], k);
      assert [files[0]] + files[1..] == files;
    }
  }

  lemma {:induction false} ReadsLevels(levels: seq<seq<FileMeta>>, k: Key)
    requires forall i :: 0 <= i < |levels| ==> LevelFits(levels[i])
    requires forall i :: 0 <= i < |levels| ==> |levels[i]| < LIMIT
    ensures ReadLevels(|levels|, LevelsBytes(levels, k)) == Some((levels, k))
  {
    hide FilesBytes, ReadFiles, Int64, ReadInt64;
    if levels != [] {
      ReadsInt64(|levels[0]|, FilesBytes(levels[0], LevelsBytes(levels[1..], k)));
      ReadsFiles(levels[0], LevelsBytes(levels[1..], k));
      ReadsLevels(levels[1..], k);
      assert [levels[0]] + levels[1..] == levels;
    }
  }

  lemma ReadsBody(v: Version, k: Key)
    requires Fits(v)
    ensures ReadBody(Body(v, k)) == Some(v) && |Body(v, k)| >= 16
  {
    hide LevelsBytes, ReadLevels, Int64, ReadInt64;
    ReadsInt64(v.num, Int64(|v.levels|, LevelsBytes(v.levels, k)));
    ReadsInt64(|v.levels|, LevelsBytes(v.levels, k));
    ReadsLevels(v.levels, k);
  }

  lemma {:induction false} FilesCat(files: seq<FileMeta>, k: Key, l: Key)
    ensures FilesBytes(files, k + l) == FilesBytes(files, k) + l
  {
    if files != [] {
      FilesCat(files[1..], k, l);
      FileCat(files[0], FilesBytes(files[1..], k), l);
    }
  }

  lemma Int64Cat(x: int64, k: Key, l: Key)
    ensures Int64(x, k + l) == Int64(x, k) + l
  {
    LittleCat(ToUint64(x), 8, k + l);
    LittleCat(ToUint64(x), 8, k);
  }

  lemma TailCat(f: FileMeta, k: Key, l: Key)
    ensures FileTail(f, k + l) == FileTail(f, k) + l
  {
    hide Int64, LittleEndian;
    var k3 := Int64(f.bloomBits, k);
    var k2 := Int64(f.level, k3);
    var k1 := Int64(f.size, k2);
    Int64Cat(f.bloomBits, k, l);
    Int64Cat(f.level, k3, l);
    Int64Cat(f.size, k2, l);
    LittleCat(f.fileId, 8, k1 + l);
    LittleCat(f.fileId, 8, k1);
    assert LittleEndian(f.fileId, 8, []) + (k1 + l) == LittleEndian(f.fileId, 8, []) + k1 + l;
  }

  lemma FileCat(f: FileMeta, k: Key, l: Key)
    ensures FileBytes(f, k + l) == FileBytes(f, k) + l
  {
    hide Blob, FileTail;
    TailCat(f, k, l);
    BlobCat(f.maxKey, FileTail(f, k), l);
    BlobCat(f.minKey, Blob(f.maxKey, FileTail(f, k)), l);
  }

  lemma {:induction false} LevelsCat(levels: seq<seq<FileMeta>>, k: Key, l: Key)
    requires forall i :: 0 <= i < |levels| ==> |levels[i]| < LIMIT
    ensures LevelsBytes(levels, k + l) == LevelsBytes(levels, k) + l
  {
    hide FilesBytes, Int64;
    if levels != [] {
      LevelsCat(levels[1..], k, l);
      FilesCat(levels[0], LevelsBytes(levels[1..], k), l);
      Int64Cat(|levels[0]|, FilesBytes(levels[0], LevelsBytes(levels[1..], k)), l);
    }
  }

  lemma BodyCat(v: Version, l: Key)
    requires Fits(v)
    ensures Body(v, l) == Body(v, []) + l
  {
    hide LevelsBytes, Int64;
    assert [] + l == l;
    LevelsCat(v.levels, [], l);
    Int64Cat(|v.levels|, LevelsBytes(v.levels, []), l);
    Int64Cat(v.num, Int64(|v.levels|, LevelsBytes(v.levels, [])), l);
  }

  // A version comes back from its bytes, whatever the checksum function is.
  lemma RoundTrip(v: Version, crc: Crc)
    requires Fits(v)
    ensures Parse(Encode(v, crc), crc) == Some(v)
  {
    hide Body, ReadBody;
    var sum := crc(Body(v, []));
    var tail := LittleEndian(sum, 4, []);
    ReadsLittle32(sum, []);
    ReadsBody(v, tail);
    BodyCat(v, tail);
    var data := Encode(v, crc);
    assert data[|data| - 4..] == tail && data[..|data| - 4] == Body(v, []) && tail[..4] == tail;
  }

  // ---------------------------------------------------------------- the loops

  method WriteInt64(buf: Key, x: int64, ghost k: Key) returns (out: Key)
    ensures out + k == buf + Int64(x, k)
  {
    out := buf + Int64(x, []);
    LittleCat(ToUint64(x), 8, k);
    assert out + k == buf + (Int64(x, []) + k);
  }

  method WriteFile(buf: Key, f: FileMeta, ghost k: Key) returns (out: Key)
    requires FileFits(f)
    ensures out + k == buf + FileBytes(f, k)
  {
    hide Int64, Blob, LittleEndian;
    ghost var k3 := Int64(f.bloomBits, k);
    ghost var k2 := Int64(f.level, k3);
    ghost var k1 := Int64(f.size, k2);
    out := WriteKey(buf, f.minKey, Blob(f.maxKey, FileTail(f, k)));
    out := WriteKey(out, f.maxKey, FileTail(f, k));
    ghost var before := out;
    LittleCat(f.fileId, 8, k1);
    out := out + LittleEndian(f.fileId, 8, []);
    assert out + k1 == before + (LittleEndian(f.fileId, 8, []) + k1);
    out := WriteInt64(out, f.size, k2);
    out := WriteInt64(out, f.level, k3);
    out := WriteInt64(out, f.bloomBits, k);
  }

  method EncodeManifest(v: Version, crc: Crc) returns (buf: Key)
    requires Fits(v)
    ensures buf == Encode(v, crc)
  {
    hide Int64, FileBytes, LittleEndian;
    buf := WriteInt64([], v.num, Int64(|v.levels|, LevelsBytes(v.levels, [])));
    buf := WriteInt64(buf, |v.levels|, LevelsBytes(v.levels, []));
    assert v.levels[0..] == v.levels && [] + Body(v, []) == Body(v, []);
    for i := 0 to |v.levels|
      invariant buf + LevelsBytes(v.levels[i..], []) == Body(v, [])
    {
      var level := v.levels[i];
      ghost var rest := LevelsBytes(v.levels[i + 1..], []);
      assert v.levels[i..][1..] == v.levels[i + 1..];
      buf := WriteInt64(buf, |level|, FilesBytes(level, rest));
      assert level[0..] == level;
      for j := 0 to |level|
        invariant buf + FilesBytes(level[j..], rest) == Body(v, [])
      {
        assert level[j..][1..] == level[j + 1..];
        buf := WriteFile(buf, level[j], FilesBytes(level[j + 1..], rest));
      }
      assert level[|level|..] == [];
    }
    assert v.levels[|v.levels|..] == [] && buf + [] == buf;
    var checksum := crc(buf);
    BodyCat(v, LittleEndian(checksum, 4, []));
    buf := buf + LittleEndian(checksum, 4, []);
  }

  method ParseInt64(data: Key, off: nat) returns (x: Option<int64>, next: nat)
    requires off <= |data|
    ensures next <= |data|
    ensures ReadInt64(data[off..]) == if x.None? then None else Some((x.value, data[next..]))
  {
    if off + 8 > |data| {
      return None, off;
    }
    assert data[off..][..8] == data[off..off + 8] && data[off..][8..] == data[off + 8..];
    return Some(ToInt64(LittleValue(data[off..off + 8]))), off + 8;
  }

  method ParseTail(min: Key, max: Key, data: Key, off: nat) returns (f: Option<FileMeta>, next: nat)
    requires off <= |data|
    ensures next <= |data|
    ensures ReadTail(min, max, data[off..]) == if f.None? then None else Some((f.value, data[next..]))
  {
    hide ReadInt64;
    f, next := None, off;
    if off + 8 > |data| {
      return;
    }
    assert data[off..][..8] == data[off..off + 8] && data[off..][8..] == data[off + 8..];
    var id := LittleValue(data[off..off + 8]);
    var size, level, bits;
    size, next := ParseInt64(data, off + 8);
    if size.None? { return; }
    level, next := ParseInt64(data, next);
    if level.None? { return; }
    bits, next := ParseInt64(data, next);
    if bits.None? { return; }
    f := Some(FileMeta(min, max, id % 0x1_0000_0000_0000_0000, size.value, level.value, bits.value));
  }

  method ParseFile(data: Key, off: nat) returns (f: Option<FileMeta>, next: nat)
    requires off <= |data|
    ensures next <= |data|
    ensures ReadFile(data[off..]) == if f.None? then None else Some((f.value, data[next..]))
  {
    hide ReadKey, ReadTail;
    var min, max;
    f := None;
    min, next := ParseKey(data, off);
    if min.None? { return; }
    max, next := ParseKey(data, next);
    if max.None? { return; }
    f, next := ParseTail(min.value, max.value, data, next);
  }

  // What was read so far in front of what is read next.
  function Prepend<T>(done: seq<T>, rest: Option<(seq<T>, Key)>): Option<(seq<T>, Key)> {
    match rest
    case None => None
    case Some(r) => Some((done + r.0, r.1))
  }

  lemma PrependUnit<T>(r: Option<(seq<T>, Key)>)
    ensures Prepend([], r) == r
  {
    if r.Some? { assert [] + r.value.0 == r.value.0; }
  }

  lemma PrependMore<T>(done: seq<T>, x: T, r: Option<(seq<T>, Key)>)
    ensures Prepend(done, Prepend([x], r)) == Prepend(done + [x], r)
  {
    if r.Some? { assert done + ([x] + r.value.0) == done + [x] + r.value.0; }
  }

  method ParseFiles(n: nat, data: Key, off: nat) returns (files: Option<seq<FileMeta>>, next: nat)
    requires off <= |data|
    ensures next <= |data|
    ensures ReadFiles(n, data[off..]) == if files.None? then None else Some((files.value, data[next..]))
  {
    hide ReadFile;
    next := off;
    var done: seq<FileMeta> := [];
    PrependUnit(ReadFiles(n, data[off..]));
    for j := 0 to n
      invariant next <= |data|
      invariant ReadFiles(n, data[off..]) == Prepend(done, ReadFiles(n - j, data[next..]))
    {
      ghost var rest := data[next..];
      var f;
      f, next := ParseFile(data, next);
      if f.None? { return None, next; }
      assert ReadFiles(n - j, rest) == Prepend([f.value], ReadFiles(n - j - 1, data[next..]));
      PrependMore(done, f.value, ReadFiles(n - j - 1, data[next..]));
      done := done + [f.value];
    }
    assert done + [] == done;
    return Some(done), next;
  }

  method ParseManifest(data: Key, crc: Crc) returns (v: Option<Version>)
    ensures v == Parse(data, crc)
  {
    hide ReadInt64, ReadFiles;
    if |data| < 16 {
      return None;
    }
    var num, count, off;
    assert data[0..] == data;
    num, off := ParseInt64(data, 0);
    if num.None? { return None; }
    count, off := ParseInt64(data, off);
    if count.None? || count.value < 0 { return None; }
    var levels;
    levels, off := ParseLevels(count.value, data, off);
    if levels.None? { return None; }
    if LittleValue(data[|data| - 4..]) != crc(data[..|data| - 4]) {
      return None;
    }
    return Some(Version(num.value, levels.value));
  }

  method ParseLevels(n: nat, data: Key, off: nat) returns (levels: Option<seq<seq<FileMeta>>>, next: nat)
    requires off <= |data|
    ensures next <= |data|
    ensures ReadLevels(n, data[off..]) == if levels.None? then None else Some((levels.value, data[next..]))
  {
    hide ReadInt64, ReadFiles;
    next := off;
    var done: seq<seq<FileMeta>> := [];
    PrependUnit(ReadLevels(n, data[off..]));
    for i := 0 to n
      invariant next <= |data|
      invariant ReadLevels(n, data[off..]) == Prepend(done, ReadLevels(n - i, data[next..]))
    {
      ghost var rest := data[next..];
      var count, files;
      count, next := ParseInt64(data, next);
      if count.None? || count.value < 0 { return None, next; }
      files, next := ParseFiles(count.value, data, next);
      if files.None? { return None, next; }
      assert ReadLevels(n - i, rest) == Prepend([files.value], ReadLevels(n - i - 1, data[next..]));
      PrependMore(done, files.value, ReadLevels(n - i - 1, data[next..]));
      done := done + [files.value];
    }
    assert done + [] == done;
    return Some(done), next;
  }

  // ---------------------------------------------------------------- the manifest in memory

  // Level 0 with a new file in front.
  function WithFile(levels: seq<seq<FileMeta>>, f: FileMeta): seq<seq<FileMeta>> {
    if levels == [] then [[f]] else levels[0 := [f] + levels[0]]
  }

  // The file that covers these keys, in the order of the memtable.
  ghost predicate Covers(f: FileMeta, keys: seq<Key>) {
    && f.minKey in keys && f.maxKey in keys
    && forall i :: 0 <= i < |keys| ==> Rank(f.minKey) <= Rank(keys[i]) <= Rank(f.maxKey)
  }

  ghost predicate InBounds(f: FileMeta, keys: seq<Key>) {
    forall k :: k in keys && k != [] ==> Rank(f.minKey) <= Rank(k) <= Rank(f.maxKey)
  }

  // The empty key of the memtable may have been given as nil.
  predicate NilFits(keys: seq<Key>, nilFirst: bool) {
    nilFirst ==> keys != [] && keys[0] == []
  }

  // The scan of the memtable for its first and last key.  A nil key does not count as
  // found, so the second key is taken for the least one then; None is nil.
  method KeyRange(keys: seq<Key>, nilFirst: bool) returns (minKey: Key, maxKey: Key, keyCount: nat)
    requires Sorted(keys) && NilFits(keys, nilFirst)
    ensures keyCount == |keys|
    ensures keys != [] ==> minKey in keys && maxKey in keys
    ensures forall i :: 0 <= i < |keys| ==> Rank(keys[i]) <= Rank(maxKey)
    ensures (forall i :: 0 <= i < |keys| ==> Rank(minKey) <= Rank(keys[i])) <==> !(nilFirst && |keys| > 1)
    ensures forall i :: 0 <= i < |keys| && keys[i] != [] ==> Rank(minKey) <= Rank(keys[i])
  {
    hide Rank;
    var least: Option<Key> := None;
    maxKey, keyCount := [], 0;
    while keyCount < |keys|
      invariant keyCount <= |keys|
      invariant keyCount > 0 ==> maxKey == keys[keyCount - 1]
      invariant least == if keyCount == 0 || (nilFirst && keyCount == 1) then None
                         else if nilFirst then Some(keys[1]) else Some(keys[0])
    {
      if least.None? && !(keyCount == 0 && nilFirst) {
        least := Some(keys[keyCount]);
      }
      maxKey := keys[keyCount];
      keyCount := keyCount + 1;
    }
    minKey := if least.None? then [] else least.value;
  }

  class Manifest {
    var version: int64
    var current: Version
    var disk: Option<Key>
    const crc: Crc

    // The file on disk parses to the current version; no file is the empty version.
    ghost predicate Valid()
      reads this
    {
      && version == current.num
      && (disk.None? ==> current == Version(0, []))
      && (disk.Some? ==> Parse(disk.value, crc) == Some(current))
    }

    constructor (disk: Option<Key>, crc: Crc)
      ensures this.disk == disk && this.crc == crc && version == 0 && current == Version(0, [])
    {
      this.disk, this.crc, version, current := disk, crc, 0, Version(0, []);
    }

    // newManifest once the directory is read; a restart finds the version it left.
    method Load() returns (ok: bool)
      modifies this`version, this`current
      ensures ok <==> disk.None? || Parse(disk.value, crc).Some?
      ensures ok && (disk.Some? || old(current == Version(0, []) && version == 0)) ==> Valid()
      ensures old(Valid()) ==> ok && current == old(current)
      ensures !ok ==> current == old(current) && version == old(version)
    {
      if disk.None? {
        return true;
      }
      var v := ParseManifest(disk.value, crc);
      if v.None? {
        return false;
      }
      version, current := v.value.num, v.value;
      return true;
    }

    // writeOk and renameOk are the outcomes of the two file operations.
    method Apply(v: Version, writeOk: bool, renameOk: bool) returns (ok: bool)
      requires Valid() && Fits(v)
      modifies this
      ensures Valid()
      ensures ok <==> writeOk && renameOk
      ensures ok ==> current.levels == v.levels && disk == Some(Encode(current, crc))
      ensures ok ==> current.num == if v.num == 0 then ToInt64(ToUint64(old(version)) + 1) else v.num
      ensures !ok ==> current == old(current) && disk == old(disk)
    {
      var next := if v.num == 0 then v.(num := ToInt64(ToUint64(version) + 1)) else v;
      var data := EncodeManifest(next, crc);
      if !writeOk {
        return false;
      }
      if !renameOk {
        return false;
      }
      RoundTrip(next, crc);
      disk := Some(data);
      version, current := next.num, next;
      return true;
    }

    // updateManifest for a flushed memtable with these keys; sstOk is the outcome of
    // renaming the SST file.
    method Update(keys: seq<Key>, nilFirst: bool, fileId: uint64, size: int64, sstOk: bool, writeOk: bool,
                  renameOk: bool)
      returns (ok: bool)
      requires Valid() && Fits(current) && Sorted(keys) && NilFits(keys, nilFirst)
      requires forall i :: 0 <= i < |keys| ==> |keys[i]| < LIMIT
      requires current.levels == [] || |current.levels[0]| + 1 < LIMIT
      modifies this
      ensures Valid()
      ensures ok <==> keys == [] || (sstOk && writeOk && renameOk)
      ensures keys == [] || !ok ==> current == old(current) && disk == old(disk)
      ensures ok && keys != [] ==>
                current.levels != [] && current.levels[0] != []
                  && current.levels[0][1..] == (if old(current.levels) == [] then [] else old(current.levels[0]))
                  && current.levels[1..] == (if old(current.levels) == [] then [] else old(current.levels[1..])) &&
                var f := current.levels[0][0];
                && (Covers(f, keys) <==> !(nilFirst && |keys| > 1)) && InBounds(f, keys)
                && f.fileId == fileId && f.level == 0 && f.size == size
    {
      hide Parse, Encode, Rank;
      var minKey, maxKey, keyCount := KeyRange(keys, nilFirst);
      if keyCount == 0 {
        return true;
      }
      if !sstOk {
        return false;
      }
      var meta := FileMeta(minKey, maxKey, fileId, size, 0, 10);
      var newLevels := WithFile(current.levels, meta);
      WithFileFits(current, meta);
      ok := Apply(Version(ToInt64(ToUint64(current.num) + 1), newLevels), writeOk, renameOk);
    }
  }

  lemma WithFileFits(v: Version, f: FileMeta)
    requires Fits(v) && FileFits(f) && (v.levels == [] || |v.levels[0]| + 1 < LIMIT)
    ensures forall num :: Fits(Version(num, WithFile(v.levels, f)))
  {
  }

  // Two manifests that agree with the same file hold the same version, so a restart
  // or a crash on either side of the rename finds the version of the file.
  lemma DiskDecides(a: Manifest, b: Manifest)
    requires a.Valid() && b.Valid() && a.disk == b.disk && a.crc == b.crc
    ensures a.current == b.current
  {
  }
}
