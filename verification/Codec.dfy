// Integers and byte strings on disk: the variable-length integers of
// internal/ENG/LS/memtable.go and of encoding/binary, and fixed-width integers.
//
// A writer puts its argument in front of the bytes k; a reader returns the value
// and the bytes behind it.
module Codec {
  import opened Bytes

  datatype Option<T> = None | Some(value: T)

  type int64 = i: int | -0x8000_0000_0000_0000 <= i < 0x8000_0000_0000_0000
  type uint64 = i: int | 0 <= i < 0x1_0000_0000_0000_0000
  type uint32 = i: int | 0 <= i < 0x1_0000_0000

  // uint64(x)
  function ToUint64(x: int64): uint64 {
    if x < 0 then x + 0x1_0000_0000_0000_0000 else x
  }

  // int64(x), for any number of bits: the low 64 count.
  function ToInt64(x: nat): int64 {
    var low := x % 0x1_0000_0000_0000_0000;
    if low < 0x8000_0000_0000_0000 then low else low - 0x1_0000_0000_0000_0000
  }

  lemma SignKept(x: int64)
    ensures ToInt64(ToUint64(x)) == x
  {
  }

  // Go slices are shorter than this.
  const LIMIT: nat := 0x8000_0000_0000_0000

  // ---------------------------------------------------------------- writers

  // encoding/binary PutUvarint; encodeVarint writes the same bytes for every length.
  function Uvarint(v: nat, k: Key): Key {
    if v < 128 then [v] + k else [v % 128 + 128] + Uvarint(v / 128, k)
  }

  function LittleEndian(v: nat, n: nat, k: Key): Key {
    if n == 0 then k else [v % 256] + LittleEndian(v / 256, n - 1, k)
  }

  function BigEndian(v: nat, n: nat, k: Key): Key {
    if n == 0 then k else BigEndian(v / 256, n - 1, [v % 256] + k)
  }

  // A length and the bytes.
  function Blob(s: Key, k: Key): Key {
    Uvarint(|s|, s + k)
  }

  // ---------------------------------------------------------------- unique decodability

  lemma {:induction false} UvarintUnique(a: nat, b: nat, k: Key, l: Key)
    requires Uvarint(a, k) == Uvarint(b, l)
    ensures a == b && k == l
  {
    assert Uvarint(a, k)[0] == Uvarint(b, l)[0];
    if a < 128 {
      assert Uvarint(a, k)[1..] == k && Uvarint(b, l)[1..] == l;
    } else {
      assert Uvarint(a, k)[1..] == Uvarint(a / 128, k) && Uvarint(b, l)[1..] == Uvarint(b / 128, l);
      UvarintUnique(a / 128, b / 128, k, l);
    }
  }

  ghost function Pow256(n: nat): nat {
    if n == 0 then 1 else 256 * Pow256(n - 1)
  }

  // v without its i lowest digits to the base.
  ghost function Shift(v: nat, base: nat, i: nat): nat
    requires base > 0
  {
    if i == 0 then v else Shift(v, base, i - 1) / base
  }

  lemma {:induction false} ShiftFirst(v: nat, base: nat, i: nat)
    requires base > 0
    ensures Shift(v, base, i + 1) == Shift(v / base, base, i)
  {
    if i > 0 { ShiftFirst(v, base, i - 1); }
  }

  // What stands where: the lowest byte first ...
  lemma {:induction false} LittleEndianBytes(v: nat, n: nat, k: Key, i: nat)
    requires i < n
    ensures |LittleEndian(v, n, k)| == n + |k| && LittleEndian(v, n, k)[i] == Shift(v, 256, i) % 256
    ensures LittleEndian(v, n, k)[n..] == k
  {
    hide Shift;
    var rest := LittleEndian(v / 256, n - 1, k);
    assert LittleEndian(v, n, k) == [v % 256] + rest;
    if n > 1 { LittleEndianBytes(v / 256, n - 1, k, if i > 0 then i - 1 else 0); }
    if i > 0 { ShiftFirst(v, 256, i - 1); } else { ShiftNone(v, 256); }
  }

  lemma ShiftNone(v: nat, base: nat)
    requires base > 0
    ensures Shift(v, base, 0) == v && Shift(v, base, 1) == v / base
  {
    assert Shift(v, base, 0) == v;
  }

  // ... the highest first ...
  lemma {:induction false} BigEndianBytes(v: nat, n: nat, k: Key, i: nat)
    requires i < n
    ensures |BigEndian(v, n, k)| == n + |k| && BigEndian(v, n, k)[n - 1 - i] == Shift(v, 256, i) % 256
    ensures BigEndian(v, n, k)[n..] == k
  {
    hide Shift;
    var w, k' := BigEndian(v, n, k), [v % 256] + k;
    if n > 1 {
      BigEndianBytes(v / 256, n - 1, k', if i > 0 then i - 1 else 0);
      assert w[n - 1] == w[n - 1..][0] && w[n..] == w[n - 1..][1..];
    } else {
      assert w == k';
    }
    if i > 0 { ShiftFirst(v, 256, i - 1); } else { ShiftNone(v, 256); }
  }

  // ... the lowest seven bits first, with the top bit of a byte set while more follow.
  lemma {:induction false} UvarintBytes(v: nat, k: Key, i: nat)
    requires i == 0 || Shift(v, 128, i) > 0
    ensures |Uvarint(v, k)| > i + |k|
    ensures Uvarint(v, k)[i] == Shift(v, 128, i) % 128 + if Shift(v, 128, i + 1) > 0 then 128 else 0
    ensures Shift(v, 128, i + 1) == 0 ==> Uvarint(v, k)[i + 1..] == k
  {
    hide Shift;
    if i > 0 {
      ShiftFirst(v, 128, i - 1);
      ShiftFirst(v, 128, i);
      ShiftZero(v, 128, i);
      var rest := Uvarint(v / 128, k);
      assert Uvarint(v, k) == [v % 128 + 128] + rest;
      if i == 1 { ShiftNone(v / 128, 128); }
      UvarintBytes(v / 128, k, i - 1);
      assert Uvarint(v, k)[i + 1..] == rest[i..];
    } else {
      ShiftNone(v, 128);
      UvarintLong(v, k);
    }
  }

  // What has a second digit is not below the base.
  lemma {:induction false} ShiftZero(v: nat, base: nat, i: nat)
    requires base > 1 && i > 0 && Shift(v, base, i) > 0
    ensures v >= base
  {
    if i > 1 { ShiftZero(v, base, i - 1); }
  }

  lemma {:induction false} UvarintLong(v: nat, k: Key)
    ensures |Uvarint(v, k)| > |k|
  {
    if v >= 128 { UvarintLong(v / 128, k); }
  }

  lemma {:induction false} LittleEndianUnique(a: nat, b: nat, n: nat, k: Key, l: Key)
    requires LittleEndian(a, n, k) == LittleEndian(b, n, l) && a < Pow256(n) && b < Pow256(n)
    ensures a == b && k == l
  {
    if n > 0 {
      assert LittleEndian(a, n, k)[0] == LittleEndian(b, n, l)[0];
      assert LittleEndian(a, n, k)[1..] == LittleEndian(a / 256, n - 1, k);
      assert LittleEndian(b, n, l)[1..] == LittleEndian(b / 256, n - 1, l);
      LittleEndianUnique(a / 256, b / 256, n - 1, k, l);
    }
  }

  // ---------------------------------------------------------------- readers

  // The value and the length of what decodeVarint reads, before the cut to 64 bits.
  // A varint that is cut off ends with the data.
  function VarintAt(data: Key): (r: (nat, nat))
    ensures r.1 <= |data| && (data != [] ==> 1 <= r.1)
  {
    if data == [] then (0, 0)
    else if data[0] < 128 then (data[0], 1)
    else
      var rest := VarintAt(data[1..]);
      (data[0] - 128 + 128 * rest.0, rest.1 + 1)
  }

  function ReadVarint(data: Key): (int64, Key) {
    var v := VarintAt(data);
    (ToInt64(v.0), data[v.1..])
  }

  lemma {:induction false} VarintOfUvarint(v: nat, k: Key)
    ensures var r := VarintAt(Uvarint(v, k)); r.0 == v && Uvarint(v, k)[r.1..] == k
  {
    var w := Uvarint(v, k);
    if v < 128 {
      assert w[1..] == k;
    } else {
      VarintOfUvarint(v / 128, k);
      assert w[1..] == Uvarint(v / 128, k);
      assert w[VarintAt(w[1..]).1 + 1..] == w[1..][VarintAt(w[1..]).1..];
    }
  }

  lemma ReadsVarint(v: nat, k: Key)
    requires v < 0x8000_0000_0000_0000
    ensures ReadVarint(Uvarint(v, k)) == (v, k)
  {
    VarintOfUvarint(v, k);
  }

  // encoding/binary Uvarint from its i-th byte on; None where it returns n <= 0.
  function ReadUvarintFrom(data: Key, i: nat): Option<(nat, Key)>
    requires i <= 10
    decreases 10 - i
  {
    if data == [] || i == 10 then None
    else if data[0] < 128 then
      if i == 9 && data[0] > 1 then None else Some((data[0], data[1..]))
    else
      match ReadUvarintFrom(data[1..], i + 1)
      case None => None
      case Some(r) => Some((data[0] - 128 + 128 * r.0, r.1))
  }

  function ReadUvarint(data: Key): Option<(nat, Key)> {
    ReadUvarintFrom(data, 0)
  }

  // What still fits from the i-th byte on.
  ghost function Room(i: nat): nat
    requires i <= 9
    decreases 9 - i
  {
    if i == 9 then 2 else 128 * Room(i + 1)
  }

  lemma {:induction false} ReadsUvarintFrom(v: nat, k: Key, i: nat)
    requires i <= 9 && v < Room(i)
    ensures ReadUvarintFrom(Uvarint(v, k), i) == Some((v, k))
    decreases 9 - i
  {
    var w := Uvarint(v, k);
    if v < 128 {
      assert w[1..] == k;
    } else {
      assert w[1..] == Uvarint(v / 128, k);
      ReadsUvarintFrom(v / 128, k, i + 1);
    }
  }

  lemma ReadsUvarint(v: uint64, k: Key)
    ensures ReadUvarint(Uvarint(v, k)) == Some((v, k))
  {
    assert Room(5) == 128 * 128 * 128 * 128 * 2;
    assert Room(0) == 128 * 128 * 128 * 128 * 128 * Room(5);
    ReadsUvarintFrom(v, k, 0);
  }

  function ReadBytes(n: int, data: Key): Option<(Key, Key)> {
    if 0 <= n <= |data| then Some((data[..n], data[n..])) else None
  }

  lemma ReadsBytes(s: Key, k: Key)
    ensures ReadBytes(|s|, s + k) == Some((s, k))
  {
  }

  function ReadBlob(data: Key): Option<(Key, Key)> {
    match ReadUvarint(data)
    case None => None
    case Some(r) => ReadBytes(r.0, r.1)
  }

  lemma ReadsBlob(s: Key, k: Key)
    requires |s| < 0x8000_0000_0000_0000
    ensures ReadBlob(Blob(s, k)) == Some((s, k))
  {
    ReadsUvarint(|s|, s + k);
    ReadsBytes(s, k);
  }

  // A key behind its varint length; ReadBytes fails where the source stops or panics.
  function ReadKey(data: Key): (r: Option<(Key, Key)>)
    ensures r.Some? && data != [] ==> |r.value.1| < |data|
    ensures r.Some? ==> |r.value.1| <= |data| && r.value.1 == data[|data| - |r.value.1|..]
  {
    var len := ReadVarint(data);
    ReadBytes(len.0, len.1)
  }

  lemma ReadsKey(s: Key, k: Key)
    requires |s| < LIMIT
    ensures ReadKey(Blob(s, k)) == Some((s, k))
  {
    ReadsVarint(|s|, s + k);
    ReadsBytes(s, k);
  }

  function LittleValue(data: Key): nat {
    if data == [] then 0 else data[0] + 256 * LittleValue(data[1..])
  }

  function ReadLittle(data: Key, n: nat): Option<(nat, Key)> {
    if n <= |data| then Some((LittleValue(data[..n]), data[n..])) else None
  }

  lemma {:induction false} ReadsLittle(v: nat, n: nat, k: Key)
    requires v < Pow256(n)
    ensures ReadLittle(LittleEndian(v, n, k), n) == Some((v, k))
    ensures |LittleEndian(v, n, k)| == n + |k|
  {
    if n > 0 {
      ReadsLittle(v / 256, n - 1, k);
      var w := LittleEndian(v, n, k);
      assert w[1..] == LittleEndian(v / 256, n - 1, k);
      assert w[..n][1..] == w[1..][..n - 1] && w[n..] == w[1..][n - 1..];
    }
  }

  lemma ReadsLittle64(v: uint64, k: Key)
    ensures ReadLittle(LittleEndian(v, 8, k), 8) == Some((v, k))
    ensures |LittleEndian(v, 8, k)| == 8 + |k|
  {
    assert Pow256(8) == 0x1_0000_0000_0000_0000;
    ReadsLittle(v, 8, k);
  }

  lemma ReadsLittle32(v: uint32, k: Key)
    ensures ReadLittle(LittleEndian(v, 4, k), 4) == Some((v, k))
    ensures |LittleEndian(v, 4, k)| == 4 + |k|
  {
    assert Pow256(4) == 0x1_0000_0000;
    ReadsLittle(v, 4, k);
  }

  function BigValue(data: Key): nat {
    if data == [] then 0 else 256 * BigValue(data[..|data| - 1]) + data[|data| - 1]
  }

  function ReadBig(data: Key, n: nat): Option<(nat, Key)> {
    if n <= |data| then Some((BigValue(data[..n]), data[n..])) else None
  }

  lemma {:induction false} ReadsBig(v: nat, n: nat, k: Key)
    requires v < Pow256(n)
    ensures ReadBig(BigEndian(v, n, k), n) == Some((v, k))
    ensures |BigEndian(v, n, k)| == n + |k|
  {
    if n > 0 {
      ReadsBig(v / 256, n - 1, [v % 256] + k);
      var w := BigEndian(v, n, k);
      assert w[..n][..n - 1] == w[..n - 1] && w[n - 1..][0] == w[n - 1] && w[n..] == w[n - 1..][1..];
    }
  }

  lemma ReadsBig64(v: uint64, k: Key)
    ensures ReadBig(BigEndian(v, 8, k), 8) == Some((v, k))
    ensures |BigEndian(v, 8, k)| == 8 + |k|
  {
    assert Pow256(8) == 0x1_0000_0000_0000_0000;
    ReadsBig(v, 8, k);
  }

  // ---------------------------------------------------------------- the loops

  lemma {:induction false} UvarintCat(v: nat, k: Key)
    ensures Uvarint(v, k) == Uvarint(v, []) + k
  {
    if v >= 128 { UvarintCat(v / 128, k); }
  }

  lemma {:induction false} LittleCat(v: nat, n: nat, k: Key)
    ensures LittleEndian(v, n, k) == LittleEndian(v, n, []) + k
  {
    if n > 0 { LittleCat(v / 256, n - 1, k); }
  }

  lemma BlobCat(s: Key, k: Key, l: Key)
    ensures Blob(s, k + l) == Blob(s, k) + l
  {
    UvarintCat(|s|, s + (k + l));
    UvarintCat(|s|, s + k);
    assert s + (k + l) == s + k + l;
  }

  // encodeVarint fills a buffer of ten bytes; a length never needs more than nine.
  method EncodeVarint(val: int64) returns (buf: Key)
    requires val >= 0
    ensures buf == Uvarint(val, []) && |buf| <= 9
  {
    hide Shrunk, Uvarint;
    var bytes := new byte[10](_ => 0);
    var n, v := 0, val;
    ghost var done: Key := [];
    ShrunkStart();
    while v >= 128
      invariant 0 <= v < Shrunk(n) && n <= 8
      invariant bytes[..n] == done && Uvarint(val, []) == done + Uvarint(v, [])
      decreases v
    {
      ShrunkStep(n, v);
      UvarintStep(done, v);
      bytes[n] := v % 128 + 128;
      done := done + [v % 128 + 128];
      v, n := v / 128, n + 1;
    }
    UvarintStep(done, v);
    bytes[n] := v;
    buf := bytes[..n + 1];
  }

  lemma ShrunkStart()
    ensures Shrunk(0) == 0x8000_0000_0000_0000
  {
  }

  lemma UvarintStep(done: Key, v: nat)
    ensures v >= 128 ==> done + Uvarint(v, []) == done + [v % 128 + 128] + Uvarint(v / 128, [])
    ensures v < 128 ==> Uvarint(v, []) == [v]
  {
  }

  // 2^63 shifted right by n groups of seven bits.
  ghost function Shrunk(n: nat): nat {
    if n == 0 then 0x8000_0000_0000_0000 else Shrunk(n - 1) / 128
  }

  lemma ShrunkStep(n: nat, v: nat)
    requires n <= 8 && 128 <= v < Shrunk(n)
    ensures n < 8 && v / 128 < Shrunk(n + 1) == Shrunk(n) / 128
  {
    assert Shrunk(4) == 0x8_0000_0000;
    assert Shrunk(8) == 128;
    if n < 8 { EvenShrunk(n); }
  }

  lemma EvenShrunk(n: nat)
    requires n < 8
    ensures Shrunk(n) == 128 * (Shrunk(n) / 128)
  {
    assert Shrunk(1) == 0x100_0000_0000_0000 && Shrunk(2) == 0x2_0000_0000_0000 && Shrunk(3) == 0x400_0000_0000;
    assert Shrunk(4) == 0x8_0000_0000 && Shrunk(5) == 0x1000_0000 && Shrunk(6) == 0x20_0000 && Shrunk(7) == 0x4000;
  }

  // The varint that starts with n bytes of value sum and goes on with rest.
  function Resume(sum: nat, shift: nat, n: nat, rest: (nat, nat)): (nat, nat) {
    (AddGroup(sum, shift, rest.0), n + rest.1)
  }

  // val | group << shift, for groups that do not overlap; shift stands for 1 << shift.
  function AddGroup(sum: nat, shift: nat, group: nat): nat {
    sum + shift * group
  }

  lemma ResumeStep(data: Key, sum: nat, shift: nat, n: nat)
    requires n < |data|
    ensures data[n] >= 128 ==>
              Resume(sum, shift, n, VarintAt(data[n..])) ==
              Resume(AddGroup(sum, shift, data[n] - 128), shift * 128, n + 1, VarintAt(data[n + 1..]))
    ensures data[n] < 128 ==> Resume(sum, shift, n, VarintAt(data[n..])) == (AddGroup(sum, shift, data[n]), n + 1)
  {
    assert data[n..][1..] == data[n + 1..];
    if data[n] >= 128 { Shifted(shift, data[n] - 128, VarintAt(data[n + 1..]).0); }
  }

  lemma Shifted(shift: nat, b: nat, rest: nat)
    ensures shift * (b + 128 * rest) == shift * b + shift * 128 * rest
  {
  }

  // decodeVarint; sum keeps the exact value, which ToInt64 cuts at the end.
  method DecodeVarint(data: Key) returns (val: int64, n: nat)
    ensures n <= |data| && (val, data[n..]) == ReadVarint(data)
  {
    var sum: nat, shift: nat := 0, 1;
    n := 0;
    assert data[0..] == data;
    assert VarintAt(data) == Resume(0, 1, 0, VarintAt(data[0..]));
    while n < |data|
      invariant n <= |data|
      invariant VarintAt(data) == Resume(sum, shift, n, VarintAt(data[n..]))
    {
      hide Resume, VarintAt, ToInt64, AddGroup;
      var b: nat := data[n];
      ResumeStep(data, sum, shift, n);
      if b < 128 {
        sum, n := AddGroup(sum, shift, b), n + 1;
        return ToInt64(sum), n;
      }
      sum, shift, n := AddGroup(sum, shift, b - 128), shift * 128, n + 1;
    }
    assert data[n..] == [];
    return ToInt64(sum), n;
  }

  method WriteKey(buf: Key, s: Key, ghost k: Key) returns (out: Key)
    requires |s| < LIMIT
    ensures out + k == buf + Blob(s, k)
  {
    var len := EncodeVarint(|s|);
    out := buf + len + s;
    UvarintCat(|s|, s + k);
    assert out + k == buf + (len + (s + k));
  }

  method ParseKey(data: Key, off: nat) returns (key: Option<Key>, next: nat)
    requires off <= |data|
    ensures next <= |data|
    ensures ReadKey(data[off..]) == if key.None? then None else Some((key.value, data[next..]))
  {
    var len, n := DecodeVarint(data[off..]);
    next := off + n;
    assert data[off..][n..] == data[next..];
    if len < 0 || next + len > |data| {
      return None, next;
    }
    assert data[next..][..len] == data[next..next + len] && data[next..][len..] == data[next + len..];
    key, next := Some(data[next..next + len]), next + len;
  }
}
