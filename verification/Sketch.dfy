// The frequency sketch of the admission policy (internal/MEM/BF/wtinylfu.go): four rows
// of 4-bit counters, two in a byte.
module Sketch {
  import opened Bytes
  import opened Codec

  const ROWS := 4
  const COLS := 16384
  const WINDOW := 100

  // The hash of a key with a row number mixed in.
  type Hash = (uint64, nat) -> uint64

  function Col(hash: Hash, key: uint64, r: nat): nat {
    hash(key, r) % COLS
  }

  // (b >> shift) & 0x0F with shift 0 or 4.
  function Nibble(b: byte, high: bool): (n: nat)
    ensures n < 16
  {
    if high then b / 16 else b % 16
  }

  // (b &^ (0x0F << shift)) | (n << shift)
  function SetNibble(b: byte, high: bool, n: nat): byte
    requires n < 16
  {
    if high then n * 16 + b % 16 else b / 16 * 16 + n
  }

  // Writing one counter leaves its neighbour in the byte alone.
  lemma NibbleSet(b: byte, high: bool, n: nat, other: bool)
    requires n < 16
    ensures Nibble(SetNibble(b, high, n), other) == if other == high then n else Nibble(b, other)
  {
  }

  function Min(a: nat, b: nat): nat {
    if a < b then a else b
  }

  // The increments that hit a cell, and those of one key.
  function Hits(log: seq<uint64>, hash: Hash, r: nat, c: nat): nat {
    if log == [] then 0
    else Hits(log[..|log| - 1], hash, r, c) + if Col(hash, log[|log| - 1], r) == c then 1 else 0
  }

  function Count(log: seq<uint64>, key: uint64): nat {
    if log == [] then 0 else Count(log[..|log| - 1], key) + if log[|log| - 1] == key then 1 else 0
  }

  lemma {:induction false} CountMeans(log: seq<uint64>, key: uint64)
    ensures Count(log, key) == multiset(log)[key]
  {
    if log != [] {
      var n := |log| - 1;
      CountMeans(log[..n], key);
      assert log == log[..n] + [log[n]];
    }
  }

  lemma HitsSnoc(log: seq<uint64>, key: uint64, hash: Hash, r: nat, c: nat)
    ensures Hits(log + [key], hash, r, c) == Hits(log, hash, r, c) + if Col(hash, key, r) == c then 1 else 0
  {
    assert (log + [key])[..|log|] == log;
  }

  // The least of the first n rows' counters of the key's cells, from 255 down.
  function LeastHits(log: seq<uint64>, hash: Hash, key: uint64, n: nat): nat {
    if n == 0 then 255
    else Min(LeastHits(log, hash, key, n - 1), Min(15, Hits(log, hash, n - 1, Col(hash, key, n - 1))))
  }

  lemma {:induction false} CountBelowHits(log: seq<uint64>, hash: Hash, key: uint64, r: nat)
    ensures Count(log, key) <= Hits(log, hash, r, Col(hash, key, r))
  {
    if log != [] { CountBelowHits(log[..|log| - 1], hash, key, r); }
  }

  // The estimate is never below the true count, up to the saturation at 15.
  lemma {:induction false} NeverUnder(log: seq<uint64>, hash: Hash, key: uint64, n: nat)
    ensures LeastHits(log, hash, key, n) >= Min(15, Count(log, key))
  {
    if n > 0 {
      NeverUnder(log, hash, key, n - 1);
      CountBelowHits(log, hash, key, n - 1);
    }
  }

  // It is the true count if in some row no other key that was counted shares the cell.
  lemma {:induction false} ExactAlone(log: seq<uint64>, hash: Hash, key: uint64, r: nat)
    requires r < ROWS && forall k :: k in log && Col(hash, k, r) == Col(hash, key, r) ==> k == key
    ensures LeastHits(log, hash, key, ROWS) == Min(15, Count(log, key))
  {
    AloneHits(log, hash, key, r);
    NeverUnder(log, hash, key, ROWS);
    LeastBelow(log, hash, key, r, ROWS);
  }

  lemma {:induction false} AloneHits(log: seq<uint64>, hash: Hash, key: uint64, r: nat)
    requires forall k :: k in log && Col(hash, k, r) == Col(hash, key, r) ==> k == key
    ensures Hits(log, hash, r, Col(hash, key, r)) == Count(log, key)
  {
    if log != [] {
      assert log[|log| - 1] in log;
      AloneHits(log[..|log| - 1], hash, key, r);
    }
  }

  lemma {:induction false} LeastBelow(log: seq<uint64>, hash: Hash, key: uint64, r: nat, n: nat)
    requires r < n
    ensures LeastHits(log, hash, key, n) <= Min(15, Hits(log, hash, r, Col(hash, key, r)))
  {
    if r < n - 1 { LeastBelow(log, hash, key, r, n - 1); }
  }

  class TinyLfu {
    const rows: array2<byte>
    const window: array<uint64>
    const hash: Hash
    var winHead: nat
    var admitted: nat
    var rejected: nat
    ghost var log: seq<uint64>   // every increment

    ghost predicate Valid()
      reads this, rows
    {
      && rows.Length0 == ROWS && rows.Length1 == COLS / 2 && window.Length == WINDOW
      && Counts(rows, log, hash, ROWS)
    }

    constructor (hash: Hash)
      ensures Valid() && log == [] && fresh(rows) && fresh(window) && this.hash == hash
    {
      rows := new byte[ROWS, COLS / 2]((_, _) => 0);
      window := new uint64[WINDOW](_ => 0);
      this.hash, winHead, admitted, rejected, log := hash, 0, 0, 0, [];
    }

    // The least of the four counters: with the log, an exact statement of what it counts.
    method Estimate(key: uint64) returns (least: nat)
      requires Valid()
      ensures least == LeastHits(log, hash, key, ROWS)
    {
      least := 255;
      for r := 0 to ROWS
        invariant least == LeastHits(log, hash, key, r)
      {
        var idx := Col(hash, key, r);
        var c := Nibble(rows[r, idx / 2], idx % 2 == 1);
        assert c == Cell(rows, r, idx);
        if c < least {
          least := c;
        }
      }
    }

    method Increment(key: uint64)
      requires Valid()
      modifies this`log, rows
      ensures Valid() && log == old(log) + [key]
    {
      hide Hits;
      for r := 0 to ROWS
        invariant log == old(log)
        invariant forall i, c :: 0 <= i < r && 0 <= c < COLS ==>
                    Cell(rows, i, c) == Min(15, Hits(old(log) + [key], hash, i, c))
        invariant forall i, c :: r <= i < ROWS && 0 <= c < COLS ==>
                    Cell(rows, i, c) == Min(15, Hits(old(log), hash, i, c))
      {
        label before:
        var idx := Col(hash, key, r);
        var byteIdx, high := idx / 2, idx % 2 == 1;
        var c := Nibble(rows[r, byteIdx], high);
        assert c == Cell(rows, r, idx);
        if c < 15 {
          rows[r, byteIdx] := SetNibble(rows[r, byteIdx], high, c + 1);
        }
        forall i, x | 0 <= i < ROWS && 0 <= x < COLS
          ensures Cell(rows, i, x) == if i == r && x == idx then Min(15, c + 1) else old@before(Cell(rows, i, x))
        {
          if c < 15 { NibbleSet(old@before(rows[r, byteIdx]), high, c + 1, x % 2 == 1); }
        }
        forall x | 0 <= x < COLS ensures Cell(rows, r, x) == Min(15, Hits(old(log) + [key], hash, r, x)) {
          HitsSnoc(old(log), key, hash, r, x);
        }
      }
      log := log + [key];
    }

    method RecordHit(key: uint64) returns (hot: bool)
      requires Valid()
      modifies this`log, rows
      ensures Valid() && log == old(log) + [key]
      ensures hot <==> LeastHits(log, hash, key, ROWS) > 1
    {
      Increment(key);
      var freq := Estimate(key);
      hot := freq > 1;
    }

    // The new key is counted first and must then be strictly more frequent.
    method Admit(newKey: uint64, candidate: uint64) returns (admit: bool)
      requires Valid()
      modifies this, rows, window
      ensures Valid() && log == old(log) + [newKey]
      ensures admit <==> LeastHits(log, hash, newKey, ROWS) > LeastHits(log, hash, candidate, ROWS)
      ensures admitted == old(admitted) + (if admit then 1 else 0) && rejected == old(rejected) + if admit then 0 else 1
      ensures winHead == old(winHead) + 1 && window[old(winHead) % WINDOW] == newKey
      ensures forall i :: 0 <= i < WINDOW && i != old(winHead) % WINDOW ==> window[i] == old(window[i])
    {
      Increment(newKey);
      var newFreq := Estimate(newKey);
      var candFreq := Estimate(candidate);
      window[winHead % WINDOW] := newKey;
      winHead := winHead + 1;
      if newFreq > candFreq {
        admitted := admitted + 1;
        return true;
      }
      rejected := rejected + 1;
      return false;
    }
  }

  function Cell(rows: array2<byte>, r: nat, c: nat): nat
    requires r < rows.Length0 && c / 2 < rows.Length1
    reads rows
  {
    Nibble(rows[r, c / 2], c % 2 == 1)
  }

  // The first n rows hold the saturated number of increments of every cell.
  ghost predicate Counts(rows: array2<byte>, log: seq<uint64>, hash: Hash, n: nat)
    requires rows.Length0 == ROWS && rows.Length1 == COLS / 2 && n <= ROWS
    reads rows
  {
    forall r, c :: 0 <= r < n && 0 <= c < COLS ==> Cell(rows, r, c) == Min(15, Hits(log, hash, r, c))
  }
}
