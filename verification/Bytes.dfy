// Byte strings and their lexicographic order, as Go's bytes.Compare defines it.
//
// Every byte string has a rank, a real number in [0, 1).  The order of ranks is
// the lexicographic order (CompareIsRankOrder), so the other modules state
// sortedness and key ranges with `<` on ranks and need no transitivity lemmas.
module Bytes {
  type byte = b: int | 0 <= b < 256
  type Key = seq<byte>

  // bytes.Compare(a, b)
  function Compare(a: Key, b: Key): int {
    if a == [] then (if b == [] then 0 else -1)
    else if b == [] then 1
    else if a[0] < b[0] then -1
    else if a[0] > b[0] then 1
    else Compare(a[1..], b[1..])
  }

  ghost function Rank(a: Key): (r: real)
    ensures 0.0 <= r < 1.0
    ensures r == 0.0 <==> a == []
  {
    if a == [] then 0.0 else (a[0] as real + 1.0 + Rank(a[1..])) / 257.0
  }

  lemma {:induction false} CompareIsRankOrder(a: Key, b: Key)
    ensures Compare(a, b) < 0 <==> Rank(a) < Rank(b)
    ensures Compare(a, b) > 0 <==> Rank(a) > Rank(b)
    ensures Compare(a, b) == 0 <==> a == b
  {
    if a != [] && b != [] {
      if a[0] == b[0] {
        CompareIsRankOrder(a[1..], b[1..]);
        assert a == [a[0]] + a[1..] && b == [b[0]] + b[1..];
      }
    }
  }

  // a is a proper beginning of b, or smaller in the first byte in which they differ.
  ghost predicate Precedes(a: Key, b: Key) {
    exists n :: PrecedesAt(a, b, n)
  }

  ghost predicate PrecedesAt(a: Key, b: Key, n: int) {
    && 0 <= n <= |a| && n < |b| && a[..n] == b[..n]
    && (n == |a| || a[n] < b[n])
  }

  // The order of bytes.Compare, and so of ranks, is the lexicographic one.
  lemma CompareIsLexicographic(a: Key, b: Key)
    ensures Compare(a, b) < 0 <==> Precedes(a, b)
    ensures Rank(a) < Rank(b) <==> Precedes(a, b)
  {
    hide Precedes;
    CompareIsRankOrder(a, b);
    LessPrecedes(a, b);
  }

  lemma {:induction false} LessPrecedes(a: Key, b: Key)
    ensures Compare(a, b) < 0 <==> Precedes(a, b)
  {
    if a != [] && b != [] && a[0] == b[0] {
      LessPrecedes(a[1..], b[1..]);
      PrecedesTail(a, b);
    } else if b != [] && (a == [] || a[0] < b[0]) {
      assert PrecedesAt(a, b, 0);
    }
  }

  lemma PrecedesTail(a: Key, b: Key)
    requires a != [] && b != [] && a[0] == b[0]
    ensures Precedes(a, b) <==> Precedes(a[1..], b[1..])
  {
    assert a == [a[0]] + a[1..] && b == [b[0]] + b[1..];
    if Precedes(a, b) {
      var n :| PrecedesAt(a, b, n);
      assert n > 0 && a[..n][1..] == a[1..][..n - 1] && b[..n][1..] == b[1..][..n - 1];
      assert PrecedesAt(a[1..], b[1..], n - 1);
    }
    if Precedes(a[1..], b[1..]) {
      var n :| PrecedesAt(a[1..], b[1..], n);
      assert a[..n + 1] == [a[0]] + a[1..][..n] && b[..n + 1] == [b[0]] + b[1..][..n];
      assert PrecedesAt(a, b, n + 1);
    }
  }

  // Equal ranks mean equal strings.
  lemma RankInjective(a: Key, b: Key)
    ensures Rank(a) == Rank(b) <==> a == b
  {
    CompareIsRankOrder(a, b);
  }

  // Strictly increasing under bytes.Compare.
  ghost predicate Sorted(keys: seq<Key>) {
    forall i, j :: 0 <= i < j < |keys| ==> Rank(keys[i]) < Rank(keys[j])
  }
}
