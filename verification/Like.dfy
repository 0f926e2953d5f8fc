// The LIKE matcher (internal/SQL/EX/eval.go): a loop that remembers only the last
// '%' it passed, proved against the recursive meaning of the pattern.
module Like {
  import opened Bytes

  const PERCENT: byte := 37
  const UNDERSCORE: byte := 95

  // '%' stands for any run of bytes, '_' for any one byte.
  predicate Matches(p: Key, s: Key)
    decreases |p| + |s|
  {
    if p == [] then s == []
    else if p[0] == PERCENT then Matches(p[1..], s) || (s != [] && Matches(p, s[1..]))
    else s != [] && (p[0] == UNDERSCORE || p[0] == s[0]) && Matches(p[1..], s[1..])
  }

  // cuts lays the text out under the pattern: s[cuts[i]..cuts[i + 1]] is what p[i] stands
  // for, anything for '%', one byte for '_', itself for every other byte.
  ghost predicate LaysOut(p: Key, s: Key, cuts: seq<nat>) {
    && |cuts| == |p| + 1 && cuts[0] == 0 && cuts[|p|] == |s|
    && forall i :: 0 <= i < |p| ==> Stands(p, s, cuts, i)
  }

  ghost predicate Stands(p: Key, s: Key, cuts: seq<nat>, i: nat)
    requires i < |p| && |cuts| == |p| + 1
  {
    && cuts[i] <= cuts[i + 1] <= |s|
    && (p[i] != PERCENT ==> cuts[i + 1] == cuts[i] + 1 && (p[i] == UNDERSCORE || p[i] == s[cuts[i]]))
  }

  // The text matches exactly if it can be cut into pieces that the pattern stands for.
  lemma MatchesMeans(p: Key, s: Key)
    ensures Matches(p, s) <==> exists cuts :: LaysOut(p, s, cuts)
  {
    hide LaysOut, Matches;
    if Matches(p, s) { var cuts := CutsOf(p, s); }
    if exists cuts :: LaysOut(p, s, cuts) {
      var cuts :| LaysOut(p, s, cuts);
      CutsMatch(p, s, cuts);
    }
  }

  lemma {:induction false} CutsOf(p: Key, s: Key) returns (cuts: seq<nat>)
    requires Matches(p, s)
    ensures LaysOut(p, s, cuts)
    decreases |p| + |s|
  {
    if p == [] {
      cuts := [0];
    } else if p[0] == PERCENT && Matches(p[1..], s) {
      var rest := CutsOf(p[1..], s);
      cuts := [0] + rest;
      forall i | 0 <= i < |p| ensures Stands(p, s, cuts, i) { if i > 0 { assert Stands(p[1..], s, rest, i - 1); } }
    } else if p[0] == PERCENT {
      var rest := CutsOf(p, s[1..]);
      cuts := [0] + Later(rest)[1..];
      forall i | 0 <= i < |p| ensures Stands(p, s, cuts, i) { assert Stands(p, s[1..], rest, i); }
    } else {
      var rest := CutsOf(p[1..], s[1..]);
      cuts := [0] + Later(rest);
      forall i | 0 <= i < |p| ensures Stands(p, s, cuts, i) {
        if i > 0 { assert Stands(p[1..], s[1..], rest, i - 1); }
      }
    }
  }

  function Later(cuts: seq<nat>): (later: seq<nat>)
    ensures |later| == |cuts| && forall i :: 0 <= i < |cuts| ==> later[i] == cuts[i] + 1
  {
    seq(|cuts|, i requires 0 <= i < |cuts| => cuts[i] + 1)
  }

  function Sooner(cuts: seq<nat>): (sooner: seq<nat>)
    ensures |sooner| == |cuts| && forall i :: 0 <= i < |cuts| ==> sooner[i] == if cuts[i] > 0 then cuts[i] - 1 else 0
  {
    seq(|cuts|, i requires 0 <= i < |cuts| => if cuts[i] > 0 then cuts[i] - 1 else 0)
  }

  lemma {:induction false} CutsGrow(p: Key, s: Key, cuts: seq<nat>, i: nat)
    requires LaysOut(p, s, cuts) && 0 < i <= |p|
    ensures cuts[1] <= cuts[i] <= |s|
  {
    assert Stands(p, s, cuts, i - 1);
    if i > 1 { CutsGrow(p, s, cuts, i - 1); }
  }

  lemma {:induction false} CutsMatch(p: Key, s: Key, cuts: seq<nat>)
    requires LaysOut(p, s, cuts)
    ensures Matches(p, s)
    decreases |p| + |s|, 1
  {
    if p != [] {
      assert Stands(p, s, cuts, 0);
      if p[0] == PERCENT && cuts[1] == 0 {
        var rest := cuts[1..];
        forall i | 0 <= i < |p| - 1 ensures Stands(p[1..], s, rest, i) { assert Stands(p, s, cuts, i + 1); }
        CutsMatch(p[1..], s, rest);
      } else {
        forall i | 0 < i <= |p| ensures 0 < cuts[i] <= |s| { CutsGrow(p, s, cuts, i); }
        CutsShorter(p, s, cuts);
      }
    }
  }

  lemma CutsShorter(p: Key, s: Key, cuts: seq<nat>)
    requires p != [] && LaysOut(p, s, cuts) && forall i :: 0 < i <= |p| ==> 0 < cuts[i] <= |s|
    ensures Matches(p, s)
    decreases |p| + |s|, 0
  {
    var sooner := Sooner(cuts);
    forall i | 0 < i < |p| ensures Stands(p, s, cuts, i) && (p[i] != PERCENT ==> cuts[i] < |s|) { }
    if p[0] == PERCENT {
      forall i | 0 <= i < |p| ensures Stands(p, s[1..], sooner, i) { assert Stands(p, s, cuts, i); }
      CutsMatch(p, s[1..], sooner);
    } else {
      assert Stands(p, s, cuts, 0);
      var rest := sooner[1..];
      forall i | 0 <= i < |p| - 1 ensures Stands(p[1..], s[1..], rest, i) { assert Stands(p, s, cuts, i + 1); }
      CutsMatch(p[1..], s[1..], rest);
    }
  }

  predicate NoPercent(p: Key) {
    forall i :: 0 <= i < |p| ==> p[i] != PERCENT
  }

  // A '%' may give bytes back: what it matches from further on it matches from here.
  lemma {:induction false} PercentAbsorbs(p: Key, s: Key, x: nat)
    requires p != [] && p[0] == PERCENT && x <= |s| && Matches(p, s[x..])
    ensures Matches(p, s)
    decreases x
  {
    if x > 0 {
      assert s[x..] == s[1..][x - 1..];
      PercentAbsorbs(p, s[1..], x - 1);
    }
  }

  // A stretch of pattern without '%' takes one byte for each of its own.
  lemma {:induction false} SegmentLength(w: Key, q: Key, s: Key)
    requires NoPercent(w) && Matches(w + q, s)
    ensures |w| <= |s| && Matches(q, s[|w|..])
  {
    if w == [] {
      assert w + q == q && s[0..] == s;
    } else {
      assert (w + q)[1..] == w[1..] + q;
      SegmentLength(w[1..], q, s[1..]);
      assert s[1..][|w| - 1..] == s[|w|..];
    }
  }

  // '%' followed by a stretch w: wherever w lands, it lands no earlier than at once.
  lemma {:induction false} StarSegment(p: Key, w: Key, q: Key, s: Key)
    requires p == [PERCENT] + w + q && NoPercent(w) && Matches(p, s)
    ensures |w| <= |s|
    ensures q != [] && q[0] == PERCENT ==> Matches(q, s[|w|..])
    decreases |s|
  {
    assert p[1..] == w + q;
    if Matches(w + q, s) {
      SegmentLength(w, q, s);
    } else {
      StarSegment(p, w, q, s[1..]);
      if q != [] && q[0] == PERCENT {
        assert s[1..][|w|..] == s[|w|..][1..];
        PercentAbsorbs(q, s[|w|..], 1);
      }
    }
  }

  predicate AllPercent(p: Key) {
    forall i :: 0 <= i < |p| ==> p[i] == PERCENT
  }

  lemma {:induction false} MatchesEmpty(p: Key)
    ensures Matches(p, []) <==> AllPercent(p)
  {
    if p != [] { MatchesEmpty(p[1..]); }
  }

  // What the loop knows once it has passed a '%': everything before it is settled,
  // and the bytes since then are the first candidate for the pattern after it.
  ghost predicate Settled(p: Key, s: Key, pi: nat, si: nat, starPI: nat, starSI: nat) {
    && starPI < pi <= |p| && starSI <= si <= |s| && pi - starPI - 1 == si - starSI
    && p[starPI] == PERCENT && NoPercent(p[starPI + 1..pi])
    && (Matches(p, s) <==> Matches(p[starPI..], s[starSI..]))
    && (Matches(p[starPI + 1..], s[starSI..]) <==> Matches(p[pi..], s[si..]))
  }

  // A new '%' makes the last one irrelevant.
  lemma NewStar(p: Key, s: Key, pi: nat, si: nat, starPI: nat, starSI: nat)
    requires Settled(p, s, pi, si, starPI, starSI) && pi < |p| && p[pi] == PERCENT
    ensures Matches(p, s) <==> Matches(p[pi..], s[si..])
  {
    Unfold(p, s, starPI, starSI);
    if starSI < |s| && Matches(p[starPI..], s[starSI + 1..]) {
      var w := p[starPI + 1..pi];
      assert p[starPI..] == [PERCENT] + w + p[pi..];
      StarSegment(p[starPI..], w, p[pi..], s[starSI + 1..]);
      assert s[starSI + 1..][|w|..] == s[si..][1..];
      PercentAbsorbs(p[pi..], s[si..], 1);
    }
  }

  lemma Unfold(p: Key, s: Key, starPI: nat, starSI: nat)
    requires starPI < |p| && starSI <= |s| && p[starPI] == PERCENT
    ensures Matches(p[starPI..], s[starSI..]) <==>
            Matches(p[starPI + 1..], s[starSI..]) || (starSI < |s| && Matches(p[starPI..], s[starSI + 1..]))
  {
    assert p[starPI..][1..] == p[starPI + 1..];
    assert starSI < |s| ==> s[starSI..][1..] == s[starSI + 1..];
  }

  // At the end of the text the last '%' has no byte left to take.
  lemma EndOfText(p: Key, s: Key, pi: nat, starPI: nat, starSI: nat)
    requires Settled(p, s, pi, |s|, starPI, starSI)
    ensures Matches(p, s) <==> Matches(p[pi..], [])
  {
    Unfold(p, s, starPI, starSI);
    assert s[|s|..] == [];
    if starSI < |s| && Matches(p[starPI..], s[starSI + 1..]) {
      assert p[starPI..] == [PERCENT] + p[starPI + 1..pi] + p[pi..];
      StarSegment(p[starPI..], p[starPI + 1..pi], p[pi..], s[starSI + 1..]);
    }
  }

  lemma MatchesByte(p: Key, s: Key)
    requires s != [] && (p == [] || p[0] != PERCENT)
    ensures Matches(p, s) <==> p != [] && (p[0] == UNDERSCORE || p[0] == s[0]) && Matches(p[1..], s[1..])
  {
  }

  method MatchLike(pattern: Key, s: Key) returns (r: bool)
    ensures r <==> Matches(pattern, s)
  {
    hide Matches;
    var pi, si := 0, 0;
    var starPI, starSI := -1, -1;
    assert pattern[0..] == pattern && s[0..] == s;
    while si < |s|
      invariant 0 <= pi <= |pattern| && 0 <= si <= |s| && -1 <= starPI < |pattern| && starSI <= si
      invariant starPI < 0 ==> starSI == -1 && (Matches(pattern, s) <==> Matches(pattern[pi..], s[si..]))
      invariant starPI >= 0 ==> starSI >= 0 && Settled(pattern, s, pi, si, starPI, starSI)
      decreases |pattern| - starPI, |s| - starSI, |s| - si
    {
      assert s[si..][1..] == s[si + 1..];
      if pi < |pattern| {
        var c := pattern[pi];
        assert pattern[pi..][1..] == pattern[pi + 1..];
        if c == PERCENT {
          if starPI >= 0 { NewStar(pattern, s, pi, si, starPI, starSI); }
          starPI := pi;
          starSI := si;
          pi := pi + 1;
          assert pattern[starPI + 1..pi] == [];
          continue;
        }
        MatchesByte(pattern[pi..], s[si..]);
        if c == UNDERSCORE || c == s[si] {
          assert starPI >= 0 ==> pattern[starPI + 1..pi + 1] == pattern[starPI + 1..pi] + [c];
          pi := pi + 1;
          si := si + 1;
          continue;
        }
      }
      MatchesByte(pattern[pi..], s[si..]);
      if starPI >= 0 {
        Unfold(pattern, s, starPI, starSI);
        pi := starPI + 1;
        starSI := starSI + 1;
        si := starSI;
        continue;
      }
      return false;
    }
    if starPI >= 0 { EndOfText(pattern, s, pi, starPI, starSI); }
    MatchesEmpty(pattern[pi..]);
    assert s[si..] == [];
    ghost var rest := pattern[pi..];
    while pi < |pattern| && pattern[pi] == PERCENT
      invariant 0 <= pi <= |pattern|
      invariant AllPercent(rest) <==> AllPercent(pattern[pi..])
    {
      assert pattern[pi..] == [pattern[pi]] + pattern[pi + 1..];
      pi := pi + 1;
    }
    assert pi < |pattern| ==> pattern[pi..][0] == pattern[pi];
    return pi == |pattern|;
  }
}
