// The merge of memtables and tables behind a prefix scan (internal/ENG/LS/api.go).
//
// The heap compares keys only, so which of several entries with one key comes out
// first is left open; each source has at most one entry in the heap, which is
// therefore a map from sources to entries.
module MergeIter {
  import opened Bytes

  datatype Pair = Pair(key: Key, value: Key)
  datatype Option<T> = None | Some(value: T)

  const TOMBSTONE: Key := [0xDE, 0xAD, 0xBE, 0xEF]

  // ---------------------------------------------------------------- the bound of a prefix

  predicate HasPrefix(key: Key, prefix: Key) {
    |prefix| <= |key| && key[..|prefix|] == prefix
  }

  // The least string above every string with the prefix; None is nil, no bound.
  function UpperBound(prefix: Key): (upper: Option<Key>)
    ensures upper.Some? ==> upper.value != []
  {
    if prefix == [] then None
    else
      match UpperBound(prefix[1..])
      case Some(rest) => Some([prefix[0]] + rest)
      case None => if prefix[0] < 0xFF then Some([prefix[0] + 1]) else None
  }

  // Having the prefix is lying in the interval [prefix, upper).
  lemma {:induction false} PrefixInterval(key: Key, prefix: Key)
    ensures HasPrefix(key, prefix) <==>
            Compare(key, prefix) >= 0 && (UpperBound(prefix).None? || Compare(key, UpperBound(prefix).value) < 0)
  {
    if prefix != [] && key != [] {
      PrefixInterval(key[1..], prefix[1..]);
      PrefixStep(key, prefix);
      match UpperBound(prefix[1..])
      case Some(rest) =>
        var u := UpperBound(prefix).value;
        assert u[0] == prefix[0] && u[1..] == rest;
      case None =>
        if prefix[0] < 0xFF {
          var u := UpperBound(prefix).value;
          assert u[0] as int == prefix[0] + 1 && u[1..] == [];
        }
    }
  }

  lemma PrefixStep(key: Key, prefix: Key)
    requires prefix != [] && key != []
    ensures HasPrefix(key, prefix) <==> key[0] == prefix[0] && HasPrefix(key[1..], prefix[1..])
  {
    if |prefix| <= |key| {
      assert key[..|prefix|] == [key[0]] + key[1..][..|prefix| - 1] && prefix == [prefix[0]] + prefix[1..];
    }
  }

  lemma {:induction false} UpperSnoc(p: Key, b: byte)
    ensures UpperBound(p + [b]) == if b < 0xFF then Some(p + [b + 1]) else UpperBound(p)
  {
    if p == [] {
      assert [] + [b] == [b] && [b][1..] == [] && [] + [b + 1] == [b + 1];
    } else {
      assert (p + [b])[1..] == p[1..] + [b];
      UpperSnoc(p[1..], b);
      if b < 0xFF { assert [p[0]] + (p[1..] + [b + 1]) == p + [b + 1]; }
    }
  }

  // prefixUpperBound: the last byte below 0xFF is raised and the rest cut off.
  method PrefixUpperBound(prefix: Key) returns (upper: Option<Key>)
    ensures upper == UpperBound(prefix)
  {
    if |prefix| == 0 {
      return None;
    }
    var i := |prefix|;
    assert prefix[..i] == prefix;
    while i > 0
      invariant 0 <= i <= |prefix| && UpperBound(prefix[..i]) == UpperBound(prefix)
    {
      i := i - 1;
      assert prefix[..i + 1] == prefix[..i] + [prefix[i]];
      UpperSnoc(prefix[..i], prefix[i]);
      if prefix[i] < 0xFF {
        return Some(prefix[..i] + [prefix[i] + 1]);
      }
    }
    return None;
  }

  predicate FileOverlaps(minKey: Key, maxKey: Key, prefix: Key, upper: Option<Key>) {
    if upper.None? then Compare(maxKey, prefix) >= 0
    else if Compare(maxKey, prefix) < 0 then false
    else if |minKey| > 0 && Compare(minKey, upper.value) >= 0 then false
    else true
  }

  ghost predicate InRange(key: Key, minKey: Key, maxKey: Key) {
    Rank(minKey) <= Rank(key) <= Rank(maxKey)
  }

  // A file is read exactly if some string between its bounds has the prefix.
  lemma PruningExact(minKey: Key, maxKey: Key, prefix: Key)
    requires Rank(minKey) <= Rank(maxKey)
    ensures FileOverlaps(minKey, maxKey, prefix, UpperBound(prefix)) <==>
              exists key :: InRange(key, minKey, maxKey) && HasPrefix(key, prefix)
  {
    hide Rank, UpperBound;
    var upper := UpperBound(prefix);
    forall key | InRange(key, minKey, maxKey) && HasPrefix(key, prefix)
      ensures FileOverlaps(minKey, maxKey, prefix, upper)
    {
      PrefixInterval(key, prefix);
      CompareIsRankOrder(key, prefix);
      CompareIsRankOrder(maxKey, prefix);
      if upper.Some? {
        CompareIsRankOrder(key, upper.value);
        CompareIsRankOrder(minKey, upper.value);
      }
    }
    if FileOverlaps(minKey, maxKey, prefix, upper) {
      Witness(minKey, maxKey, prefix);
    }
  }

  lemma Witness(minKey: Key, maxKey: Key, prefix: Key)
    requires Rank(minKey) <= Rank(maxKey) && FileOverlaps(minKey, maxKey, prefix, UpperBound(prefix))
    ensures exists key :: InRange(key, minKey, maxKey) && HasPrefix(key, prefix)
  {
    var upper := UpperBound(prefix);
    var key := if Rank(minKey) <= Rank(prefix) then prefix else minKey;
    CompareIsRankOrder(maxKey, prefix);
    CompareIsRankOrder(key, prefix);
    PrefixInterval(key, prefix);
    PrefixInterval(prefix, prefix);
    if upper.Some? { CompareIsRankOrder(minKey, upper.value); CompareIsRankOrder(key, upper.value); }
    assert InRange(key, minKey, maxKey) && HasPrefix(key, prefix);
  }

  // ---------------------------------------------------------------- the sources

  ghost predicate Increasing(s: seq<Pair>) {
    forall i, j :: 0 <= i < j < |s| ==> Rank(s[i].key) < Rank(s[j].key)
  }

  // The pairs with larger keys.
  ghost function After(s: seq<Pair>, key: Key): seq<Pair> {
    if s == [] || Rank(s[0].key) > Rank(key) then s else After(s[1..], key)
  }

  ghost function AllAfter(streams: seq<seq<Pair>>, key: Key): (rest: seq<seq<Pair>>)
    ensures |rest| == |streams| && forall i :: 0 <= i < |streams| ==> rest[i] == After(streams[i], key)
  {
    seq(|streams|, i requires 0 <= i < |streams| => After(streams[i], key))
  }

  // Some source holds the pair.
  ghost predicate Holds(streams: seq<seq<Pair>>, p: Pair) {
    exists i :: 0 <= i < |streams| && p in streams[i]
  }

  ghost predicate AllIncreasing(streams: seq<seq<Pair>>) {
    forall i :: 0 <= i < |streams| ==> Increasing(streams[i])
  }

  // The key may be left out: some source holds a tombstone for it.
  ghost predicate Deletable(streams: seq<seq<Pair>>, key: Key) {
    Holds(streams, Pair(key, TOMBSTONE))
  }

  lemma HeadLeast(s: seq<Pair>, p: Pair)
    requires Increasing(s) && p in s
    ensures Rank(p.key) >= Rank(s[0].key)
  {
    hide Rank;
    var i :| 0 <= i < |s| && s[i] == p;
    assert i > 0 ==> Rank(s[0].key) < Rank(s[i].key);
  }

  lemma TailMembers(s: seq<Pair>, p: Pair)
    requires s != []
    ensures p in s <==> p == s[0] || p in s[1..]
  {
    assert s == [s[0]] + s[1..];
  }

  lemma TailIncreasing(s: seq<Pair>)
    requires Increasing(s) && s != []
    ensures Increasing(s[1..])
  {
    hide Rank;
  }

  lemma {:induction false} AfterSuffix(s: seq<Pair>, key: Key)
    requires Increasing(s)
    ensures Increasing(After(s, key)) && |After(s, key)| <= |s|
    ensures forall p :: p in After(s, key) <==> p in s && Rank(p.key) > Rank(key)
  {
    hide Rank, Increasing;
    if s != [] && Rank(s[0].key) <= Rank(key) {
      TailIncreasing(s);
      AfterSuffix(s[1..], key);
      forall p ensures p in s <==> p == s[0] || p in s[1..] { TailMembers(s, p); }
    } else {
      forall p | p in s ensures Rank(p.key) > Rank(key) { HeadLeast(s, p); }
    }
  }

  lemma {:induction false} AfterTwice(s: seq<Pair>, a: Key, b: Key)
    requires Rank(a) <= Rank(b)
    ensures After(After(s, a), b) == After(s, b)
  {
    hide Rank;
    if s != [] && Rank(s[0].key) <= Rank(a) { AfterTwice(s[1..], a, b); }
  }

  // ---------------------------------------------------------------- the iterator

  lemma LeastKey(heap: map<nat, Pair>)
    requires heap != map[]
    ensures exists i :: i in heap && forall j :: j in heap ==> Compare(heap[j].key, heap[i].key) >= 0
  {
    var i := LeastOf(heap, heap.Keys);
    forall j | j in heap
      ensures Compare(heap[j].key, heap[i].key) >= 0
    {
      CompareIsRankOrder(heap[j].key, heap[i].key);
    }
  }

  lemma {:induction false} LeastOf(heap: map<nat, Pair>, keys: set<nat>) returns (i: nat)
    requires keys != {} && keys <= heap.Keys
    ensures i in keys && forall j :: j in keys ==> Rank(heap[j].key) >= Rank(heap[i].key)
    decreases keys
  {
    hide Rank;
    i :| i in keys;
    if keys != {i} {
      var other := LeastOf(heap, keys - {i});
      if Rank(heap[other].key) < Rank(heap[i].key) { i := other; }
    }
  }

  // What is left of each source, with its entry in the heap in front.
  ghost function View(sources: seq<seq<Pair>>, heap: map<nat, Pair>): (streams: seq<seq<Pair>>)
    ensures |streams| == |sources|
  {
    seq(|sources|, i requires 0 <= i < |sources| => if i in heap then [heap[i]] + sources[i] else sources[i])
  }

  // A source that has pairs left has one in the heap.
  ghost predicate Filled(sources: seq<seq<Pair>>, heap: map<nat, Pair>) {
    && (forall i :: i in heap ==> i < |sources|)
    && (forall i :: 0 <= i < |sources| && i !in heap ==> sources[i] == [])
  }

  class MergeIterator {
    const prefix: Key
    var sources: seq<seq<Pair>>   // what each source has not delivered yet
    var heap: map<nat, Pair>
    var curKey: Key
    var curVal: Key
    var closed: bool

    ghost predicate Valid()
      reads this
    {
      Filled(sources, heap) && AllIncreasing(Streams())
    }

    ghost function Streams(): (streams: seq<seq<Pair>>)
      reads this
    {
      View(sources, heap)
    }

    constructor (sources: seq<seq<Pair>>, prefix: Key)
      requires AllIncreasing(sources)
      ensures Valid() && Streams() == sources && !closed && this.prefix == prefix
    {
      this.prefix, this.sources, heap, curKey, curVal, closed := prefix, sources, map[], [], [], false;
      new;
      for i := 0 to |sources|
        invariant |this.sources| == |sources| && !closed
        invariant forall j :: j in heap ==> j < i
        invariant forall j :: 0 <= j < i && j !in heap ==> this.sources[j] == []
        invariant Streams() == sources
      {
        Fill(i);
      }
    }

    // The source delivers its next pair to the heap, if it has one.
    method Fill(i: nat)
      requires i < |sources| && i !in heap
      modifies this`sources, this`heap
      ensures Streams() == old(Streams()) && |sources| == |old(sources)|
      ensures old(sources[i]) == [] ==> heap == old(heap) && sources == old(sources)
      ensures old(sources[i]) != [] ==>
                heap == old(heap)[i := old(sources[i][0])] && sources == old(sources)[i := old(sources[i][1..])]
    {
      ghost var before := Streams();
      if sources[i] != [] {
        heap := heap[i := sources[i][0]];
        sources := sources[i := sources[i][1..]];
        assert [heap[i]] + sources[i] == old(sources[i]);
      }
      assert Streams() == before;
    }

    // Some entry with a least key.
    method Top() returns (i: nat)
      requires heap != map[]
      ensures i in heap && forall j :: j in heap ==> Rank(heap[j].key) >= Rank(heap[i].key)
    {
      LeastKey(heap);
      i :| i in heap && forall j :: j in heap ==> Compare(heap[j].key, heap[i].key) >= 0;
      forall j | j in heap
        ensures Rank(heap[j].key) >= Rank(heap[i].key)
      {
        CompareIsRankOrder(heap[j].key, heap[i].key);
      }
    }

    // heap.Pop and the push of the next pair of the same source.
    method Advance(i: nat)
      requires Valid() && i in heap
      modifies this`sources, this`heap
      ensures Valid()
      ensures Streams() == old(Streams())[i := old(Streams())[i][1..]]
    {
      hide Rank;
      ghost var before := Streams();
      assert before[i][1..] == sources[i];
      heap := heap - {i};
      assert Streams() == before[i := before[i][1..]];
      Fill(i);
    }

    // Pops every entry with the key: afterwards each source is behind it.
    method SkipKey(key: Key, ghost before: seq<seq<Pair>>)
      requires Valid() && AllIncreasing(before) && Dropping(Streams(), before, key)
      requires forall i :: 0 <= i < |before| && before[i] != [] ==> Rank(before[i][0].key) >= Rank(key)
      modifies this`sources, this`heap
      ensures Valid() && Streams() == AllAfter(before, key) && Left(Streams()) <= old(Left(Streams()))
    {
      hide Rank, AllIncreasing, Left, Dropping, View, Filled, After;
      HeapHeads();
      while heap != map[]
        invariant Valid() && Dropping(Streams(), before, key) && Left(Streams()) <= old(Left(Streams()))
        decreases Left(Streams())
      {
        var i := Top();
        HeapHeads();
        if heap[i].key != key {
          TopAbove(Streams(), before, key, i);
          return;
        }
        HeapHeads();
        LeftDrops(Streams(), i);
        DropMore(Streams(), before, key, i);
        Advance(i);
      }
      NoHeads(sources, heap);
      DroppedAll(before, Streams(), key);
    }

    // The heads of the streams are the entries of the heap.
    lemma HeapHeads()
      requires Valid()
      ensures forall i :: 0 <= i < |Streams()| ==> (Streams()[i] != [] <==> i in heap)
      ensures forall i :: i in heap ==> i < |Streams()| && Streams()[i][0] == heap[i]
    {
    }

    // Takes the entry i and every other entry with its key off the heap.
    method PopKey() returns (key: Key, val: Key, ghost i: nat)
      requires Valid() && heap != map[]
      modifies this`sources, this`heap
      ensures Valid() && Left(Streams()) < old(Left(Streams()))
      ensures i < |old(Streams())| && old(Streams())[i] != [] && old(Streams())[i][0] == Pair(key, val)
      ensures forall j :: 0 <= j < |old(Streams())| && old(Streams())[j] != [] ==>
                Rank(old(Streams())[j][0].key) >= Rank(key)
      ensures Streams() == AllAfter(old(Streams()), key)
    {
      hide Rank, AllIncreasing, Left, Dropping, After;
      var top := Top();
      i := top;
      HeapHeads();
      ghost var before := Streams();
      key, val := heap[top].key, heap[top].value;
      LeftDrops(before, i);
      DropFirst(before, i);
      Advance(top);
      SkipKey(key, before);
    }

    // Next skips keys without the prefix and deleted keys, and stops at the least key left.
    method Next() returns (ok: bool)
      requires Valid()
      modifies this`sources, this`heap, this`curKey, this`curVal
      ensures Valid()
      ensures closed ==> !ok && Streams() == old(Streams())
      ensures ok ==> Holds(old(Streams()), Pair(curKey, curVal)) && HasPrefix(curKey, prefix) && curVal != TOMBSTONE
      ensures ok ==> Streams() == AllAfter(old(Streams()), curKey) && SkippedBelow(old(Streams()), prefix, curKey)
      ensures !ok && !closed ==> Left(Streams()) == 0 && SkippedAll(old(Streams()), prefix)
    {
      hide Rank, AllIncreasing, HasPrefix, Holds, Left, SkippedBelow, SkippedAt, SkippedAll, After, View, Filled;
      ghost var all := Streams();
      if closed {
        return false;
      }
      ghost var started, last: Key := false, [];
      while heap != map[]
        invariant Valid() && !closed && Behind(all, started, last, Streams(), prefix)
        decreases Left(Streams())
      {
        ghost var before := Streams();
        ghost var i;
        var key, val;
        key, val, i := PopKey();
        NextKey(all, started, last, before, prefix, i);
        if !HasPrefix(key, prefix) {
          SkipsKey(all, prefix, Pair(key, val));
          started, last := true, key;
          continue;
        }
        if val == TOMBSTONE {
          SkipsKey(all, prefix, Pair(key, val));
          started, last := true, key;
          continue;
        }
        curKey, curVal := key, val;
        return true;
      }
      HeapHeads();
      NoHeads(sources, heap);
      NothingLeft(all, started, last, Streams(), prefix);
      return false;
    }

    // The whole scan.
    method Drain() returns (out: seq<Pair>)
      requires Valid() && !closed
      modifies this`sources, this`heap, this`curKey, this`curVal
      ensures Merged(old(Streams()), prefix, out)
    {
      hide Rank, AllIncreasing, HasPrefix, Holds, Left, SkippedBelow, SkippedAll, Live, After;
      ghost var all := Streams();
      out := [];
      NoneYet(all, prefix);
      while true
        invariant Valid() && !closed && MergedTo(all, prefix, out, Streams())
        decreases Left(Streams())
      {
        ghost var before := Streams();
        var ok := Next();
        if !ok {
          MergedEnd(all, prefix, out, before);
          return;
        }
        LeftShrinks(before, Pair(curKey, curVal));
        MergedStep(all, prefix, out, before, Pair(curKey, curVal));
        out := out + [Pair(curKey, curVal)];
      }
    }
  }

  lemma NoHeads(sources: seq<seq<Pair>>, heap: map<nat, Pair>)
    requires Filled(sources, heap) && heap == map[]
    ensures forall i :: 0 <= i < |View(sources, heap)| ==> View(sources, heap)[i] == []
  {
  }

  lemma NoneYet(all: seq<seq<Pair>>, prefix: Key)
    requires AllIncreasing(all)
    ensures MergedTo(all, prefix, [], all)
  {
  }

  lemma DropFirst(before: seq<seq<Pair>>, i: nat)
    requires i < |before| && before[i] != []
    ensures Dropping(before[i := before[i][1..]], before, before[i][0].key)
  {
  }

  // The streams from which some heads with this key are gone.
  ghost predicate Dropping(now: seq<seq<Pair>>, before: seq<seq<Pair>>, key: Key) {
    && |now| == |before|
    && forall i :: 0 <= i < |before| ==>
         now[i] == before[i] || (before[i] != [] && before[i][0].key == key && now[i] == before[i][1..])
  }

  ghost function Left(streams: seq<seq<Pair>>): nat {
    if streams == [] then 0 else |streams[0]| + Left(streams[1..])
  }

  lemma {:induction false} LeftDrops(streams: seq<seq<Pair>>, i: nat)
    requires i < |streams| && streams[i] != []
    ensures Left(streams[i := streams[i][1..]]) < Left(streams)
  {
    var dropped := streams[i := streams[i][1..]];
    if i == 0 {
      assert dropped[1..] == streams[1..];
    } else {
      assert dropped[1..] == streams[1..][i - 1 := streams[1..][i - 1][1..]];
      LeftDrops(streams[1..], i - 1);
    }
  }

  lemma {:induction false} LeftLess(a: seq<seq<Pair>>, b: seq<seq<Pair>>)
    requires |a| == |b| && forall i :: 0 <= i < |a| ==> |a[i]| <= |b[i]|
    ensures Left(a) <= Left(b)
    ensures (exists i :: 0 <= i < |a| && |a[i]| < |b[i]|) ==> Left(a) < Left(b)
  {
    if a != [] {
      LeftLess(a[1..], b[1..]);
      if i :| 0 <= i < |a| && |a[i]| < |b[i]| {
        if i > 0 { assert |a[1..][i - 1]| < |b[1..][i - 1]|; }
      }
    }
  }

  lemma {:induction false} LeftZero(streams: seq<seq<Pair>>)
    ensures Left(streams) == 0 <==> forall i :: 0 <= i < |streams| ==> streams[i] == []
  {
    if streams != [] {
      LeftZero(streams[1..]);
      if Left(streams) == 0 {
        forall i | 0 <= i < |streams| ensures streams[i] == [] { if i > 0 { assert streams[1..][i - 1] == []; } }
      }
    }
  }

  lemma DropMore(now: seq<seq<Pair>>, before: seq<seq<Pair>>, key: Key, i: nat)
    requires AllIncreasing(before) && Dropping(now, before, key) && i < |now| && now[i] != [] && now[i][0].key == key
    ensures Dropping(now[i := now[i][1..]], before, key)
  {
    if |before[i]| > 1 { HeadOnce(before[i]); }
  }

  lemma HeadOnce(s: seq<Pair>)
    requires |s| > 1 && Increasing(s)
    ensures s[0].key != s[1].key && Rank(s[0].key) < Rank(s[1].key)
  {
  }

  lemma HeadAtLeast(now: seq<seq<Pair>>, before: seq<seq<Pair>>, key: Key, i: nat)
    requires AllIncreasing(before) && Dropping(now, before, key) && i < |now| && now[i] != []
    requires before[i] != [] ==> Rank(before[i][0].key) >= Rank(key)
    ensures Rank(now[i][0].key) >= Rank(key)
  {
    hide Rank;
    if |before[i]| > 1 { HeadOnce(before[i]); }
  }

  lemma DroppedAll(before: seq<seq<Pair>>, now: seq<seq<Pair>>, key: Key)
    requires Dropping(now, before, key) && forall i :: 0 <= i < |now| && now[i] != [] ==>
               Rank(now[i][0].key) > Rank(key)
    ensures now == AllAfter(before, key)
  {
    hide Rank;
    forall i | 0 <= i < |now| ensures now[i] == After(before[i], key) {
      if now[i] != before[i] { assert After(before[i], key) == After(before[i][1..], key); }
    }
  }

  // The least head is above the key, so no head with the key is left.
  lemma TopAbove(now: seq<seq<Pair>>, before: seq<seq<Pair>>, key: Key, i: nat)
    requires AllIncreasing(before) && Dropping(now, before, key)
    requires forall j :: 0 <= j < |before| && before[j] != [] ==> Rank(before[j][0].key) >= Rank(key)
    requires i < |now| && now[i] != [] && now[i][0].key != key
    requires forall j :: 0 <= j < |now| && now[j] != [] ==> Rank(now[j][0].key) >= Rank(now[i][0].key)
    ensures now == AllAfter(before, key)
  {
    hide Rank;
    RankInjective(now[i][0].key, key);
    HeadAtLeast(now, before, key, i);
    DroppedAll(before, now, key);
  }

  lemma HeldAbove(streams: seq<seq<Pair>>, key: Key, p: Pair)
    requires AllIncreasing(streams) && Holds(streams, p)
    requires forall i :: 0 <= i < |streams| && streams[i] != [] ==> Rank(streams[i][0].key) >= Rank(key)
    ensures Rank(p.key) >= Rank(key)
  {
    hide Rank;
    var i :| 0 <= i < |streams| && p in streams[i];
    var j :| 0 <= j < |streams[i]| && streams[i][j] == p;
    assert Increasing(streams[i]);
    assert j > 0 ==> Rank(streams[i][0].key) < Rank(streams[i][j].key);
  }

  lemma HeldRest(all: seq<seq<Pair>>, last: Key, p: Pair)
    requires AllIncreasing(all)
    ensures Holds(AllAfter(all, last), p) <==> Holds(all, p) && Rank(p.key) > Rank(last)
    ensures AllIncreasing(AllAfter(all, last))
  {
    hide Rank, After;
    forall i | 0 <= i < |all|
      ensures (p in After(all[i], last) <==> p in all[i] && Rank(p.key) > Rank(last)) && Increasing(After(all[i], last))
    {
      AfterSuffix(all[i], last);
    }
    if Holds(AllAfter(all, last), p) {
      var i :| 0 <= i < |all| && p in AllAfter(all, last)[i];
      assert p in all[i];
    }
    if Holds(all, p) && Rank(p.key) > Rank(last) {
      var i :| 0 <= i < |all| && p in all[i];
      assert p in AllAfter(all, last)[i];
    }
  }

  lemma HeadHolds(streams: seq<seq<Pair>>, i: nat)
    requires i < |streams| && streams[i] != []
    ensures Holds(streams, streams[i][0])
  {
    assert streams[i][0] in streams[i];
  }

  lemma AllAfterTwice(all: seq<seq<Pair>>, a: Key, b: Key)
    requires Rank(a) <= Rank(b)
    ensures AllAfter(AllAfter(all, a), b) == AllAfter(all, b)
  {
    hide Rank;
    forall i | 0 <= i < |all| ensures After(After(all[i], a), b) == After(all[i], b) { AfterTwice(all[i], a, b); }
  }

  // ---------------------------------------------------------------- what may be left out

  ghost predicate SkippedBelow(all: seq<seq<Pair>>, prefix: Key, key: Key) {
    forall p :: Holds(all, p) && HasPrefix(p.key, prefix) && Rank(p.key) < Rank(key) ==> Deletable(all, p.key)
  }

  ghost predicate SkippedAt(all: seq<seq<Pair>>, prefix: Key, key: Key) {
    forall p :: Holds(all, p) && HasPrefix(p.key, prefix) && p.key == key ==> Deletable(all, p.key)
  }

  ghost predicate SkippedAll(all: seq<seq<Pair>>, prefix: Key) {
    forall p :: Holds(all, p) && HasPrefix(p.key, prefix) ==> Deletable(all, p.key)
  }

  // now is what is left of all behind the last key.
  ghost predicate Behind(all: seq<seq<Pair>>, started: bool, last: Key, now: seq<seq<Pair>>, prefix: Key) {
    && AllIncreasing(all)
    && now == (if started then AllAfter(all, last) else all)
    && (started ==> SkippedBelow(all, prefix, last) && SkippedAt(all, prefix, last))
  }

  lemma NextKey(all: seq<seq<Pair>>, started: bool, last: Key, now: seq<seq<Pair>>, prefix: Key, i: nat)
    requires Behind(all, started, last, now, prefix) && i < |now| && now[i] != []
    requires forall j :: 0 <= j < |now| && now[j] != [] ==> Rank(now[j][0].key) >= Rank(now[i][0].key)
    ensures AllIncreasing(now) && Holds(all, now[i][0]) && SkippedBelow(all, prefix, now[i][0].key)
    ensures AllAfter(now, now[i][0].key) == AllAfter(all, now[i][0].key)
  {
    hide Rank, Holds, HasPrefix, AllIncreasing, Deletable;
    var key := now[i][0].key;
    HeadHolds(now, i);
    HeldRest(all, last, now[i][0]);
    if started { AllAfterTwice(all, last, key); }
    forall p | Holds(all, p) && HasPrefix(p.key, prefix) && Rank(p.key) < Rank(key) ensures Deletable(all, p.key) {
      HeldRest(all, last, p);
      RankInjective(p.key, last);
      if !started || Rank(p.key) > Rank(last) { HeldAbove(now, key, p); }
    }
  }

  lemma SkipsKey(all: seq<seq<Pair>>, prefix: Key, p: Pair)
    requires Holds(all, p) && (!HasPrefix(p.key, prefix) || p.value == TOMBSTONE)
    ensures SkippedAt(all, prefix, p.key)
  {
    if p.value == TOMBSTONE { assert p == Pair(p.key, TOMBSTONE); }
  }

  lemma NothingLeft(all: seq<seq<Pair>>, started: bool, last: Key, now: seq<seq<Pair>>, prefix: Key)
    requires Behind(all, started, last, now, prefix) && forall i :: 0 <= i < |now| ==> now[i] == []
    ensures SkippedAll(all, prefix) && Left(now) == 0
  {
    hide Rank, HasPrefix, AllIncreasing, Deletable;
    LeftZero(now);
    forall p | Holds(all, p) && HasPrefix(p.key, prefix) ensures Deletable(all, p.key) {
      HeldRest(all, last, p);
      RankInjective(p.key, last);
      assert !Holds(now, p);
    }
  }

  lemma LeftShrinks(streams: seq<seq<Pair>>, p: Pair)
    requires AllIncreasing(streams) && Holds(streams, p)
    ensures Left(AllAfter(streams, p.key)) < Left(streams)
  {
    hide Rank, After;
    var rest := AllAfter(streams, p.key);
    forall i | 0 <= i < |streams| ensures |rest[i]| <= |streams[i]| { AfterSuffix(streams[i], p.key); }
    var i :| 0 <= i < |streams| && p in streams[i];
    AfterShorter(streams[i], p);
    LeftLess(rest, streams);
  }

  lemma AfterShorter(s: seq<Pair>, p: Pair)
    requires Increasing(s) && p in s
    ensures |After(s, p.key)| < |s|
  {
    hide Rank;
    AfterSuffix(s[1..], p.key);
    var i :| 0 <= i < |s| && s[i] == p;
    assert i > 0 ==> Rank(s[0].key) < Rank(s[i].key);
  }

  // ---------------------------------------------------------------- the whole scan

  predicate HasKey(out: seq<Pair>, key: Key) {
    exists i :: 0 <= i < |out| && out[i].key == key
  }

  // Strictly increasing live pairs with the prefix, each from a source that holds it.
  ghost predicate Live(all: seq<seq<Pair>>, prefix: Key, out: seq<Pair>) {
    && Increasing(out)
    && forall i :: 0 <= i < |out| ==> Holds(all, out[i]) && HasPrefix(out[i].key, prefix) && out[i].value != TOMBSTONE
  }

  // And no key is missing, unless some source holds a tombstone for it.
  ghost predicate Merged(all: seq<seq<Pair>>, prefix: Key, out: seq<Pair>) {
    && Live(all, prefix, out)
    && forall p :: Holds(all, p) && HasPrefix(p.key, prefix) ==> HasKey(out, p.key) || Deletable(all, p.key)
  }

  ghost predicate MergedTo(all: seq<seq<Pair>>, prefix: Key, out: seq<Pair>, now: seq<seq<Pair>>) {
    && AllIncreasing(all) && Live(all, prefix, out)
    && now == (if out == [] then all else AllAfter(all, out[|out| - 1].key))
    && forall p :: Holds(all, p) && HasPrefix(p.key, prefix) && !Holds(now, p) ==>
         HasKey(out, p.key) || Deletable(all, p.key)
  }

  lemma FromRest(all: seq<seq<Pair>>, out: seq<Pair>, now: seq<seq<Pair>>, p: Pair)
    requires AllIncreasing(all) && now == (if out == [] then all else AllAfter(all, out[|out| - 1].key))
             && Holds(now, p)
    ensures Holds(all, p) && (out != [] ==> Rank(p.key) > Rank(out[|out| - 1].key))
  {
    if out != [] { HeldRest(all, out[|out| - 1].key, p); }
  }

  lemma MergedStep(all: seq<seq<Pair>>, prefix: Key, out: seq<Pair>, now: seq<seq<Pair>>, p: Pair)
    requires MergedTo(all, prefix, out, now)
    requires Holds(now, p) && HasPrefix(p.key, prefix) && p.value != TOMBSTONE && SkippedBelow(now, prefix, p.key)
    ensures MergedTo(all, prefix, out + [p], AllAfter(now, p.key))
  {
    hide Rank, Holds, HasPrefix, After, AllIncreasing;
    var out' := out + [p];
    FromRest(all, out, now, p);
    if out != [] { AllAfterTwice(all, out[|out| - 1].key, p.key); }
    IncreasingSnoc(out, p);
    forall q | Holds(all, q) && HasPrefix(q.key, prefix) && !Holds(AllAfter(now, p.key), q)
      ensures HasKey(out', q.key) || Deletable(all, q.key)
    {
      if Holds(now, q) {
        assert AllIncreasing(now) by { if out != [] { HeldRest(all, out[|out| - 1].key, q); } }
        HeldRest(now, p.key, q);
        RankInjective(q.key, p.key);
        if q.key == p.key {
          assert out'[|out|].key == q.key;
        } else {
          assert Deletable(now, q.key);
          FromRest(all, out, now, Pair(q.key, TOMBSTONE));
        }
      } else if HasKey(out, q.key) {
        var i :| 0 <= i < |out| && out[i].key == q.key;
        assert out'[i].key == q.key;
      }
    }
  }

  lemma IncreasingSnoc(out: seq<Pair>, p: Pair)
    requires Increasing(out) && (out != [] ==> Rank(p.key) > Rank(out[|out| - 1].key))
    ensures Increasing(out + [p])
  {
    hide Rank;
    forall i, j | 0 <= i < j < |out + [p]| ensures Rank((out + [p])[i].key) < Rank((out + [p])[j].key) {
      if j == |out| && i < |out| - 1 { assert Rank(out[i].key) < Rank(out[|out| - 1].key); }
    }
  }

  lemma MergedEnd(all: seq<seq<Pair>>, prefix: Key, out: seq<Pair>, now: seq<seq<Pair>>)
    requires MergedTo(all, prefix, out, now) && SkippedAll(now, prefix)
    ensures Merged(all, prefix, out)
  {
    hide Rank, Holds, HasPrefix, After, AllIncreasing;
    forall p | Holds(all, p) && HasPrefix(p.key, prefix) ensures HasKey(out, p.key) || Deletable(all, p.key) {
      if Holds(now, p) { FromRest(all, out, now, Pair(p.key, TOMBSTONE)); }
    }
  }

  // A key for which all sources agree on one value appears with it, unless it is deleted.
  lemma AgreedKey(all: seq<seq<Pair>>, prefix: Key, out: seq<Pair>, p: Pair)
    requires Merged(all, prefix, out) && Holds(all, p) && HasPrefix(p.key, prefix)
    requires forall q :: Holds(all, q) && q.key == p.key ==> q == p
    ensures HasKey(out, p.key) <==> p.value != TOMBSTONE
    ensures p in out <==> p.value != TOMBSTONE
  {
    hide Rank, Holds, HasPrefix;
    if HasKey(out, p.key) {
      var i :| 0 <= i < |out| && out[i].key == p.key;
      assert out[i] == p;
    } else {
      assert Deletable(all, p.key);
    }
  }
}
