// The table writer (internal/ENG/LS/sst_writer.go): pairs are appended to the current
// block, full blocks are sealed, and Finish lays out the file.
module SstWriter {
  import opened Bytes
  import opened Codec
  import opened SstFormat

  // A pair opens a block if it is the first or does not fit into the current one.
  predicate NeedsBlock(blocks: seq<Key>, p: Pair) {
    blocks == [] || |blocks[|blocks| - 1]| + |PairBytes(p, [])| > BLOCK_SIZE
  }

  // The pairs of a new block, or the pairs of the last block with one more.
  function Appended(groups: seq<seq<Pair>>, p: Pair, isNew: bool): seq<seq<Pair>>
    requires !isNew ==> groups != []
  {
    if isNew then groups + [[p]] else groups[|groups| - 1 := groups[|groups| - 1] + [p]]
  }

  lemma {:induction false} FlattenCat(a: seq<seq<Pair>>, b: seq<seq<Pair>>)
    ensures Flatten(a + b) == Flatten(a) + Flatten(b)
  {
    if a == [] {
      assert a + b == b;
    } else {
      assert (a + b)[1..] == a[1..] + b;
      FlattenCat(a[1..], b);
    }
  }

  lemma FlattenAppended(groups: seq<seq<Pair>>, p: Pair, isNew: bool)
    requires !isNew ==> groups != []
    ensures Flatten(Appended(groups, p, isNew)) == Flatten(groups) + [p]
  {
    var one: seq<seq<Pair>> := [[p]];
    assert one[1..] == [] && Flatten(one) == [p];
    if isNew {
      FlattenCat(groups, one);
    } else {
      var n := |groups| - 1;
      var last, more := [groups[n]], [groups[n] + [p]];
      FlattenCat(groups[..n], last);
      FlattenCat(groups[..n], more);
      assert last[1..] == [] && more[1..] == [];
      assert groups == groups[..n] + last && Appended(groups, p, false) == groups[..n] + more;
    }
  }

  lemma {:induction false} PairsSnoc(ps: seq<Pair>, p: Pair, k: Key)
    ensures PairsBytes(ps + [p], k) == PairsBytes(ps, PairBytes(p, k))
  {
    if ps == [] {
      assert ([] + [p])[1..] == [] && [] + [p] == [p];
    } else {
      assert (ps + [p])[1..] == ps[1..] + [p];
      PairsSnoc(ps[1..], p, k);
    }
  }

  lemma PairCat(p: Pair, k: Key, l: Key)
    ensures PairBytes(p, k + l) == PairBytes(p, k) + l
  {
    BlobCat(p.value, k, l);
    BlobCat(p.key, Blob(p.value, k), l);
  }

  lemma {:induction false} PairsCat(ps: seq<Pair>, k: Key, l: Key)
    ensures PairsBytes(ps, k + l) == PairsBytes(ps, k) + l
  {
    if ps != [] {
      PairsCat(ps[1..], k, l);
      PairCat(ps[0], PairsBytes(ps[1..], k), l);
    }
  }

  lemma AppendsPair(ps: seq<Pair>, p: Pair)
    ensures PairsBytes(ps + [p], []) == PairsBytes(ps, []) + PairBytes(p, [])
    ensures |PairBytes(p, [])| >= 2
  {
    PairsSnoc(ps, p, []);
    assert [] + PairBytes(p, []) == PairBytes(p, []);
    PairsCat(ps, [], PairBytes(p, []));
    BlobNotEmpty(p.value, []);
    BlobNotEmpty(p.key, Blob(p.value, []));
  }

  // All blocks but the last are sealed and in the index; a block is longer than the
  // block size only if it holds one pair.
  ghost predicate LaidOut(lib: Lib, groups: seq<seq<Pair>>, blocks: seq<Key>, entries: seq<IndexEntry>)
    requires NoneEmpty(groups) && |blocks| == |groups|
  {
    && (forall i :: 0 <= i < |groups| - 1 ==> blocks[i] == Seal(lib, PairsBytes(groups[i], [])))
    && (groups != [] ==> blocks[|groups| - 1] == PairsBytes(groups[|groups| - 1], []))
    && |entries| == (if groups == [] then 0 else |groups| - 1)
    && (forall i :: 0 <= i < |entries| ==> entries[i].largestKey == LastKey(groups[i]))
    && (forall i :: 0 <= i < |groups| ==> |groups[i]| == 1 || |PairsBytes(groups[i], [])| <= BLOCK_SIZE)
  }

  lemma LaidLast(lib: Lib, groups: seq<seq<Pair>>, blocks: seq<Key>, entries: seq<IndexEntry>)
    requires NoneEmpty(groups) && |blocks| == |groups| && LaidOut(lib, groups, blocks, entries)
    ensures if groups == [] then entries == [] else blocks[|blocks| - 1] != []
  {
    if groups != [] { LastNotEmpty(groups, blocks); }
  }

  lemma LaidFirst(lib: Lib, p: Pair)
    ensures LaidOut(lib, [[p]], [PairBytes(p, [])], [])
  {
    hide PairBytes, PairsBytes, Seal;
    AppendsPair([], p);
    NoPairs();
    assert [] + [p] == [p] && [] + PairBytes(p, []) == PairBytes(p, []);
  }

  lemma AppendedFits(groups: seq<seq<Pair>>, p: Pair, isNew: bool)
    requires GroupsFit(groups) && PairFits(p) && (!isNew ==> groups != [])
    ensures var groups' := Appended(groups, p, isNew);
            NoneEmpty(groups') && GroupsFit(groups') && LastKey(groups'[|groups'| - 1]) == p.key
  {
  }

  // The last block is sealed and a new one begins with p.
  lemma LaidNext(lib: Lib, groups: seq<seq<Pair>>, blocks: seq<Key>, entries: seq<IndexEntry>, p: Pair,
                 last: IndexEntry)
    requires NoneEmpty(groups) && |blocks| == |groups| > 0 && LaidOut(lib, groups, blocks, entries)
    requires last.largestKey == LastKey(groups[|groups| - 1])
    ensures NoneEmpty(groups + [[p]])
    ensures var n := |blocks| - 1;
            LaidOut(lib, groups + [[p]], blocks[n := Seal(lib, blocks[n])] + [PairBytes(p, [])], entries + [last])
  {
    hide PairBytes, PairsBytes, Seal;
    AppendsPair([], p);
    NoPairs();
    assert [] + [p] == [p] && [] + PairBytes(p, []) == PairBytes(p, []);
  }

  // p goes on in the last block.
  lemma LaidMore(lib: Lib, groups: seq<seq<Pair>>, blocks: seq<Key>, entries: seq<IndexEntry>, p: Pair)
    requires NoneEmpty(groups) && |blocks| == |groups| > 0 && LaidOut(lib, groups, blocks, entries)
    requires |blocks[|blocks| - 1]| + |PairBytes(p, [])| <= BLOCK_SIZE
    ensures NoneEmpty(Appended(groups, p, false))
    ensures var n := |blocks| - 1;
            LaidOut(lib, Appended(groups, p, false), blocks[n := blocks[n] + PairBytes(p, [])], entries)
  {
    hide PairBytes, PairsBytes, Seal;
    AppendsPair(groups[|groups| - 1], p);
  }

  class Writer {
    var blocks: seq<Key>
    var indexEntries: seq<IndexEntry>
    var keys: seq<Key>
    var keyCount: nat
    var lastKey: Key
    var currentBlockOffset: nat
    ghost var groups: seq<seq<Pair>>
    const lib: Lib

    ghost predicate Valid()
      reads this
    {
      && |blocks| == |groups| && NoneEmpty(groups) && GroupsFit(groups)
      && keyCount == |keys| && keys == KeysOf(Flatten(groups))
      && (groups != [] ==> lastKey == LastKey(groups[|groups| - 1]))
      && LaidOut(lib, groups, blocks, indexEntries)
    }

    ghost function Added(): seq<Pair>
      reads this
    {
      Flatten(groups)
    }

    constructor (lib: Lib)
      ensures Valid() && Added() == [] && this.lib == lib
    {
      this.lib := lib;
      blocks, indexEntries, keys, keyCount, lastKey, currentBlockOffset := [], [], [], 0, [], 0;
      groups := [];
    }

    method FinishCurrentBlock()
      requires |blocks| > 0 && blocks[|blocks| - 1] != []
      modifies this`blocks, this`indexEntries, this`currentBlockOffset
      ensures var n := |old(blocks)| - 1;
              && blocks == old(blocks)[n := Seal(lib, old(blocks)[n])]
              && |indexEntries| == |old(indexEntries)| + 1 && indexEntries[..|old(indexEntries)|] == old(indexEntries)
              && indexEntries[|old(indexEntries)|].largestKey == lastKey
    {
      var n := |blocks| - 1;
      var block := blocks[n];
      var checksum := lib.crc(block);
      block := block + [0, 0, 0, 0] + LittleEndian(checksum, 4, []);
      blocks := blocks[n := block];
      indexEntries := indexEntries + [IndexEntry(lastKey, ToInt64(currentBlockOffset), ToInt64(|block|))];
      currentBlockOffset := currentBlockOffset + |block|;
    }

    method Add(key: Key, value: Key)
      requires Valid() && PairFits(Pair(key, value))
      modifies this
      ensures Valid()
      ensures Added() == old(Added()) + [Pair(key, value)]
      ensures groups == Appended(old(groups), Pair(key, value), NeedsBlock(old(blocks), Pair(key, value)))
    {
      hide PairBytes, PairsBytes, Seal, Flatten, LaidOut, GroupsFit, LastKey;
      ghost var p, before := Pair(key, value), groups;
      var buf := EncodePair(key, value);
      ghost var isNew := NeedsBlock(blocks, p);
      LaidLast(lib, before, blocks, indexEntries);
      AppendedFits(before, p, isNew);
      FlattenAppended(before, p, isNew);
      if |blocks| == 0 {
        blocks := blocks + [[]];
      }
      if |blocks[|blocks| - 1]| == 0 {
        LaidFirst(lib, p);
        blocks := blocks[|blocks| - 1 := buf];
        assert blocks == [buf] && [] + [[p]] == [[p]];
      } else {
        if |blocks[|blocks| - 1]| + |buf| > BLOCK_SIZE {
          label full:
          FinishCurrentBlock();
          var last := indexEntries[|indexEntries| - 1];
          assert indexEntries == old@full(indexEntries) + [last];
          LaidNext(lib, before, old@full(blocks), old@full(indexEntries), p, last);
          blocks := blocks + [[]];
        } else {
          LaidMore(lib, before, blocks, indexEntries, p);
        }
        assert [] + buf == buf;
        blocks := blocks[|blocks| - 1 := blocks[|blocks| - 1] + buf];
        assert isNew ==> blocks == blocks[..|before|] + [buf];
      }
      groups := Appended(before, p, isNew);
      keyCount := keyCount + 1;
      keys := keys + [key];
      lastKey := key;
      assert KeysOf(Flatten(before) + [p]) == KeysOf(Flatten(before)) + [key];
    }

    // Both filters over the collected keys.
    method Filters() returns (bloom: Key, prefixBloom: Key)
      ensures bloom == BloomOf(lib, keys) && prefixBloom == PrefixBloomOf(lib, keys)
    {
      hide Mark;
      bloom, prefixBloom := Zeros(BloomSize(|keys|)), Zeros(BloomSize(|keys|));
      ghost var zeros := Zeros(BloomSize(|keys|));
      var size := |bloom|;
      for i := 0 to |keys|
        invariant bloom == KeyFilter(lib, zeros, keys[..i])
      {
        assert keys[..i + 1][..i] == keys[..i];
        bloom := Mark(bloom, lib.h1(keys[i]), lib.h2(keys[i]), 8 * size);
      }
      for i := 0 to |keys|
        invariant prefixBloom == PrefixFilter(lib, zeros, keys[..i])
      {
        assert keys[..i + 1][..i] == keys[..i];
        var prefix := keys[i];
        if |prefix| > 8 {
          prefix := prefix[..8];
        }
        prefixBloom := Mark(prefixBloom, lib.h1(prefix), lib.h2(prefix), size);
      }
      assert keys[..|keys|] == keys;
    }

    // The index entries get the offsets and sizes of the compressed blocks.
    method UpdateIndex(offsets: seq<nat>, length: nat)
      requires NoneEmpty(groups) && |indexEntries| == |offsets| == |groups| && length == |Chunks(lib, groups)|
      requires forall i :: 0 <= i < |groups| ==> offsets[i] == |Chunks(lib, groups[..i])|
      requires forall i :: 0 <= i < |groups| ==> indexEntries[i].largestKey == LastKey(groups[i])
      modifies this`indexEntries
      ensures indexEntries == Entries(lib, groups, 0)
    {
      hide Chunks, Entries;
      EntriesLength(lib, groups, 0);
      for i := 0 to |indexEntries|
        invariant |indexEntries| == |groups| && indexEntries[..i] == Entries(lib, groups, 0)[..i]
        invariant forall j :: i <= j < |groups| ==> indexEntries[j].largestKey == LastKey(groups[j])
      {
        var end := if i + 1 < |offsets| then offsets[i + 1] else length;
        EntryAt(lib, groups, 0, i);
        assert groups[..|groups|] == groups;
        var entry := IndexEntry(indexEntries[i].largestKey, ToInt64(offsets[i]), ToInt64(end - offsets[i]));
        indexEntries := indexEntries[i := entry];
      }
    }

    // Compressed blocks, index, the two filters and the footer; nil if nothing was added.
    method Finish() returns (data: Option<Key>)
      requires Valid()
      modifies this`blocks, this`indexEntries, this`currentBlockOffset
      ensures data == if groups == [] then None else Some(FileOf(lib, groups))
    {
      hide Seal, PairsBytes, Flatten, BloomOf, PrefixBloomOf, Compress, Footer;
      if |blocks| == 0 {
        return None;
      }
      if blocks[|blocks| - 1] == [] { LastNotEmpty(groups, blocks); }
      FinishCurrentBlock();
      assert forall i :: 0 <= i < |groups| ==> blocks[i] == Seal(lib, PairsBytes(groups[i], []));
      var bloom, prefixBloom := Filters();
      var buf, offsets := WriteBlocks(lib, blocks, groups);
      var indexOffset := |buf|;
      UpdateIndex(offsets, |buf|);
      EntryKeysFit(lib, groups);
      var index := WriteIndex(indexEntries);
      buf := buf + index + bloom + prefixBloom
          + Footer(indexOffset, |index|, indexOffset + |index|, BloomSize(keyCount));
      return Some(buf);
    }
  }

  lemma {:induction false} ChunksSnoc(lib: Lib, groups: seq<seq<Pair>>, g: seq<Pair>)
    ensures Chunks(lib, groups + [g]) == Chunks(lib, groups) + Chunk(lib, g)
  {
    hide Chunk;
    if groups == [] {
      assert ([] + [g])[1..] == [] && [] + [g] == [g];
    } else {
      assert (groups + [g])[1..] == groups[1..] + [g];
      ChunksSnoc(lib, groups[1..], g);
    }
  }

  // The i-th index entry, from the lengths of what was written before and after it.
  lemma {:induction false} EntryAt(lib: Lib, groups: seq<seq<Pair>>, off: nat, i: nat)
    requires NoneEmpty(groups) && i < |groups|
    ensures |Entries(lib, groups, off)| == |groups|
    ensures |Chunks(lib, groups[..i])| <= |Chunks(lib, groups[..i + 1])|
    ensures var start, end := |Chunks(lib, groups[..i])|, |Chunks(lib, groups[..i + 1])|;
            Entries(lib, groups, off)[i] == IndexEntry(LastKey(groups[i]), ToInt64(off + start), ToInt64(end - start))
  {
    hide Chunk;
    EntriesLength(lib, groups, off);
    assert groups[..i + 1] == groups[..i] + [groups[i]];
    ChunksSnoc(lib, groups[..i], groups[i]);
    if i == 0 {
      assert groups[..0] == [];
    } else {
      assert groups[..i][1..] == groups[1..][..i - 1];
      EntryAt(lib, groups[1..], off + |Chunk(lib, groups[0])|, i - 1);
      assert groups[1..][..i] == groups[1..][..i - 1] + [groups[i]];
      ChunksSnoc(lib, groups[1..][..i - 1], groups[i]);
    }
  }

  method WriteBlocks(lib: Lib, blocks: seq<Key>, ghost groups: seq<seq<Pair>>) returns (buf: Key, offsets: seq<nat>)
    requires |blocks| == |groups|
    requires forall i :: 0 <= i < |groups| ==> blocks[i] == Seal(lib, PairsBytes(groups[i], []))
    ensures buf == Chunks(lib, groups)
    ensures |offsets| == |groups| && forall i :: 0 <= i < |groups| ==> offsets[i] == |Chunks(lib, groups[..i])|
  {
    hide Seal, Compress, PairsBytes;
    buf, offsets := [], [];
    for i := 0 to |blocks|
      invariant buf == Chunks(lib, groups[..i])
      invariant |offsets| == i && forall j :: 0 <= j < i ==> offsets[j] == |Chunks(lib, groups[..j])|
    {
      offsets := offsets + [|buf|];
      assert groups[..i + 1] == groups[..i] + [groups[i]];
      ChunksSnoc(lib, groups[..i], groups[i]);
      buf := buf + Compress(lib, blocks[i]);
    }
    assert groups[..|groups|] == groups;
  }

  method WriteEntry(buf: Key, e: IndexEntry, ghost k: Key) returns (out: Key)
    requires |e.largestKey| < LIMIT
    ensures out + k == buf + EntryBytes(e, k)
  {
    hide LittleEndian, Blob;
    ghost var k1 := LittleEndian(ToUint64(e.blockSize), 8, k);
    out := WriteKey(buf, e.largestKey, LittleEndian(ToUint64(e.blockOffset), 8, k1));
    ghost var before := out;
    LittleCat(ToUint64(e.blockOffset), 8, k1);
    LittleCat(ToUint64(e.blockSize), 8, k);
    out := out + LittleEndian(ToUint64(e.blockOffset), 8, []) + LittleEndian(ToUint64(e.blockSize), 8, []);
    assert out + k == before + (LittleEndian(ToUint64(e.blockOffset), 8, []) + k1);
  }

  method WriteIndex(es: seq<IndexEntry>) returns (buf: Key)
    requires forall i :: 0 <= i < |es| ==> |es[i].largestKey| < LIMIT
    ensures buf == IndexBytes(es, [])
  {
    hide EntryBytes;
    buf := [];
    assert es[0..] == es && [] + IndexBytes(es, []) == IndexBytes(es, []);
    for i := 0 to |es|
      invariant buf + IndexBytes(es[i..], []) == IndexBytes(es, [])
    {
      assert es[i..][1..] == es[i + 1..];
      buf := WriteEntry(buf, es[i], IndexBytes(es[i + 1..], []));
    }
    assert es[|es|..] == [] && buf + [] == buf;
  }

  lemma NoPairs()
    ensures PairsBytes([], []) == []
  {
  }

  method EncodePair(key: Key, value: Key) returns (buf: Key)
    requires PairFits(Pair(key, value))
    ensures buf == PairBytes(Pair(key, value), [])
  {
    buf := WriteKey([], key, Blob(value, []));
    buf := WriteKey(buf, value, []);
    assert buf + [] == buf && [] + PairBytes(Pair(key, value), []) == PairBytes(Pair(key, value), []);
  }

  lemma LastNotEmpty(groups: seq<seq<Pair>>, blocks: seq<Key>)
    requires NoneEmpty(groups) && |blocks| >= 1
    requires groups != [] ==> |blocks| == |groups| && blocks[|groups| - 1] == PairsBytes(groups[|groups| - 1], [])
    ensures blocks[|blocks| - 1] == [] ==> groups == []
  {
    if groups != [] {
      var g := groups[|groups| - 1];
      BlobNotEmpty(g[0].key, Blob(g[0].value, PairsBytes(g[1..], [])));
    }
  }
}
