// The buffer pool (internal/MEM/BF/bf.go): pages cached in borrowed buffers, with
// eviction by a clock and recycled buffers.  Calls are sequential, so no slot is ever
// seen while it loads.
module BufferPool {
  import opened Bytes
  import opened Codec

  const CLOCK_INTERVAL := 8
  const MAX_REF: uint64 := 0xFFFF_FFFF_FFFF_FFFF

  datatype Slot = Slot(data: array<byte>, pinCount: int, refKey: uint64)

  // Unsigned arithmetic of the clock hand.
  function Tick(hand: uint64): uint64 {
    (hand + 1) % 0x1_0000_0000_0000_0000
  }

  function Behind(hand: uint64): uint64 {
    (hand - CLOCK_INTERVAL) % 0x1_0000_0000_0000_0000
  }

  // The hand goes up by one and wraps around at 64 bits; it looks eight ticks back.
  lemma ClockMeans(hand: uint64)
    ensures Tick(hand) == if hand == MAX_REF then 0 else hand + 1
    ensures Behind(hand) == if hand < 8 then MAX_REF - 7 + hand else hand - 8
  {
  }

  // The slots of the first pass: unpinned, and older than the clock interval.
  predicate Old(slot: Slot, hand: uint64) {
    slot.pinCount == 0 && slot.refKey < Behind(hand)
  }

  // The slot of the second pass: the least recently used of the unpinned ones.
  predicate Least(slots: map<uint64, Slot>, id: uint64) {
    && id in slots && slots[id].pinCount == 0
    && forall other :: other in slots && slots[other].pinCount == 0 ==> slots[id].refKey <= slots[other].refKey
  }

  predicate OldIn(slots: map<uint64, Slot>, hand: uint64, id: uint64) {
    id in slots && Old(slots[id], hand)
  }

  // The slots that may be evicted when the hand stands there: any one of the first pass,
  // as the map is visited in no order, and else that of the second.
  ghost predicate Candidate(slots: map<uint64, Slot>, hand: uint64, id: uint64) {
    if exists other :: OldIn(slots, hand, other) then OldIn(slots, hand, id)
    else Least(slots, id) && slots[id].refKey < MAX_REF
  }

  // Eviction is least-recently-used exactly when no two slots of different age are old.
  lemma LruExact(slots: map<uint64, Slot>, hand: uint64)
    ensures (forall id :: Candidate(slots, hand, id) ==> Least(slots, id)) <==>
            forall a, b :: OldIn(slots, hand, a) && OldIn(slots, hand, b) ==> slots[a].refKey == slots[b].refKey
  {
    if forall id :: Candidate(slots, hand, id) ==> Least(slots, id) {
      forall a, b | OldIn(slots, hand, a) && OldIn(slots, hand, b) ensures slots[a].refKey == slots[b].refKey {
        assert Candidate(slots, hand, a) && Candidate(slots, hand, b);
      }
    }
    if forall a, b :: OldIn(slots, hand, a) && OldIn(slots, hand, b) ==> slots[a].refKey == slots[b].refKey {
      forall id | Candidate(slots, hand, id) ensures Least(slots, id) {
        forall other | other in slots && slots[other].pinCount == 0 && OldIn(slots, hand, id)
          ensures slots[id].refKey <= slots[other].refKey
        {
          if slots[other].refKey < slots[id].refKey { assert OldIn(slots, hand, other); }
        }
      }
    }
  }

  lemma OneMore(slots: map<uint64, Slot>, id: uint64, slot: Slot)
    requires id !in slots
    ensures |slots[id := slot]| == |slots| + 1
  {
    assert slots[id := slot].Keys == slots.Keys + {id};
    assert |slots.Keys| == |slots| && |slots[id := slot].Keys| == |slots[id := slot]|;
  }

  class Pool {
    var slots: map<uint64, Slot>
    var free: set<array<byte>>   // buffers in the sync pool
    var used: int
    var hand: uint64
    var hits: nat
    var misses: nat
    var evicts: nat
    const capacity: nat
    const blockSize: nat

    // Every slot has a buffer of its own, and none of them is in the pool.
    ghost predicate Valid()
      reads this
    {
      && used == |slots| && 0 !in slots
      && (forall id :: id in slots ==> slots[id].data.Length == blockSize && slots[id].data !in free)
      && (forall a, b :: a in slots && b in slots && slots[a].data == slots[b].data ==> a == b)
      && (forall buf :: buf in free ==> buf.Length == blockSize)
    }

    constructor (capacity: nat, blockSize: nat)
      ensures Valid() && slots == map[] && free == {} && hand == 0
      ensures this.capacity == (if capacity == 0 then 256 else capacity) && this.blockSize == blockSize
    {
      this.capacity := if capacity == 0 then 256 else capacity;
      this.blockSize := blockSize;
      slots, free, used, hand, hits, misses, evicts := map[], {}, 0, 0, 0, 0, 0;
    }

    // Whether a slot can be found for eviction.  A slot last used at the last value of
    // the hand is never found by the second pass.
    ghost predicate AllHeld()
      reads this
    {
      forall id :: id in slots ==> slots[id].pinCount != 0 || slots[id].refKey == MAX_REF
    }

    // The first pass, in the order in which the map happens to be visited.
    method FindOld() returns (id: Option<uint64>)
      ensures id.Some? ==> id.value in slots && Old(slots[id.value], hand)
      ensures id.None? ==> forall other :: other in slots ==> !Old(slots[other], hand)
    {
      var rest := slots.Keys;
      while rest != {}
        invariant rest <= slots.Keys && forall other :: other in slots && other !in rest ==> !Old(slots[other], hand)
        decreases rest
      {
        var other :| other in rest;
        if slots[other].refKey < Behind(hand) {
          if slots[other].pinCount == 0 {
            return Some(other);
          }
        }
        rest := rest - {other};
      }
      return None;
    }

    // The second pass.
    method FindLeast() returns (id: Option<uint64>)
      ensures id.Some? ==> Least(slots, id.value) && slots[id.value].refKey < MAX_REF
      ensures id.None? ==> AllHeld()
    {
      var found, victimId: uint64, victimRefKey: uint64 := false, 0, MAX_REF;
      var rest := slots.Keys;
      while rest != {}
        invariant rest <= slots.Keys
        invariant found ==> victimId in slots && slots[victimId].pinCount == 0
        invariant found ==> slots[victimId].refKey == victimRefKey < MAX_REF
        invariant !found ==> victimRefKey == MAX_REF
        invariant forall other :: other in slots && other !in rest && slots[other].pinCount == 0 ==>
                    victimRefKey <= slots[other].refKey
        decreases rest
      {
        var other :| other in rest;
        if slots[other].pinCount == 0 {
          var rk := slots[other].refKey;
          if rk < victimRefKey {
            found, victimId, victimRefKey := true, other, rk;
          }
        }
        rest := rest - {other};
      }
      return if found then Some(victimId) else None;
    }

    // Finds a victim and recycles its buffer, if there is one.
    method Evict() returns (victim: Option<uint64>)
      requires Valid()
      modifies this`slots, this`free, this`used, this`hand, this`evicts
      ensures Valid() && hand == Tick(old(hand))
      ensures victim.None? <==> old(AllHeld())
      ensures victim.None? ==> slots == old(slots) && free == old(free)
      ensures victim.Some? ==>
                && victim.value in old(slots) && old(slots)[victim.value].pinCount == 0
                && Candidate(old(slots), hand, victim.value)
                && slots == old(slots) - {victim.value} && free == old(free) + {old(slots)[victim.value].data}
    {
      hand := Tick(hand);
      victim := FindOld();
      if victim.None? {
        assert forall other :: !OldIn(slots, hand, other);
        victim := FindLeast();
      } else {
        assert OldIn(slots, hand, victim.value);
      }
      if victim.Some? {
        Drop(victim.value);
      }
    }

    method Drop(id: uint64)
      requires Valid() && id in slots
      modifies this`slots, this`free, this`used, this`evicts
      ensures Valid()
      ensures slots == old(slots) - {id} && free == old(free) + {old(slots)[id].data}
    {
      var slot := slots[id];
      assert used == |slots.Keys|;
      assert (slots - {id}).Keys == slots.Keys - {id};
      slots := slots - {id};
      used := used - 1;
      evicts := evicts + 1;
      free := free + {slot.data};
    }

    // A buffer from the pool, or a new one.
    method Borrow(reuse: bool) returns (buf: array<byte>)
      requires Valid()
      modifies this`free
      ensures Valid() && buf.Length == blockSize && buf !in free
      ensures forall id :: id in slots ==> slots[id].data != buf
      ensures (buf in old(free) && free == old(free) - {buf}) || (fresh(buf) && free == old(free))
    {
      if reuse && free != {} {
        buf :| buf in free;
        free := free - {buf};
        return;
      }
      buf := new byte[blockSize](_ => 0);
    }

    // Room for one more slot: at capacity one slot is evicted, unless all are held.
    method MakeRoom()
      requires Valid()
      modifies this`slots, this`free, this`used, this`hand, this`evicts
      ensures Valid()
      ensures forall id :: id in slots ==> id in old(slots) && slots[id] == old(slots)[id]
      ensures forall id :: id in old(slots) && id !in slots ==> old(slots)[id].pinCount == 0
      ensures free <= old(free) + set id | id in old(slots) :: old(slots)[id].data
      ensures |slots| < capacity || (if old(AllHeld()) then slots == old(slots) else |slots| == |old(slots)| - 1)
      ensures |old(slots)| < capacity ==> slots == old(slots) && hand == old(hand) && free == old(free)
    {
      if used >= capacity {
        var victim := Evict();
        if victim.Some? {
          assert (old(slots) - {victim.value}).Keys == old(slots).Keys - {victim.value};
          assert old(slots)[victim.value].pinCount == 0;
        }
      }
    }

    // A new slot, used last.
    method Insert(id: uint64, data: array<byte>)
      requires Valid() && id != 0 && id !in slots && data.Length == blockSize && data !in free
      requires forall b :: b in slots ==> slots[b].data != data
      modifies this`slots, this`used, this`hand
      ensures Valid() && slots == old(slots)[id := Slot(data, 0, hand)] && hand == Tick(old(hand))
    {
      hand := Tick(hand);
      assert slots[id := Slot(data, 0, hand)].Keys == slots.Keys + {id};
      assert used == |slots.Keys|;
      slots := slots[id := Slot(data, 0, hand)];
      used := used + 1;
    }

    // The block is read into a borrowed buffer; the other pages keep theirs.
    method Fetch(id: uint64, disk: map<uint64, Key>, reuse: bool) returns (data: Option<array<byte>>)
      requires Valid() && id != 0 && id !in slots && forall b :: b in disk ==> |disk[b]| == blockSize
      modifies this, free
      ensures Valid() && (data.Some? <==> id in disk)
      ensures data.Some? ==>
                slots == old(slots)[id := Slot(data.value, 0, hand)] && data.value[..] == disk[id]
                  && hand == Tick(old(hand))
      ensures data.None? ==> slots == old(slots)
      ensures forall b :: b in old(slots) ==> old(slots)[b].data[..] == old(slots[b].data[..])
    {
      var buf := Borrow(reuse);
      if id !in disk {
        free := free + {buf};
        return None;
      }
      Load(buf, disk[id]);
      Insert(id, buf);
      misses := misses + 1;
      return Some(buf);
    }

    // Room for the page, and the page.
    method Miss(id: uint64, disk: map<uint64, Key>, reuse: bool) returns (page: Option<array<byte>>)
      requires Valid() && id != 0 && id !in slots && forall b :: b in disk ==> |disk[b]| == blockSize
      modifies this, free, set s | s in slots :: slots[s].data
      ensures Valid() && (page.Some? <==> id in disk)
      ensures page.Some? ==> id in slots && slots[id] == Slot(page.value, 0, hand) && page.value[..] == disk[id]
      ensures forall b :: b in old(slots) && old(slots)[b].pinCount != 0 ==> b in slots
      ensures forall b :: b in slots && b != id ==> b in old(slots) && slots[b] == old(slots)[b]
      ensures forall b :: b in slots && b != id ==> slots[b].data[..] == old(slots[b].data[..])
      ensures |slots| > capacity && |slots| > |old(slots)| ==> old(AllHeld())
      ensures page.Some? && |old(slots)| < capacity ==>
                slots == old(slots)[id := Slot(page.value, 0, hand)] && hand == Tick(old(hand))
    {
      MakeRoom();
      label room:
      ghost var kept := slots;
      page := Fetch(id, disk, reuse);
      if page.Some? { OneMore(kept, id, slots[id]); }
      forall b | b in slots && b != id
        ensures b in old(slots) && slots[b] == old(slots)[b] && slots[b].data[..] == old(slots[b].data[..])
      {
        assert b in kept && slots[b] == kept[b] && slots[b].data[..] == old@room(slots[b].data[..]);
      }
    }

    method Touch(id: uint64)
      requires Valid() && id in slots
      modifies this`slots, this`hand, this`hits
      ensures Valid() && hand == Tick(old(hand)) && slots == old(slots)[id := old(slots)[id].(refKey := hand)]
    {
      hand := Tick(hand);
      slots := slots[id := slots[id].(refKey := hand)];
      assert slots.Keys == old(slots).Keys;
      hits := hits + 1;
    }

    // The page in the cache, or else read into a borrowed buffer; disk holds the blocks
    // that the device can read.
    method Get(id: uint64, disk: map<uint64, Key>, reuse: bool) returns (page: Option<array<byte>>, cached: bool)
      requires Valid() && forall b :: b in disk ==> |disk[b]| == blockSize
      modifies this, free, set s | s in slots :: slots[s].data
      ensures Valid()
      ensures id == 0 ==> page.None? && slots == old(slots) && free == old(free)
      ensures id != 0 && id in old(slots) ==>
                && cached && page == Some(old(slots)[id].data)
                && slots == old(slots)[id := old(slots)[id].(refKey := hand)]
                && free == old(free) && page.value[..] == old(slots[id].data[..])
      ensures id != 0 && id !in old(slots) ==> !cached && (page.Some? <==> id in disk)
      ensures page.Some? && !cached ==>
                id in slots && slots[id].data == page.value && slots[id].pinCount == 0 && page.value[..] == disk[id]
      ensures page.Some? && !cached && |old(slots)| < capacity ==>
                slots == old(slots)[id := Slot(page.value, 0, hand)] && hand == Tick(old(hand))
      // No pinned page goes, and pages that stay keep their buffers and contents.
      ensures forall b :: b in old(slots) && old(slots)[b].pinCount != 0 ==> b in slots
      ensures forall b :: b in slots && b != id ==>
                b in old(slots) && slots[b] == old(slots)[b] && slots[b].data[..] == old(slots[b].data[..])
      // The pool grows over its capacity only if every slot was held.
      ensures |slots| > capacity && |slots| > |old(slots)| ==> old(AllHeld())
    {
      if id == 0 {
        return None, false;
      }
      if id in slots {
        Touch(id);
        return Some(slots[id].data), true;
      }
      page := Miss(id, disk, reuse);
      cached := false;
    }

    method Pin(id: uint64)
      requires Valid()
      modifies this`slots
      ensures Valid()
      ensures slots ==
              if id in old(slots) then old(slots)[id := old(slots)[id].(pinCount := old(slots)[id].pinCount + 1)]
              else old(slots)
    {
      if id in slots {
        slots := slots[id := slots[id].(pinCount := slots[id].pinCount + 1)];
        assert slots.Keys == old(slots).Keys;
      }
    }

    method Unpin(id: uint64)
      requires Valid()
      modifies this`slots
      ensures Valid()
      ensures slots ==
              if id in old(slots) then old(slots)[id := old(slots)[id].(pinCount := old(slots)[id].pinCount - 1)]
              else old(slots)
    {
      if id in slots {
        slots := slots[id := slots[id].(pinCount := slots[id].pinCount - 1)];
        assert slots.Keys == old(slots).Keys;
      }
    }

    // Room for the page, and the page in the caller's buffer.
    method Add(id: uint64, data: array<byte>)
      requires Valid() && id != 0 && id !in slots && data.Length == blockSize
      requires data !in free && forall b :: b in slots ==> slots[b].data != data
      modifies this`slots, this`free, this`used, this`hand, this`evicts
      ensures Valid() && id in slots && slots[id] == Slot(data, 0, hand)
      ensures forall b :: b in old(slots) && old(slots)[b].pinCount != 0 ==> b in slots
      ensures forall b :: b in slots && b != id ==> b in old(slots) && slots[b] == old(slots)[b]
      ensures |slots| > capacity && |slots| > |old(slots)| ==> old(AllHeld())
      ensures |old(slots)| < capacity ==>
                slots == old(slots)[id := Slot(data, 0, hand)] && hand == Tick(old(hand)) && free == old(free)
    {
      MakeRoom();
      label room:
      assert data !in free by { assert data !in old(free); }
      Insert(id, data);
      OneMore(old@room(slots), id, slots[id]);
    }

    // Upsert puts a page with the caller's own buffer into the cache, without I/O.
    method Upsert(id: uint64, data: array<byte>) returns (ok: bool)
      requires Valid()
      requires data !in free && forall b :: b in slots && b != id ==> slots[b].data != data
      modifies this
      ensures Valid()
      ensures ok <==> id != 0 && data.Length == blockSize
      ensures !ok ==> slots == old(slots) && free == old(free)
      ensures ok ==> id in slots && slots[id].data == data
      ensures ok && id in old(slots) ==> slots == old(slots)[id := old(slots)[id].(data := data)] && free == old(free)
      ensures ok && id !in old(slots) ==> slots[id].pinCount == 0
      ensures ok && id !in old(slots) && |old(slots)| < capacity ==>
                slots == old(slots)[id := Slot(data, 0, hand)] && hand == Tick(old(hand)) && free == old(free)
      ensures forall b :: b in old(slots) && old(slots)[b].pinCount != 0 ==> b in slots
      ensures forall b :: b in slots && b != id ==> b in old(slots) && slots[b] == old(slots)[b]
      ensures |slots| > capacity && |slots| > |old(slots)| ==> old(AllHeld())
    {
      if id == 0 {
        return false;
      }
      if data.Length != blockSize {
        return false;
      }
      if id in slots {
        slots := slots[id := slots[id].(data := data)];
        assert slots.Keys == old(slots).Keys;
        return true;
      }
      Add(id, data);
      return true;
    }
  }

  // Two pages put into a pool of two: the next eviction may take the later one.
  method LastPageMayGo(blockSize: nat) returns (pool: Pool)
    ensures fresh(pool) && pool.Valid() && pool.used == pool.capacity && pool.slots.Keys == {1, 2}
    ensures pool.slots[1].refKey < pool.slots[2].refKey
    ensures Candidate(pool.slots, Tick(pool.hand), 2) && !Least(pool.slots, 2)
  {
    hide Candidate, Least, OldIn, Old;
    var first, second := new byte[blockSize](_ => 0), new byte[blockSize](_ => 0);
    pool := new Pool(2, blockSize);
    pool.Add(1, first);
    assert pool.slots == map[1 := Slot(first, 0, 1)] && pool.hand == 1 && |pool.slots.Keys| == 1;
    pool.Add(2, second);
    LaterIsOld(first, second);
    assert pool.slots == map[1 := Slot(first, 0, 1), 2 := Slot(second, 0, 2)] && pool.hand == 2;
  }

  lemma LaterIsOld(first: array<byte>, second: array<byte>)
    ensures var slots: map<uint64, Slot> := map[1 := Slot(first, 0, 1), 2 := Slot(second, 0, 2)];
            slots.Keys == {1, 2} && |slots| == 2 && Candidate(slots, Tick(2), 2) && !Least(slots, 2)
  {
    var slots: map<uint64, Slot> := map[1 := Slot(first, 0, 1), 2 := Slot(second, 0, 2)];
    assert slots.Keys == {1, 2};
    assert OldIn(slots, Tick(2), 2);
  }

  // ReadBlockFull fills the buffer.
  method Load(data: array<byte>, payload: Key)
    requires |payload| == data.Length
    modifies data
    ensures data[..] == payload
  {
    for i := 0 to data.Length
      invariant data[..i] == payload[..i]
    {
      data[i] := payload[i];
    }
  }
}
