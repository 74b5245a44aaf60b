/** The production-mode slot table: open addressing with linear probing, no tombstones. */
module SlotTable {
  import opened Counting
  import opened Hash
  import opened Probe

  datatype Slot = Slot(occupied: bool, id: GranuleId, liveCount: nat)

  /** Any capacity that create accepts. */
  type Table = t: seq<Slot> | 0 < |t| < 0x1_0000_0000 witness [Slot(false, ZERO, 0)]

  /** Up to this capacity the 32-bit probe index walks the table (Index32WalksIff). */
  const MAX_CAPACITY: nat := 0x8000_0000

  type SmallTable = t: Table | |t| <= MAX_CAPACITY witness [Slot(false, ZERO, 0)]

  const EMPTY := Slot(false, ZERO, 0)

  function Home(id: GranuleId, n: nat): (h: nat)
    requires n > 0
    ensures h < n
  {
    HashGranuleId(id) % n
  }

  /** Two granules start their probes at the same slot exactly when their hashes differ by a
      multiple of the capacity. */
  lemma SameHomeIff(a: GranuleId, b: GranuleId, n: nat)
    requires n > 0
    ensures Home(a, n) == Home(b, n) <==> exists k: int :: HashGranuleId(a) - HashGranuleId(b) == k * n
  {
    SameRemainderIff(HashGranuleId(a), HashGranuleId(b), n);
  }

  /** Number of probes that lead from the home of `id` to slot `i`. */
  function Depth(id: GranuleId, i: nat, n: nat): (d: nat)
    requires i < n
    ensures d < n
  {
    Dist(Home(id, n), i, n)
  }

  /** In a table of at most 2^31 slots the 32-bit index expression leads along the probe path. */
  lemma ProbesWalk(t: SmallTable, id: GranuleId, p: nat)
    requires p < |t|
    ensures Depth(id, Index32(Home(id, |t|), p, |t|), |t|) == p
  {
    Index32Walks(Home(id, |t|), p, |t|);
  }

  predicate Holds(t: Table, i: nat, id: GranuleId) {
    i < |t| && t[i].occupied && t[i].id == id
  }

  /** The slot of the `p`-th probe for `id`, or of a later one, that is free or already holds
      `id`. Both find_slot and open stop there. Up to 2^31 slots it is the first such slot at
      depth `p` or more on the probe path. */
  function Stop(t: Table, id: GranuleId, p: nat): (r: Option<nat>)
    requires p <= |t|
    ensures r.Some? ==> r.value < |t| && !Passed(t, r.value, id)
    ensures |t| <= MAX_CAPACITY && r.Some? ==> StopsAt(t, id, p, r.value)
    ensures |t| <= MAX_CAPACITY && r.None? ==>
              forall s: nat :: s < |t| && p <= Depth(id, s, |t|) ==> Passed(t, s, id)
    decreases |t| - p
  {
    if p == |t| then None
    else
      var i := Index32(Home(id, |t|), p, |t|);
      assert |t| <= MAX_CAPACITY ==> Depth(id, i, |t|) == p by {
        if |t| <= MAX_CAPACITY {
          ProbesWalk(t, id, p);
        }
      }
      if !t[i].occupied || t[i].id == id then Some(i) else Stop(t, id, p + 1)
  }

  /** A probe for `id` walks over slot `s`. */
  predicate Passed(t: Table, s: nat, id: GranuleId)
    requires s < |t|
  {
    t[s].occupied && t[s].id != id
  }

  ghost predicate StopsAt(t: Table, id: GranuleId, p: nat, i: nat) {
    && i < |t|
    && p <= Depth(id, i, |t|)
    && !Passed(t, i, id)
    && forall s: nat :: s < |t| && p <= Depth(id, s, |t|) < Depth(id, i, |t|) ==> Passed(t, s, id)
  }

  /** find_slot: the slot holding `id`, unless an empty slot comes first. */
  function Find(t: Table, id: GranuleId): (r: Option<nat>)
    ensures r.Some? ==> Holds(t, r.value, id)
  {
    match Stop(t, id, 0)
    case None => None
    case Some(i) => if t[i].occupied then Some(i) else None
  }

  function AfterOpen(t: Table, id: GranuleId): (r: (Table, int)) {
    match Stop(t, id, 0)
    case None => (t, -1)
    case Some(i) => if t[i].occupied then (t, 0) else (t[i := Slot(true, id, 0)], 0)
  }

  /** atomic_fetch_add and atomic_fetch_sub on a uint32_t, as an addition modulo 2^32. */
  function Add32(x: nat, d: int): nat {
    Low32(x + d)
  }

  function AfterBump(t: Table, id: GranuleId, d: int): (r: (Table, int)) {
    match Find(t, id)
    case None => (t, -1)
    case Some(i) => (t[i := t[i].(liveCount := Add32(t[i].liveCount, d))], 0)
  }

  /** The table after slot `i` is cleared. */
  function Clear(t: Table, i: nat): Table
    requires i < |t|
  {
    t[i := EMPTY]
  }

  function AfterClose(t: Table, id: GranuleId): (r: (Table, nat)) {
    match Find(t, id)
    case None => (t, UINT32_MAX)
    case Some(i) => (Clear(t, i), t[i].liveCount)
  }

  predicate DrainedSlot(s: Slot) {
    s.occupied && s.liveCount == 0
  }

  predicate PinnedSlot(s: Slot) {
    s.occupied && s.liveCount != 0
  }

  class SlotArray {
    var slots: array<Slot>
    var capacity: nat

    ghost predicate Valid()
      reads this
    {
      0 < capacity == slots.Length < 0x1_0000_0000
    }

    ghost function Contents(): Table
      reads this, slots
      requires Valid()
    {
      slots[..]
    }

    constructor (capacity: nat)
      requires 0 < capacity < 0x1_0000_0000
      ensures Valid() && fresh(slots)
      ensures Contents() == seq(capacity, i => EMPTY)
    {
      this.capacity := capacity;
      slots := new Slot[capacity](i => EMPTY);
    }

    method FindSlot(id: GranuleId) returns (r: Option<nat>)
      requires Valid()
      ensures r == Find(Contents(), id)
    {
      var slotIdx := HashGranuleId(id) % capacity;
      var probe := 0;
      while probe < capacity
        invariant 0 <= probe <= capacity
        invariant Stop(slots[..], id, 0) == Stop(slots[..], id, probe)
      {
        var idx := Low32(slotIdx + probe) % capacity;
        if !slots[idx].occupied {
          return None;
        }
        if slots[idx].id == id {
          return Some(idx);
        }
        probe := probe + 1;
      }
      return None;
    }

    method Open(id: GranuleId) returns (code: int)
      requires Valid()
      modifies slots
      ensures Valid()
      ensures (Contents(), code) == AfterOpen(old(Contents()), id)
    {
      var slotIdx := HashGranuleId(id) % capacity;
      var probe := 0;
      while probe < capacity
        invariant 0 <= probe <= capacity
        invariant slots[..] == old(slots[..])
        invariant Stop(slots[..], id, 0) == Stop(slots[..], id, probe)
      {
        var idx := Low32(slotIdx + probe) % capacity;
        if slots[idx].occupied {
          if slots[idx].id == id {
            return 0;
          }
        } else {
          slots[idx] := Slot(true, id, 0);
          return 0;
        }
        probe := probe + 1;
      }
      return -1;
    }

    method Alloc(id: GranuleId) returns (code: int)
      requires Valid()
      modifies slots
      ensures Valid()
      ensures (Contents(), code) == AfterBump(old(Contents()), id, 1)
    {
      var slot := FindSlot(id);
      if slot.None? {
        return -1;
      }
      var i := slot.value;
      slots[i] := slots[i].(liveCount := Add32(slots[i].liveCount, 1));
      return 0;
    }

    method Dealloc(id: GranuleId) returns (code: int)
      requires Valid()
      modifies slots
      ensures Valid()
      ensures (Contents(), code) == AfterBump(old(Contents()), id, -1)
    {
      var slot := FindSlot(id);
      if slot.None? {
        return -1;
      }
      var i := slot.value;
      slots[i] := slots[i].(liveCount := Add32(slots[i].liveCount, -1));
      return 0;
    }

    method Close(id: GranuleId) returns (liveCount: nat)
      requires Valid()
      modifies slots
      ensures Valid()
      ensures (Contents(), liveCount) == AfterClose(old(Contents()), id)
    {
      var slot := FindSlot(id);
      if slot.None? {
        return UINT32_MAX;
      }
      var i := slot.value;
      liveCount := slots[i].liveCount;
      slots[i] := slots[i].(liveCount := 0);
      slots[i] := slots[i].(id := ZERO);
      slots[i] := slots[i].(occupied := false);
      assert slots[..] == Clear(old(slots[..]), i);
    }

    /** The production branch of the sweep. */
    method Sweep() returns (drainable: nat, pinned: nat)
      requires Valid()
      ensures drainable == Count(Contents(), DrainedSlot) && pinned == Count(Contents(), PinnedSlot)
    {
      drainable, pinned := 0, 0;
      ghost var t := Contents();
      for i := 0 to capacity
        invariant drainable == Count(t[..i], DrainedSlot) && pinned == Count(t[..i], PinnedSlot)
      {
        CountNext(t, i, DrainedSlot);
        CountNext(t, i, PinnedSlot);
        if slots[i].occupied {
          if slots[i].liveCount == 0 {
            drainable := drainable + 1;
          } else {
            pinned := pinned + 1;
          }
        }
      }
      assert t[..capacity] == t;
    }
  }

  /** No table without slots. */
  method CreateSlotArray(capacity: nat) returns (arr: SlotArray?)
    requires capacity < 0x1_0000_0000
    ensures arr == null <==> capacity == 0
    ensures arr != null ==>
              fresh(arr) && arr.Valid() && fresh(arr.slots) && arr.Contents() == seq(capacity, i => EMPTY)
  {
    if capacity == 0 {
      return null;
    }
    arr := new SlotArray(capacity);
  }
}
