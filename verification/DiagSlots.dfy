/** The diagnostic-mode slot array: a granule sits in slot `id % capacity` or nowhere. */
module DiagSlots {
  import opened Counting
  import opened Hash
  import opened Probe
  import opened GranuleDiag
  import opened Ledger

  /** The state of one granule. */
  datatype GranuleState = GranuleState(id: GranuleId, openTime: Timespec, records: Records, hint: nat)

  type GranuleView = g: GranuleState | HintOk(g.records, g.hint) witness GranuleState(ZERO, 0, [], 0)

  type Slots = s: seq<Option<GranuleView>> | 0 < |s| < 0x1_0000_0000 witness [None]

  /** slot_array_diag_get: the slot of a granule, if that granule is in it. */
  function Lookup(s: Slots, id: GranuleId): (r: Option<nat>)
    ensures r.Some? ==> r.value < |s| && s[r.value].Some? && s[r.value].value.id == id
  {
    var i := DiagIndex(id, |s|);
    if s[i].Some? && s[i].value.id == id then Some(i) else None
  }

  /** A slot in use refuses every open, whichever granule it holds. */
  function AfterDiagOpen(s: Slots, id: GranuleId, time: Timespec): (Slots, int) {
    var i := DiagIndex(id, |s|);
    if s[i].Some? then (s, -1) else (s[i := Some(GranuleState(id, time, [], 0))], 0)
  }

  function NewRecord(id: GranuleId, alloc: AllocId, size: nat, file: nat, line: nat, time: Timespec): AllocRecord {
    AllocRecord(alloc, id, time, AllocSite(file, line, 0), size, 0, false)
  }

  function Added(g: GranuleView, rec: AllocRecord): GranuleView {
    g.(records := g.records + [rec])
  }

  function AfterAdd(s: Slots, id: GranuleId, alloc: AllocId, size: nat, file: nat, line: nat, time: Timespec)
    : (Slots, int)
  {
    match Lookup(s, id)
    case None => (s, -1)
    case Some(i) => (s[i := Some(Added(s[i].value, NewRecord(id, alloc, size, file, line, time)))], 0)
  }

  function Marked(g: GranuleView, alloc: AllocId, time: Timespec): (r: (GranuleView, int)) {
    FreeExact(g.records, g.hint, alloc, time);
    var (records, hint, code) := AfterFree(g.records, g.hint, alloc, time);
    (GranuleState(g.id, g.openTime, records, hint), code)
  }

  function AfterMark(s: Slots, id: GranuleId, alloc: AllocId, time: Timespec): (Slots, int) {
    match Lookup(s, id)
    case None => (s, -1)
    case Some(i) =>
      var (g, code) := Marked(s[i].value, alloc, time);
      (s[i := Some(g)], code)
  }

  function AfterDiagClose(s: Slots, id: GranuleId): (r: (Slots, Option<GranuleView>))
    ensures r.1.Some? ==> r.1.value.id == id
  {
    match Lookup(s, id)
    case None => (s, None)
    case Some(i) => (s[i := None], s[i])
  }

  /** The granule, if open, has at most `n` records. */
  predicate RecordsWithin(s: Slots, id: GranuleId, n: nat) {
    match Lookup(s, id)
    case None => true
    case Some(i) => |s[i].value.records| <= n
  }

  predicate DrainedState(g: Option<GranuleView>) {
    g.Some? && LiveCount(g.value.records) == 0
  }

  predicate PinnedState(g: Option<GranuleView>) {
    g.Some? && LiveCount(g.value.records) != 0
  }

  datatype DiagSlot = DiagSlot(occupied: bool, diag: Granule?)

  ghost predicate Shows(g: Granule, v: GranuleView)
    reads g, g.allocs
  {
    && g.Valid() && g.granuleId == v.id && g.openTime == v.openTime
    && g.Contents() == v.records && g.lastFreedIndex == v.hint
  }

  ghost predicate SlotOk(slot: DiagSlot, v: Option<GranuleView>, repr: set<object>)
    reads repr
  {
    && slot.occupied == v.Some? == (slot.diag != null)
    && (slot.diag != null ==>
        && slot.diag in repr && slot.diag.allocs in repr
        && Shows(slot.diag, v.value))
  }

  class DiagArray {
    var slots: array<DiagSlot>
    var capacity: nat
    ghost var view: Slots
    /** The granules and their record arrays, including those of closed granules. */
    ghost var repr: set<object>

    ghost predicate Valid()
      reads this, slots, repr
    {
      && 0 < capacity == slots.Length == |view| < 0x1_0000_0000
      && this !in repr && slots !in repr
      && (forall i: nat :: i < capacity ==> SlotOk(slots[i], view[i], repr))
      && Separate()
    }

    /** Two slots never share a granule or a record array. */
    ghost predicate Separate()
      reads this, slots, repr
    {
      forall i: nat, j: nat :: i < j < slots.Length ==>
        var g, h := slots[i].diag, slots[j].diag;
        g != null && h != null && g in repr && h in repr ==> g != h && g.allocs != h.allocs
    }

    constructor (capacity: nat)
      requires capacity < 0x1_0000_0000
      ensures fresh(slots) && repr == {} && slots.Length == capacity
      ensures Valid() <==> 0 < capacity
      ensures 0 < capacity ==> view == seq(capacity, _ => None)
    {
      this.capacity := capacity;
      slots := new DiagSlot[capacity](_ => DiagSlot(false, null));
      view, repr := if capacity == 0 then [None] else seq(capacity, _ => None), {};
    }

    /** Stores the state of a new granule in a slot that was free. */
    method Install(i: nat, diag: Granule, ghost g: GranuleView)
      requires Valid() && i < capacity && view[i].None?
      requires diag !in repr && diag.allocs !in repr && Shows(diag, g)
      modifies this`view, this`repr, slots
      ensures Valid()
      ensures view == old(view)[i := Some(g)] && repr == old(repr) + {diag, diag.allocs}
    {
      repr := repr + {diag, diag.allocs};
      slots[i] := DiagSlot(true, diag);
      view := view[i := Some(g)];
    }

    /** The claim of the slot and the store of the new state are one step here. */
    method Open(id: GranuleId, openTime: Timespec) returns (code: int)
      requires Valid()
      modifies this`view, this`repr, slots
      ensures Valid() && fresh(repr - old(repr))
      ensures (view, code) == AfterDiagOpen(old(view), id, openTime)
    {
      var slotIdx := Number(id) % capacity;
      assert SlotOk(slots[slotIdx], view[slotIdx], repr);
      if slots[slotIdx].occupied {
        return -1;
      }
      var diag := new Granule(id, openTime);
      Install(slotIdx, diag, GranuleState(id, openTime, [], 0));
      return 0;
    }

    method Get(id: GranuleId) returns (diag: Granule?)
      requires Valid()
      ensures diag == match Lookup(view, id) case None => null case Some(i) => slots[i].diag
    {
      var slotIdx := Number(id) % capacity;
      assert SlotOk(slots[slotIdx], view[slotIdx], repr);
      if !slots[slotIdx].occupied {
        return null;
      }
      var slot := slots[slotIdx];
      if slot.diag != null && slot.diag.granuleId == id {
        return slot.diag;
      }
      return null;
    }

    method Close(id: GranuleId) returns (code: int, diag: Granule?)
      requires Valid()
      modifies this`view, slots
      ensures Valid()
      ensures view == AfterDiagClose(old(view), id).0
      ensures match AfterDiagClose(old(view), id).1
        case None => code == -1 && diag == null
        case Some(g) => code == 0 && diag != null && diag in repr && diag.allocs in repr && Shows(diag, g)
    {
      var slotIdx := Number(id) % capacity;
      assert SlotOk(slots[slotIdx], view[slotIdx], repr);
      if !slots[slotIdx].occupied {
        return -1, null;
      }
      var slot := slots[slotIdx];
      if slot.diag == null || slot.diag.granuleId != id {
        return -1, null;
      }
      slots[slotIdx] := slots[slotIdx].(diag := null);
      slots[slotIdx] := slots[slotIdx].(occupied := false);
      view := view[slotIdx := None];
      return 0, slot.diag;
    }

    /** Valid, but for what slot `i` shows of its granule. */
    ghost predicate ValidBut(i: nat, diag: Granule)
      reads this, slots, repr
    {
      && i < capacity == slots.Length == |view| < 0x1_0000_0000
      && this !in repr && slots !in repr
      && slots[i] == DiagSlot(true, diag) && view[i].Some? && diag in repr
      && (forall j: nat :: j < capacity && j != i ==> SlotOk(slots[j], view[j], repr))
      && Separate()
    }

    /** Lets slot `i` show the new state of its granule. */
    ghost method Reshow(i: nat, diag: Granule, g: GranuleView)
      requires ValidBut(i, diag) && Shows(diag, g)
      modifies this`view, this`repr
      ensures Valid() && repr == old(repr) + {diag.allocs} && view == old(view)[i := Some(g)]
    {
      repr := repr + {diag.allocs};
      view := view[i := Some(g)];
    }

    /** Adds a record to the granule of slot `i`. */
    method AddTo(ghost i: nat, diag: Granule, alloc: AllocId, size: nat, file: nat, line: nat, time: Timespec)
      returns (code: int)
      requires Valid() && i < capacity && slots[i].diag == diag && SlotOk(slots[i], view[i], repr)
      requires |view[i].value.records| < 0x8000_0000
      modifies this`view, this`repr, diag, diag.allocs
      ensures Valid() && fresh(repr - old(repr)) && code == 0
      ensures view == old(view)[i := Some(Added(old(view[i].value),
                NewRecord(old(view[i].value.id), alloc, size, file, line, time)))]
    {
      ghost var before := view[i].value;
      code := diag.AddAlloc(alloc, size, file, line, time);
      Reshow(i, diag, Added(before, NewRecord(before.id, alloc, size, file, line, time)));
    }

    /** The diagnostic branch of a registration: finds the granule and adds a record to it. */
    method Register(id: GranuleId, alloc: AllocId, size: nat, file: nat, line: nat, time: Timespec)
      returns (code: int)
      requires Valid() && RecordsWithin(view, id, 0x7fff_ffff)
      modifies this`view, this`repr, repr
      ensures Valid() && fresh(repr - old(repr))
      ensures (view, code) == AfterAdd(old(view), id, alloc, size, file, line, time)
    {
      var diag := Get(id);
      if diag == null {
        return -1;
      }
      ghost var i := Lookup(view, id).value;
      assert SlotOk(slots[i], view[i], repr);
      code := AddTo(i, diag, alloc, size, file, line, time);
    }

    /** The diagnostic branch of a deregistration. */
    method Deregister(id: GranuleId, alloc: AllocId, time: Timespec) returns (code: int)
      requires Valid() && RecordsWithin(view, id, 0x8000_0000)
      modifies this`view, this`repr, repr
      ensures Valid() && repr == old(repr)
      ensures (view, code) == AfterMark(old(view), id, alloc, time)
    {
      var diag := Get(id);
      if diag == null {
        return -1;
      }
      ghost var i := Lookup(view, id).value;
      assert SlotOk(slots[i], view[i], repr);
      code := diag.MarkFreed(alloc, time);
      Reshow(i, diag, Marked(view[i].value, alloc, time).0);
    }

    /** The diagnostic branch of the sweep; a table without slots has nothing to count. */
    method Sweep() returns (drainable: nat, pinned: nat)
      requires 0 < capacity ==> Valid()
      ensures 0 < capacity ==> drainable == Count(view, DrainedState) && pinned == Count(view, PinnedState)
      ensures capacity == 0 ==> drainable == pinned == 0
    {
      drainable, pinned := 0, 0;
      for i := 0 to capacity
        invariant drainable == Count(view[..i], DrainedState) && pinned == Count(view[..i], PinnedState)
      {
        assert SlotOk(slots[i], view[i], repr);
        CountNext(view, i, DrainedState);
        CountNext(view, i, PinnedState);
        if slots[i].occupied && slots[i].diag != null {
          if slots[i].diag.liveCount == 0 {
            drainable := drainable + 1;
          } else {
            pinned := pinned + 1;
          }
        }
      }
      assert 0 < capacity ==> view[..capacity] == view;
    }
  }
}
