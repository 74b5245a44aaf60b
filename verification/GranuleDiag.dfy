/** Diagnostic state of one granule: a growing record array, a hinted free, an exact report. */
module GranuleDiag {
  import opened Hash
  import opened Probe

  type AllocId = nat
  type Timespec = int

  /** `file` is the address of the interned file name, 0 for NULL. */
  datatype AllocSite = AllocSite(file: nat, line: nat, column: nat)

  datatype AllocRecord = AllocRecord(
    allocId: AllocId, granuleId: GranuleId, allocTime: Timespec, site: AllocSite,
    size: nat, freeTime: Timespec, freed: bool)

  datatype PinningAlloc = PinningAlloc(
    allocId: AllocId, site: AllocSite, allocTime: Timespec, size: nat, lifetimeDelta: real)

  datatype PinningReport = PinningReport(
    granuleId: GranuleId, openTime: Timespec, closeTime: Timespec,
    pinningAllocs: seq<PinningAlloc>, pinningCount: nat, totalAllocs: nat, drainedAllocs: nat)

  const ZERO_RECORD := AllocRecord(0, ZERO, 0, AllocSite(0, 0, 0), 0, 0, false)
  const ZERO_PIN := PinningAlloc(0, AllocSite(0, 0, 0), 0, 0, 0.0)

  type Records = seq<AllocRecord>

  /** The number of records not yet freed. */
  function LiveCount(recs: Records): (n: nat)
    ensures n <= |recs|
  {
    if recs == [] then 0
    else LiveCount(recs[..|recs| - 1]) + if recs[|recs| - 1].freed then 0 else 1
  }

  /** The positions of the records not yet freed, in registration order. */
  function LiveIndices(recs: Records): (r: seq<nat>)
    ensures |r| == LiveCount(recs)
    ensures forall k :: 0 <= k < |r| ==> r[k] < |recs| && !recs[r[k]].freed
    ensures forall j, k :: 0 <= j < k < |r| ==> r[j] < r[k]
    ensures forall i: nat :: i < |recs| && !recs[i].freed ==> i in r
  {
    if recs == [] then []
    else
      var last := |recs| - 1;
      LiveIndices(recs[..last]) + if recs[last].freed then [] else [last]
  }

  /** The allocation ids not yet freed, with repetitions. */
  ghost function LiveIds(recs: Records): multiset<AllocId> {
    if recs == [] then multiset{}
    else
      var last := |recs| - 1;
      LiveIds(recs[..last]) + if recs[last].freed then multiset{} else multiset{recs[last].allocId}
  }

  predicate LiveAt(recs: Records, i: nat, id: AllocId) {
    i < |recs| && !recs[i].freed && recs[i].allocId == id
  }

  ghost predicate SomeLive(recs: Records, id: AllocId) {
    exists i: nat :: LiveAt(recs, i, id)
  }

  lemma SomeLiveLast(recs: Records, id: AllocId)
    requires recs != []
    ensures SomeLive(recs, id) <==>
              SomeLive(recs[..|recs| - 1], id) || LiveAt(recs, |recs| - 1, id)
  {
    var last := |recs| - 1;
    if i: nat :| LiveAt(recs, i, id) && i != last {
      assert LiveAt(recs[..last], i, id);
    }
    if i: nat :| LiveAt(recs[..last], i, id) {
      assert LiveAt(recs, i, id);
    }
  }

  lemma {:induction false} LiveIdsAreLive(recs: Records, id: AllocId)
    ensures id in LiveIds(recs) <==> SomeLive(recs, id)
  {
    if recs != [] {
      SomeLiveLast(recs, id);
      LiveIdsAreLive(recs[..|recs| - 1], id);
    }
  }

  lemma {:induction false} LiveIdsSize(recs: Records)
    ensures |LiveIds(recs)| == LiveCount(recs)
  {
    if recs != [] {
      LiveIdsSize(recs[..|recs| - 1]);
    }
  }

  /** The cyclic scan from `start`, from its `offset`-th step on. */
  function Search(recs: Records, start: nat, id: AllocId, offset: nat): (r: Option<nat>)
    requires offset <= |recs| && (start < |recs| || recs == [])
    ensures r.Some? ==>
              && LiveAt(recs, r.value, id)
              && offset <= Dist(start, r.value, |recs|)
              && (forall i: nat :: i < |recs| && offset <= Dist(start, i, |recs|) < Dist(start, r.value, |recs|)
                                   ==> !LiveAt(recs, i, id))
    ensures r.None? ==>
              forall i: nat :: i < |recs| && offset <= Dist(start, i, |recs|) ==> !LiveAt(recs, i, id)
    decreases |recs| - offset
  {
    if offset == |recs| then None
    else
      var i := At(start, offset, |recs|);
      if LiveAt(recs, i, id) then Some(i) else Search(recs, start, id, offset + 1)
  }

  /** The hint is a valid start of the scan. */
  predicate HintOk(recs: Records, hint: nat) {
    hint < |recs| || (recs == [] && hint == 0)
  }

  function Free(recs: Records, i: nat, time: Timespec): Records
    requires i < |recs|
  {
    recs[i := recs[i].(freed := true, freeTime := time)]
  }

  /** Records, hint and code after mark_freed. */
  function AfterFree(recs: Records, hint: nat, id: AllocId, time: Timespec): (Records, nat, int)
    requires HintOk(recs, hint)
  {
    match Search(recs, hint, id, 0)
    case None => (recs, hint, -1)
    case Some(i) => (Free(recs, i, time), (i + 1) % |recs|, 0)
  }

  function PinOf(rec: AllocRecord): PinningAlloc {
    PinningAlloc(rec.allocId, rec.site, rec.allocTime, rec.size, -1.0)
  }

  /** The entries of a pinning report: the live records in registration order. */
  function Pins(recs: Records): (pins: seq<PinningAlloc>)
    ensures |pins| == LiveCount(recs)
  {
    seq(LiveCount(recs), k requires 0 <= k < LiveCount(recs) => PinOf(recs[LiveIndices(recs)[k]]))
  }

  function Report(granuleId: GranuleId, openTime: Timespec, closeTime: Timespec, recs: Records)
    : PinningReport
  {
    PinningReport(granuleId, openTime, closeTime, Pins(recs), LiveCount(recs), |recs|,
                  |recs| - LiveCount(recs))
  }

  // What a free does.

  lemma FreePrefix(recs: Records, i: nat, time: Timespec)
    requires i < |recs|
    ensures var last := |recs| - 1;
      Free(recs, i, time)[..last] == if i == last then recs[..last] else Free(recs[..last], i, time)
  {}

  lemma {:induction false} FreeCount(recs: Records, i: nat, time: Timespec)
    requires i < |recs| && !recs[i].freed
    ensures LiveCount(recs) == LiveCount(Free(recs, i, time)) + 1
  {
    FreePrefix(recs, i, time);
    if i < |recs| - 1 {
      FreeCount(recs[..|recs| - 1], i, time);
    }
  }

  lemma {:induction false} FreeIds(recs: Records, i: nat, time: Timespec)
    requires i < |recs| && !recs[i].freed
    ensures LiveIds(recs) == LiveIds(Free(recs, i, time)) + multiset{recs[i].allocId}
  {
    FreePrefix(recs, i, time);
    if i < |recs| - 1 {
      FreeIds(recs[..|recs| - 1], i, time);
    }
  }

  /** The scan finds a record exactly when some live record has the id. */
  lemma SearchExact(recs: Records, start: nat, id: AllocId)
    requires HintOk(recs, start)
    ensures Search(recs, start, id, 0).Some? <==> id in LiveIds(recs)
  {
    LiveIdsAreLive(recs, id);
    if Search(recs, start, id, 0).None? {
      forall i: nat
        ensures !LiveAt(recs, i, id)
      {
        assert i < |recs| ==> 0 <= Dist(start, i, |recs|);
      }
    }
  }

  /** mark_freed succeeds exactly when a live record has the id, and takes one occurrence
      of the id out of the live ids. The hint stays a valid start either way. */
  lemma FreeExact(recs: Records, hint: nat, id: AllocId, time: Timespec)
    requires HintOk(recs, hint)
    ensures var (recs', hint', code) := AfterFree(recs, hint, id, time);
      && HintOk(recs', hint')
      && code == (if id in LiveIds(recs) then 0 else -1)
      && LiveIds(recs') == LiveIds(recs) - multiset{id}
  {
    SearchExact(recs, hint, id);
    match Search(recs, hint, id, 0)
    case None =>
      assert LiveIds(recs) - multiset{id} == LiveIds(recs);
    case Some(i) =>
      FreeIds(recs, i, time);
      assert LiveIds(Free(recs, i, time)) == LiveIds(recs) - multiset{id};
  }

  ghost predicate FlippedAt(recs: Records, recs': Records, i: nat, id: AllocId, time: Timespec) {
    && |recs'| == |recs|
    && LiveAt(recs, i, id)
    && recs'[i] == recs[i].(freed := true, freeTime := time)
    && forall k :: 0 <= k < |recs| && k != i ==> recs'[k] == recs[k]
  }

  /** No record met on the walk from `hint` before place `i` is a live one with the id. */
  ghost predicate FirstFrom(recs: Records, hint: nat, i: nat, id: AllocId)
    requires hint < |recs| && i < |recs|
  {
    forall j: nat :: j < |recs| && Dist(hint, j, |recs|) < Dist(hint, i, |recs|) ==> !LiveAt(recs, j, id)
  }

  lemma NextPlace(i: nat, n: nat)
    requires i < n
    ensures (i + 1) % n < n
    ensures Dist((i + 1) % n, i, n) == n - 1
  {
    ModWraps(i + 1, n);
  }

  /** A successful mark_freed flips exactly one record, the first live one with the id on the
      cyclic walk from the hint, and the next walk comes to that record last. A failed one
      changes nothing, the hint included. */
  lemma FlipsExactlyOne(recs: Records, hint: nat, id: AllocId, time: Timespec)
    requires HintOk(recs, hint)
    ensures var (recs', hint', code) := AfterFree(recs, hint, id, time);
      if code == 0 then
        exists i: nat ::
          && FlippedAt(recs, recs', i, id, time)
          && FirstFrom(recs, hint, i, id)
          && hint' < |recs| && Dist(hint', i, |recs|) == |recs| - 1
      else (recs', hint') == (recs, hint)
  {
    match Search(recs, hint, id, 0)
    case None =>
    case Some(i) =>
      NextPlace(i, |recs|);
      assert FlippedAt(recs, Free(recs, i, time), i, id, time);
      assert FirstFrom(recs, hint, i, id);
  }

  ghost predicate AtMostOneLive(recs: Records, id: AllocId) {
    forall i: nat, j: nat :: LiveAt(recs, i, id) && LiveAt(recs, j, id) ==> i == j
  }

  /** Any two hints free the same record if and only if at most one live record has the id. */
  lemma HintIrrelevantIff(recs: Records, id: AllocId)
    ensures (forall a: nat, b: nat :: a < |recs| && b < |recs| ==>
               Search(recs, a, id, 0) == Search(recs, b, id, 0))
       <==> AtMostOneLive(recs, id)
  {
    forall a: nat | a < |recs|
      ensures Search(recs, a, id, 0).None? <==> forall i: nat :: !LiveAt(recs, i, id)
      ensures LiveAt(recs, a, id) ==> Search(recs, a, id, 0) == Some(a)
    {
      var r := Search(recs, a, id, 0);
      if r.None? {
        forall i: nat
          ensures !LiveAt(recs, i, id)
        {
          assert i < |recs| ==> 0 <= Dist(a, i, |recs|);
        }
      }
      if LiveAt(recs, a, id) {
        assert Dist(a, a, |recs|) == 0;
      }
    }
    if AtMostOneLive(recs, id) {
      forall a: nat, b: nat | a < |recs| && b < |recs|
        ensures Search(recs, a, id, 0) == Search(recs, b, id, 0)
      {}
    } else {
      var i: nat, j: nat :| LiveAt(recs, i, id) && LiveAt(recs, j, id) && i != j;
      assert Search(recs, i, id, 0) != Search(recs, j, id, 0);
    }
  }

  /** Adding a live record. */
  lemma AddExact(recs: Records, hint: nat, rec: AllocRecord)
    requires !rec.freed && HintOk(recs, hint)
    ensures HintOk(recs + [rec], hint)
    ensures LiveCount(recs + [rec]) == LiveCount(recs) + 1
  {
    assert (recs + [rec])[..|recs|] == recs;
  }

  lemma AddIds(recs: Records, rec: AllocRecord)
    requires !rec.freed
    ensures LiveIds(recs + [rec]) == LiveIds(recs) + multiset{rec.allocId}
  {
    assert (recs + [rec])[..|recs|] == recs;
  }

  /** The entry copies id, site, time and size of the record, and marks the lifetime as
      unknown. */
  predicate Describes(pin: PinningAlloc, rec: AllocRecord) {
    && pin.allocId == rec.allocId && pin.site == rec.site
    && pin.allocTime == rec.allocTime && pin.size == rec.size
    && pin.lifetimeDelta == -1.0
  }

  /** The report accounts for every registration, describes every live record once and in
      registration order, and nothing else. */
  lemma ReportExact(g: GranuleId, openTime: Timespec, closeTime: Timespec, recs: Records)
    ensures var r := Report(g, openTime, closeTime, recs);
      && r.granuleId == g && r.openTime == openTime && r.closeTime == closeTime
      && |r.pinningAllocs| == r.pinningCount
      && r.pinningCount + r.drainedAllocs == r.totalAllocs == |recs|
      && exists idx: seq<nat> ::
           && |idx| == r.pinningCount
           && (forall j, k :: 0 <= j < k < |idx| ==> idx[j] < idx[k])
           && (forall i: nat :: i in idx <==> i < |recs| && !recs[i].freed)
           && (forall k :: 0 <= k < |idx| ==> idx[k] < |recs| && Describes(r.pinningAllocs[k], recs[idx[k]]))
  {
    var idx := LiveIndices(recs);
    forall i: nat
      ensures i in idx <==> i < |recs| && !recs[i].freed
    {}
  }

  /** The allocation ids named by report entries, with repetitions. */
  ghost function PinIds(pins: seq<PinningAlloc>): multiset<AllocId> {
    if pins == [] then multiset{}
    else PinIds(pins[..|pins| - 1]) + multiset{pins[|pins| - 1].allocId}
  }

  /** A report names each live allocation as often as it is live. */
  lemma {:induction false} PinIdsAreLive(recs: Records)
    ensures PinIds(Pins(recs)) == LiveIds(recs)
  {
    if recs != [] {
      var n := |recs| - 1;
      var pins := Pins(recs[..n]);
      PinIdsAreLive(recs[..n]);
      assert recs[..n + 1] == recs;
      PinsStep(recs, n);
      assert pins + [] == pins;
      assert (pins + [PinOf(recs[n])])[..|pins|] == pins;
    }
  }

  class Granule {
    var granuleId: GranuleId
    var liveCount: nat
    var openTime: Timespec
    var allocs: array<AllocRecord>
    var allocCount: nat
    var allocCapacity: nat
    var lastFreedIndex: nat

    /** The cached live count is exact, so that a report buffer of that size holds the report. */
    ghost predicate Valid()
      reads this, allocs
    {
      && allocCount <= allocCapacity == allocs.Length < 0x1_0000_0000
      && 0 < allocCapacity
      && liveCount == LiveCount(allocs[..allocCount])
      && HintOk(allocs[..allocCount], lastFreedIndex)
    }

    ghost function Contents(): Records
      reads this, allocs
      requires Valid()
    {
      allocs[..allocCount]
    }

    constructor (id: GranuleId, openTime: Timespec)
      ensures Valid() && fresh(allocs)
      ensures granuleId == id && this.openTime == openTime && Contents() == [] && lastFreedIndex == 0
      ensures allocCapacity == 64
    {
      granuleId, liveCount, this.openTime := id, 0, openTime;
      allocCapacity, allocCount, lastFreedIndex := 64, 0, 0;
      allocs := new AllocRecord[64](_ => ZERO_RECORD);
    }

    /** Doubles the array, as realloc and memset do. */
    method Grow()
      requires Valid() && allocCapacity < 0x8000_0000
      modifies this`allocs, this`allocCapacity
      ensures Valid() && fresh(allocs)
      ensures allocCapacity == 2 * old(allocCapacity)
      ensures Contents() == old(Contents())
    {
      ghost var before := Contents();
      var newCapacity := Low32(allocCapacity * 2);
      var grown := new AllocRecord[newCapacity](_ => ZERO_RECORD);
      forall i | 0 <= i < allocCount {
        grown[i] := allocs[i];
      }
      assert grown[..allocCount] == before;
      allocs, allocCapacity := grown, newCapacity;
      assert allocs[..allocCount] == before;
    }

    /** Stores a record in the next free place. */
    method Append(rec: AllocRecord)
      requires Valid() && allocCount < allocCapacity && !rec.freed
      modifies this`allocCount, this`liveCount, allocs
      ensures Valid()
      ensures Contents() == old(Contents()) + [rec]
    {
      ghost var before := Contents();
      AddExact(before, lastFreedIndex, rec);
      allocs[allocCount] := rec;
      allocCount := allocCount + 1;
      liveCount := Low32(liveCount + 1);
      assert allocs[..allocCount] == before + [rec];
    }

    /** The record count stays below 2^31, where doubling the 32-bit capacity would wrap. */
    method AddAlloc(allocId: AllocId, size: nat, file: nat, line: nat, allocTime: Timespec)
      returns (code: int)
      requires Valid() && allocCount < 0x8000_0000
      modifies this, allocs
      ensures Valid() && (allocs == old(allocs) || fresh(allocs))
      ensures code == 0
      ensures Contents() == old(Contents())
        + [AllocRecord(allocId, granuleId, allocTime, AllocSite(file, line, 0), size, 0, false)]
      ensures granuleId == old(granuleId) && openTime == old(openTime)
      ensures lastFreedIndex == old(lastFreedIndex)
    {
      if allocCount >= allocCapacity {
        Grow();
      }
      Append(AllocRecord(allocId, granuleId, allocTime, AllocSite(file, line, 0), size, 0, false));
      return 0;
    }

    /** The success branch of mark_freed. */
    method Flip(i: nat, freeTime: Timespec)
      requires Valid() && i < allocCount && !allocs[i].freed
      modifies this`lastFreedIndex, this`liveCount, allocs
      ensures Valid()
      ensures Contents() == Free(old(Contents()), i, freeTime)
      ensures lastFreedIndex == (i + 1) % allocCount
    {
      ghost var before := Contents();
      FreeCount(before, i, freeTime);
      allocs[i] := allocs[i].(freed := true);
      allocs[i] := allocs[i].(freeTime := freeTime);
      assert allocs[..allocCount] == Free(before, i, freeTime);
      lastFreedIndex := (i + 1) % allocCount;
      liveCount := liveCount - 1;
    }

    /** The cyclic scan of mark_freed. */
    method FindLive(allocId: AllocId) returns (r: Option<nat>)
      requires Valid() && allocCount <= 0x8000_0000
      ensures r == Search(Contents(), lastFreedIndex, allocId, 0)
    {
      var start := lastFreedIndex;
      var offset := 0;
      ghost var recs := Contents();
      while offset < allocCount
        invariant 0 <= offset <= allocCount
        invariant Search(recs, start, allocId, 0) == Search(recs, start, allocId, offset)
      {
        var i := ProbeIndex(start, offset, allocCount);
        assert recs[i] == allocs[i];
        if allocs[i].allocId == allocId && !allocs[i].freed {
          return Some(i);
        }
        offset := offset + 1;
      }
      return None;
    }

    method MarkFreed(allocId: AllocId, freeTime: Timespec) returns (code: int)
      requires Valid() && allocCount <= 0x8000_0000
      modifies this, allocs
      ensures Valid() && allocs == old(allocs)
      ensures (Contents(), lastFreedIndex, code)
           == AfterFree(old(Contents()), old(lastFreedIndex), allocId, freeTime)
      ensures granuleId == old(granuleId) && openTime == old(openTime)
    {
      var found := FindLive(allocId);
      if found.None? {
        return -1;
      }
      Flip(found.value, freeTime);
      return 0;
    }

    /** Copies the live records to the report array; it fits because the cached count is exact. */
    method FillPins(pins: array<PinningAlloc>)
      requires Valid() && pins.Length == liveCount
      modifies pins
      ensures pins[..] == Pins(Contents())
    {
      var pinningIdx := 0;
      ghost var recs := Contents();
      for i := 0 to allocCount
        invariant pinningIdx == LiveCount(recs[..i]) <= pins.Length
        invariant pins[..pinningIdx] == Pins(recs[..i])
      {
        PinsStep(recs, i);
        LiveCountMonotone(recs, i + 1);
        if !allocs[i].freed {
          pins[pinningIdx] := PinningAlloc(allocs[i].allocId, allocs[i].site, allocs[i].allocTime,
                                           allocs[i].size, -1.0);
          pinningIdx := pinningIdx + 1;
          assert pins[..pinningIdx] == pins[..pinningIdx - 1] + [PinOf(recs[i])];
        }
      }
      assert recs[..allocCount] == recs;
      assert pins[..] == pins[..pinningIdx];
    }

    /** No report when nothing is live. The report array is sized from the cached count and
        filled by a separate scan. */
    method GenerateReport(closeTime: Timespec) returns (report: Option<PinningReport>)
      requires Valid()
      ensures report == if LiveCount(Contents()) == 0 then None
                        else Some(Report(granuleId, openTime, closeTime, Contents()))
    {
      var live := liveCount;
      if live == 0 {
        return None;
      }
      var pins := new PinningAlloc[live](_ => ZERO_PIN);
      FillPins(pins);
      return Some(PinningReport(granuleId, openTime, closeTime, pins[..], live, allocCount,
                                allocCount - live));
    }
  }

  lemma PinsStep(recs: Records, i: nat)
    requires i < |recs|
    ensures LiveCount(recs[..i + 1]) == LiveCount(recs[..i]) + if recs[i].freed then 0 else 1
    ensures Pins(recs[..i + 1]) == Pins(recs[..i]) + if recs[i].freed then [] else [PinOf(recs[i])]
  {
    assert recs[..i + 1][..i] == recs[..i];
  }

  lemma {:induction false} LiveCountMonotone(recs: Records, i: nat)
    requires i <= |recs|
    ensures LiveCount(recs[..i]) <= LiveCount(recs)
    decreases |recs| - i
  {
    if i < |recs| {
      assert recs[..i + 1][..i] == recs[..i];
      LiveCountMonotone(recs, i + 1);
    } else {
      assert recs[..i] == recs;
    }
  }
}
