/** The production profiler as a step system: any number of threads, one atomic access a
    step, interleaved arbitrarily. Sequentially consistent atomics make interleavings the
    right model (section 7.17.3 of ISO/IEC 9899:2011). */
module Steps {
  import opened Hash
  import opened Probe
  import opened SlotTable

  /** How far the thread that opens or closes a slot has got. */
  datatype Phase =
    | Claimed   // occupied is set, the id still reads zero
    | Named     // the id is stored
    | Stored    // the count is stored, open_granules not yet incremented
    | Counted   // open_granules incremented, the open has not returned
    | Opened    // the open has returned
    | Zeroed    // a close has cleared the count
    | Unnamed   // a close has cleared the id

  /** Who holds a slot, and the registrations and deregistrations completed since its open.
      A history variable: no step reads it. */
  datatype Owner =
    | Free
    | Held(id: GranuleId, phase: Phase, regs: nat, deregs: nat)

  datatype Use = Register | Deregister | Close

  /** The next atomic access of a thread. */
  datatype Pc =
    | Idle
    | OpenLoad(id: GranuleId, probe: nat)
    | OpenLoadId(id: GranuleId, probe: nat)
    | OpenCas(id: GranuleId, probe: nat)
    | OpenStoreId(id: GranuleId, slot: nat)
    | OpenStoreCount(id: GranuleId, slot: nat)
    | CountOpen(id: GranuleId, slot: nat)
    | PeakLoad(id: GranuleId, slot: nat, open: nat)
    | PeakCas(id: GranuleId, slot: nat, open: nat, peak: nat)
    | FindLoad(use: Use, id: GranuleId, probe: nat)
    | FindLoadId(use: Use, id: GranuleId, probe: nat)
    | FetchAdd(id: GranuleId, slot: nat)
    | FetchSub(id: GranuleId, slot: nat)
    | CloseLoad(id: GranuleId, slot: nat)
    | CloseCount(id: GranuleId, slot: nat, live: nat)
    | CloseId(id: GranuleId, slot: nat, live: nat)
    | CloseRelease(id: GranuleId, slot: nat, live: nat)
    | UncountOpen(live: nat)
    | CountClose(live: nat)
    | CountVerdict(live: nat)

  datatype Counters = Counters(open: nat, peak: nat, total: nat, drainable: nat, pinned: nat)

  /** `highest` is the largest value open_granules has held and `leaked` the number of
      closes that saw the error value UINT32_MAX in the count; both are history variables. */
  datatype State = State(slots: SmallTable, owner: seq<Owner>, pcs: seq<Pc>,
                         c: Counters, highest: nat, leaked: nat)

  /** What a step makes visible to the caller. */
  datatype Event =
    | Silent
    | OpenFull(id: GranuleId)
    | OpenRepeated(id: GranuleId)
    | OpenReturned(id: GranuleId)
    | Missing(use: Use, id: GranuleId)
    | Released(id: GranuleId, slot: nat, live: nat)

  function SlotAt(id: GranuleId, probe: nat, n: nat): (i: nat)
    requires probe < n
    ensures i < n && Depth(id, i, n) == probe
  {
    At(Home(id, n), probe, n)
  }

  /** The thread may take its next step: its probe or slot index is in range. */
  predicate InRange(pc: Pc, n: nat) {
    match pc
    case OpenLoad(_, p) => p < n
    case OpenLoadId(_, p) => p < n
    case OpenCas(_, p) => p < n
    case OpenStoreId(_, i) => i < n
    case OpenStoreCount(_, i) => i < n
    case CountOpen(_, i) => i < n
    case PeakLoad(_, i, _) => i < n
    case PeakCas(_, i, _, _) => i < n
    case FindLoad(_, _, p) => p < n
    case FindLoadId(_, _, p) => p < n
    case FetchAdd(_, i) => i < n
    case FetchSub(_, i) => i < n
    case CloseLoad(_, i) => i < n
    case CloseCount(_, i, _) => i < n
    case CloseId(_, i, _) => i < n
    case CloseRelease(_, i, _) => i < n
    case _ => true
  }

  predicate Shape(s: State) {
    && |s.owner| == |s.slots|
    && forall t :: 0 <= t < |s.pcs| ==> InRange(s.pcs[t], |s.slots|)
  }

  function Goto(s: State, t: nat, pc: Pc): State
    requires t < |s.pcs|
  {
    s.(pcs := s.pcs[t := pc])
  }

  function Write(s: State, i: nat, slot: Slot, o: Owner): State
    requires i < |s.slots| == |s.owner|
  {
    s.(slots := s.slots[i := slot], owner := s.owner[i := o])
  }

  /** The owner after the thread that opens or closes `id` reaches a phase. */
  function SetPhase(o: Owner, id: GranuleId, phase: Phase): Owner {
    if HoldsId(o, id) then o.(phase := phase) else o
  }

  function Max(a: nat, b: nat): nat {
    if a < b then b else a
  }

  /** A decrement in uint64_t. */
  function Decrement64(x: nat): nat {
    if x == 0 then 0xffff_ffff_ffff_ffff else x - 1
  }

  // One function per atomic access. `t` is the thread, `i` a slot.

  predicate Fits(s: State, t: nat, i: nat) {
    t < |s.pcs| && i < |s.slots| == |s.owner|
  }

  function ProbeOn(s: State, t: nat, id: GranuleId, p: nat): (State, Event)
    requires t < |s.pcs|
  {
    if p + 1 < |s.slots| then (Goto(s, t, OpenLoad(id, p + 1)), Silent)
    else (Goto(s, t, Idle), OpenFull(id))
  }

  function LoadOccupied(s: State, t: nat, id: GranuleId, p: nat, i: nat): (State, Event)
    requires Fits(s, t, i)
  {
    if s.slots[i].occupied then (Goto(s, t, OpenLoadId(id, p)), Silent)
    else (Goto(s, t, OpenCas(id, p)), Silent)
  }

  function LoadId(s: State, t: nat, id: GranuleId, p: nat, i: nat): (State, Event)
    requires Fits(s, t, i)
  {
    if s.slots[i].id == id then (Goto(s, t, CountOpen(id, i)), OpenRepeated(id))
    else ProbeOn(s, t, id, p)
  }

  function CasOccupied(s: State, t: nat, id: GranuleId, p: nat, i: nat): (State, Event)
    requires Fits(s, t, i)
  {
    if s.slots[i].occupied then ProbeOn(s, t, id, p)
    else
      var s' := Write(s, i, s.slots[i].(occupied := true), Held(id, Claimed, 0, 0));
      (Goto(s', t, OpenStoreId(id, i)), Silent)
  }

  function StoreId(s: State, t: nat, id: GranuleId, i: nat): State
    requires Fits(s, t, i)
  {
    Goto(Write(s, i, s.slots[i].(id := id), SetPhase(s.owner[i], id, Named)), t, OpenStoreCount(id, i))
  }

  function StoreCount(s: State, t: nat, id: GranuleId, i: nat): State
    requires Fits(s, t, i)
  {
    Goto(Write(s, i, s.slots[i].(liveCount := 0), SetPhase(s.owner[i], id, Stored)), t, CountOpen(id, i))
  }

  function AddOpen(s: State, t: nat, id: GranuleId, i: nat): State
    requires Fits(s, t, i)
  {
    var open := s.c.open + 1;
    Goto(Write(s, i, s.slots[i], SetPhase(s.owner[i], id, Counted)), t, PeakLoad(id, i, open))
      .(c := s.c.(open := open), highest := Max(s.highest, open))
  }

  function FinishOpen(s: State, t: nat, id: GranuleId, i: nat): (State, Event)
    requires Fits(s, t, i)
  {
    (Goto(Write(s, i, s.slots[i], SetPhase(s.owner[i], id, Opened)), t, Idle), OpenReturned(id))
  }

  /** The loop test of the peak update, on the value `peak` last read. */
  function PeakTest(s: State, t: nat, id: GranuleId, i: nat, open: nat, peak: nat): (State, Event)
    requires Fits(s, t, i)
  {
    if open > peak then (Goto(s, t, PeakCas(id, i, open, peak)), Silent)
    else FinishOpen(s, t, id, i)
  }

  /** A weak compare-exchange may fail spuriously (section 7.17.7.4 of ISO/IEC 9899:2011). */
  function CasPeak(s: State, t: nat, id: GranuleId, i: nat, open: nat, peak: nat, spurious: bool)
    : (State, Event)
    requires Fits(s, t, i)
  {
    if s.c.peak == peak && !spurious then FinishOpen(s.(c := s.c.(peak := open)), t, id, i)
    else PeakTest(s, t, id, i, open, s.c.peak)
  }

  function FindOccupied(s: State, t: nat, use: Use, id: GranuleId, p: nat, i: nat): (State, Event)
    requires Fits(s, t, i)
  {
    if s.slots[i].occupied then (Goto(s, t, FindLoadId(use, id, p)), Silent)
    else (Goto(s, t, Idle), Missing(use, id))
  }

  function UseSlot(use: Use, id: GranuleId, i: nat): Pc {
    match use
    case Register => FetchAdd(id, i)
    case Deregister => FetchSub(id, i)
    case Close => CloseLoad(id, i)
  }

  function FindId(s: State, t: nat, use: Use, id: GranuleId, p: nat, i: nat): (State, Event)
    requires Fits(s, t, i)
  {
    if s.slots[i].id == id then (Goto(s, t, UseSlot(use, id, i)), Silent)
    else if p + 1 < |s.slots| then (Goto(s, t, FindLoad(use, id, p + 1)), Silent)
    else (Goto(s, t, Idle), Missing(use, id))
  }

  /** The owner after a completed registration or deregistration. */
  function CountUse(o: Owner, d: int): Owner {
    if o.Free? then o else if d > 0 then o.(regs := o.regs + 1) else o.(deregs := o.deregs + 1)
  }

  function FetchCount(s: State, t: nat, i: nat, d: int): State
    requires Fits(s, t, i)
  {
    var slot := s.slots[i].(liveCount := Add32(s.slots[i].liveCount, d));
    Goto(Write(s, i, slot, CountUse(s.owner[i], d)), t, Idle)
  }

  function ReadCount(s: State, t: nat, id: GranuleId, i: nat): State
    requires Fits(s, t, i)
  {
    Goto(s, t, CloseCount(id, i, s.slots[i].liveCount))
  }

  function ClearCount(s: State, t: nat, id: GranuleId, i: nat, live: nat): State
    requires Fits(s, t, i)
  {
    Goto(Write(s, i, s.slots[i].(liveCount := 0), SetPhase(s.owner[i], id, Zeroed)), t, CloseId(id, i, live))
  }

  function ClearId(s: State, t: nat, id: GranuleId, i: nat, live: nat): State
    requires Fits(s, t, i)
  {
    Goto(Write(s, i, s.slots[i].(id := ZERO), SetPhase(s.owner[i], id, Unnamed)), t, CloseRelease(id, i, live))
  }

  /** A count that reads as the error value makes the close return before it counts. */
  function Release(s: State, t: nat, i: nat, live: nat): State
    requires Fits(s, t, i)
  {
    var s' := Write(s, i, s.slots[i].(occupied := false), Free);
    if live == UINT32_MAX then Goto(s', t, Idle).(leaked := s.leaked + 1)
    else Goto(s', t, UncountOpen(live))
  }

  function SubOpen(s: State, t: nat, live: nat): State
    requires t < |s.pcs|
  {
    Goto(s, t, CountClose(live)).(c := s.c.(open := Decrement64(s.c.open)))
  }

  function AddClose(s: State, t: nat, live: nat): State
    requires t < |s.pcs|
  {
    Goto(s, t, CountVerdict(live)).(c := s.c.(total := s.c.total + 1))
  }

  function AddVerdict(s: State, t: nat, live: nat): State
    requires t < |s.pcs|
  {
    var c := if live == 0 then s.c.(drainable := s.c.drainable + 1)
             else s.c.(pinned := s.c.pinned + 1);
    Goto(s, t, Idle).(c := c)
  }

  /** The next atomic access of thread `t`. */
  function Step(s: State, t: nat, spurious: bool): (r: (State, Event))
    requires Shape(s) && t < |s.pcs|
    ensures |r.0.owner| == |s.owner| && |r.0.pcs| == |s.pcs|
  {
    var n := |s.slots|;
    match s.pcs[t]
    case Idle => (s, Silent)
    case OpenLoad(id, p) => LoadOccupied(s, t, id, p, SlotAt(id, p, n))
    case OpenLoadId(id, p) => LoadId(s, t, id, p, SlotAt(id, p, n))
    case OpenCas(id, p) => CasOccupied(s, t, id, p, SlotAt(id, p, n))
    case OpenStoreId(id, i) => (StoreId(s, t, id, i), Silent)
    case OpenStoreCount(id, i) => (StoreCount(s, t, id, i), Silent)
    case CountOpen(id, i) => (AddOpen(s, t, id, i), Silent)
    case PeakLoad(id, i, open) => PeakTest(s, t, id, i, open, s.c.peak)
    case PeakCas(id, i, open, peak) => CasPeak(s, t, id, i, open, peak, spurious)
    case FindLoad(use, id, p) => FindOccupied(s, t, use, id, p, SlotAt(id, p, n))
    case FindLoadId(use, id, p) => FindId(s, t, use, id, p, SlotAt(id, p, n))
    case FetchAdd(id, i) => (FetchCount(s, t, i, 1), Silent)
    case FetchSub(id, i) => (FetchCount(s, t, i, -1), Silent)
    case CloseLoad(id, i) => (ReadCount(s, t, id, i), Silent)
    case CloseCount(id, i, live) => (ClearCount(s, t, id, i, live), Silent)
    case CloseId(id, i, live) => (ClearId(s, t, id, i, live), Silent)
    case CloseRelease(id, i, live) => (Release(s, t, i, live), Released(id, i, live))
    case UncountOpen(live) => (SubOpen(s, t, live), Silent)
    case CountClose(live) => (AddClose(s, t, live), Silent)
    case CountVerdict(live) => (AddVerdict(s, t, live), Silent)
  }

  // What the API contract lets a caller begin.

  function Opening(pc: Pc): Option<GranuleId> {
    match pc
    case OpenLoad(id, _) => Some(id)
    case OpenLoadId(id, _) => Some(id)
    case OpenCas(id, _) => Some(id)
    case OpenStoreId(id, _) => Some(id)
    case OpenStoreCount(id, _) => Some(id)
    case CountOpen(id, _) => Some(id)
    case PeakLoad(id, _, _) => Some(id)
    case PeakCas(id, _, _, _) => Some(id)
    case _ => None
  }

  function Closing(pc: Pc): Option<GranuleId> {
    match pc
    case FindLoad(Close, id, _) => Some(id)
    case FindLoadId(Close, id, _) => Some(id)
    case CloseLoad(id, _) => Some(id)
    case CloseCount(id, _, _) => Some(id)
    case CloseId(id, _, _) => Some(id)
    case CloseRelease(id, _, _) => Some(id)
    case _ => None
  }

  /** The granule a register, deregister or close call is at work on. */
  function Using(pc: Pc): Option<GranuleId> {
    match pc
    case FindLoad(_, id, _) => Some(id)
    case FindLoadId(_, id, _) => Some(id)
    case FetchAdd(id, _) => Some(id)
    case FetchSub(id, _) => Some(id)
    case _ => Closing(pc)
  }

  predicate HoldsId(o: Owner, id: GranuleId) {
    o.Held? && o.id == id
  }

  /** Some slot holds `id` and its open has returned. */
  ghost predicate IsOpen(owner: seq<Owner>, id: GranuleId) {
    exists i :: 0 <= i < |owner| && HoldsId(owner[i], id) && owner[i].phase == Opened
  }

  ghost predicate NotHeld(owner: seq<Owner>, id: GranuleId) {
    forall i :: 0 <= i < |owner| ==> !HoldsId(owner[i], id)
  }

  /** Ids are unique among open granules and those being opened. */
  ghost predicate MayOpen(s: State, id: GranuleId) {
    && NotHeld(s.owner, id)
    && forall t :: 0 <= t < |s.pcs| ==> Opening(s.pcs[t]) != Some(id)
  }

  /** Register and deregister come after the open has returned and before the close begins;
      a close begins when no other call for the granule is in flight. */
  ghost predicate MayUse(s: State, use: Use, id: GranuleId) {
    && IsOpen(s.owner, id)
    && forall t :: 0 <= t < |s.pcs| ==>
         Closing(s.pcs[t]) != Some(id) && (use == Close ==> Using(s.pcs[t]) != Some(id))
  }

  /** How many slots of its probe path an opener has passed for good. */
  function PassedSlots(pc: Pc): nat {
    match pc
    case OpenLoad(_, p) => p
    case OpenLoadId(_, p) => p + 1
    case OpenCas(_, p) => p
    case _ => 0
  }

  /** Releasing slot `i` leaves no gap on the probe path of another granule, nor behind an
      opener that has already passed it. */
  ghost predicate ReleaseSafe(s: State, i: nat)
    requires |s.owner| == |s.slots| && i < |s.slots|
  {
    && (forall k: nat :: k < |s.slots| && k != i && s.owner[k].Held? ==>
          Depth(s.owner[k].id, k, |s.slots|) <= Depth(s.owner[k].id, i, |s.slots|))
    && (forall t :: 0 <= t < |s.pcs| && Opening(s.pcs[t]).Some? ==>
          PassedSlots(s.pcs[t]) <= Depth(Opening(s.pcs[t]).value, i, |s.slots|))
  }

  /** A slot between its claim and the store of its id, or between the clearing of its id and
      its release, reads as a slot of granule zero. */
  predicate ShowsZero(o: Owner, id: GranuleId) {
    o.Held? && o.phase in {Claimed, Unnamed} && id == ZERO
  }

  /** The thread is not about to read the id of such a slot in search of granule zero. */
  predicate ReadSafe(s: State, t: nat)
    requires Shape(s) && t < |s.pcs|
  {
    match s.pcs[t]
    case OpenLoadId(id, p) => !ShowsZero(s.owner[SlotAt(id, p, |s.slots|)], id)
    case FindLoadId(_, id, p) => !ShowsZero(s.owner[SlotAt(id, p, |s.slots|)], id)
    case _ => true
  }

  ghost predicate Begins(s: State, s': State, t: nat) {
    && t < |s.pcs| && s.pcs[t] == Idle
    && exists pc ::
         && s' == Goto(s, t, pc)
         && (match pc
             case OpenLoad(id, p) => p == 0 && MayOpen(s, id)
             case FindLoad(use, id, p) => p == 0 && MayUse(s, use, id)
             case _ => false)
  }

  ghost predicate Moves(s: State, s': State, t: nat) {
    && Shape(s) && t < |s.pcs|
    && (exists spurious :: s' == Step(s, t, spurious).0)
    && (s.pcs[t].CloseRelease? ==> ReleaseSafe(s, s.pcs[t].slot))
    && ReadSafe(s, t)
  }

  ghost predicate Next(s: State, s': State) {
    exists t: nat :: Begins(s, s', t) || Moves(s, s', t)
  }

  ghost predicate Initial(s: State) {
    && |s.owner| == |s.slots|
    && (forall i :: 0 <= i < |s.slots| ==> s.slots[i] == EMPTY && s.owner[i] == Free)
    && (forall t :: 0 <= t < |s.pcs| ==> s.pcs[t] == Idle)
    && s.c == Counters(0, 0, 0, 0, 0) && s.highest == 0 && s.leaked == 0
  }

  ghost predicate Linked(run: seq<State>, k: nat) {
    k + 1 < |run| && Next(run[k], run[k + 1])
  }

  /** A finite execution from an initial state. */
  ghost predicate Execution(run: seq<State>) {
    && run != []
    && Initial(run[0])
    && forall k: nat :: k + 1 < |run| ==> Linked(run, k)
  }
}
