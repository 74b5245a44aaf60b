/** The global counters under interleaving: conservation and the peak. */
module StepsCounters {
  import opened Counting
  import opened Hash
  import opened Probe
  import opened Steps
  import opened StepsInvariant

  predicate Occupied(o: Owner) { o.Held? }

  /** A slot whose open has not yet incremented open_granules. */
  predicate Uncounted(o: Owner) {
    o.Held? && o.phase in {Claimed, Named, Stored}
  }

  predicate CountedSlot(o: Owner) {
    o.Held? && o.phase !in {Claimed, Named, Stored}
  }

  /** An opener past its claim that has not yet incremented open_granules. */
  predicate OpenerPending(pc: Pc) {
    pc.OpenStoreId? || pc.OpenStoreCount? || pc.CountOpen?
  }

  /** A closer past its release that has not yet decremented open_granules. */
  predicate CloserPending(pc: Pc) {
    pc.UncountOpen?
  }

  /** A closer between the increments of total_closes and of a verdict counter. */
  predicate VerdictPending(pc: Pc) {
    pc.CountVerdict?
  }

  /** A slot in the hands of an open or close that has not finished with it. */
  predicate Unsettled(o: Owner) {
    o.Held? && o.phase != Opened
  }

  /** The call that has such a slot in hand. */
  predicate Working(pc: Pc) {
    OpenerPending(pc) || RaisingPeak(pc) || pc.CloseId? || pc.CloseRelease?
  }

  /** An opener between its fetch-add and the end of the peak loop. */
  predicate RaisingPeak(pc: Pc) {
    pc.PeakLoad? || pc.PeakCas?
  }

  ghost predicate Conserved(s: State) {
    && s.c.open == Count(s.owner, CountedSlot) + Count(s.pcs, CloserPending) + s.leaked
    && Count(s.owner, Uncounted) == Count(s.pcs, OpenerPending)
    && Count(s.owner, Unsettled) == Count(s.pcs, Working)
    && s.c.total == s.c.drainable + s.c.pinned + Count(s.pcs, VerdictPending)
  }

  ghost predicate PeakInv(s: State) {
    && s.c.open <= s.highest
    && s.c.peak <= s.highest
    && (forall t :: 0 <= t < |s.pcs| && RaisingPeak(s.pcs[t]) ==> s.pcs[t].open <= s.highest)
    && (forall t :: 0 <= t < |s.pcs| && s.pcs[t].PeakCas? ==>
          s.pcs[t].peak <= s.c.peak && s.pcs[t].peak < s.pcs[t].open)
    && (s.c.peak == s.highest
        || exists t :: 0 <= t < |s.pcs| && RaisingPeak(s.pcs[t]) && s.pcs[t].open == s.highest)
  }

  // Conservation.

  function One(b: bool): nat {
    if b then 1 else 0
  }

  /** A step moves one thread to `pc` and gives slot `i` the owner `o`; the counters it
      moves balance the classes that the thread and the slot leave and enter. */
  ghost predicate Balanced(s: State, s': State, t: nat, pc: Pc, i: nat, o: Owner)
    requires t < |s.pcs| && i < |s.owner|
  {
    var before, owned := s.pcs[t], s.owner[i];
    && s'.c.open + One(CountedSlot(owned)) + One(CloserPending(before)) + s.leaked
       == s.c.open + One(CountedSlot(o)) + One(CloserPending(pc)) + s'.leaked
    && One(Uncounted(o)) + One(OpenerPending(before)) == One(Uncounted(owned)) + One(OpenerPending(pc))
    && One(Unsettled(o)) + One(Working(before)) == One(Unsettled(owned)) + One(Working(pc))
    && s'.c.total + s.c.drainable + s.c.pinned + One(VerdictPending(before))
       == s.c.total + s'.c.drainable + s'.c.pinned + One(VerdictPending(pc))
  }

  lemma ConserveBalanced(s: State, s': State, t: nat, pc: Pc, i: nat, o: Owner)
    requires Conserved(s) && t < |s.pcs| && i < |s.owner|
    requires s'.pcs == s.pcs[t := pc] && s'.owner == s.owner[i := o]
    requires Balanced(s, s', t, pc, i, o)
    ensures Conserved(s')
  {
    CountUpdate(s.owner, i, o, CountedSlot);
    CountUpdate(s.owner, i, o, Uncounted);
    CountUpdate(s.owner, i, o, Unsettled);
    CountUpdate(s.pcs, t, pc, Working);
    CountUpdate(s.pcs, t, pc, OpenerPending);
    CountUpdate(s.pcs, t, pc, CloserPending);
    CountUpdate(s.pcs, t, pc, VerdictPending);
  }

  /** A step that writes no slot. */
  lemma ConserveQuiet(s: State, s': State, t: nat, pc: Pc)
    requires Conserved(s) && t < |s.pcs| && 0 < |s.owner|
    requires s'.pcs == s.pcs[t := pc] && s'.owner == s.owner
    requires Balanced(s, s', t, pc, 0, s.owner[0])
    ensures Conserved(s')
  {
    assert s.owner[0 := s.owner[0]] == s.owner;
    ConserveBalanced(s, s', t, pc, 0, s.owner[0]);
  }

  /** A step that changes neither the counters nor any class. */
  lemma ConserveMove(s: State, t: nat, pc: Pc)
    requires Conserved(s) && t < |s.pcs| && 0 < |s.owner|
    requires !OpenerPending(s.pcs[t]) && !CloserPending(s.pcs[t]) && !VerdictPending(s.pcs[t])
    requires !OpenerPending(pc) && !CloserPending(pc) && !VerdictPending(pc)
    requires Working(pc) == Working(s.pcs[t])
    ensures Conserved(Goto(s, t, pc))
  {
    ConserveQuiet(s, Goto(s, t, pc), t, pc);
  }

  lemma SomePending(pcs: seq<Pc>, t: nat)
    requires t < |pcs| && CloserPending(pcs[t])
    ensures Count(pcs, CloserPending) >= 1
  {
    CountUpdate(pcs, t, Idle, CloserPending);
  }

  lemma ConserveProbe(s: State, t: nat, id: GranuleId, p: nat)
    requires Conserved(s) && t < |s.pcs| && 0 < |s.owner|
    requires s.pcs[t].OpenLoadId? || s.pcs[t].OpenCas?
    ensures Conserved(ProbeOn(s, t, id, p).0)
  {
    ConserveMove(s, t, if p + 1 < |s.slots| then OpenLoad(id, p + 1) else Idle);
  }

  lemma ConserveClaim(s: State, t: nat, id: GranuleId, p: nat)
    requires p < |s.slots| && Ready(s, t, OpenCas(id, p), SlotAt(id, p, |s.slots|)) && Conserved(s)
    ensures Conserved(CasOccupied(s, t, id, p, SlotAt(id, p, |s.slots|)).0)
  {
    var i := SlotAt(id, p, |s.slots|);
    assert SlotAgrees(s.slots[i], s.owner[i]);
    if s.slots[i].occupied {
      ConserveProbe(s, t, id, p);
    } else {
      ConserveBalanced(s, CasOccupied(s, t, id, p, i).0, t, OpenStoreId(id, i), i, Held(id, Claimed, 0, 0));
    }
  }

  lemma ConserveFinish(s: State, t: nat, id: GranuleId, i: nat)
    requires Conserved(s) && Fits(s, t, i) && RaisesPeak(s.pcs[t], id, i)
    requires IsAt(s.owner, id, i, Counted)
    ensures Conserved(FinishOpen(s, t, id, i).0)
  {
    ConserveBalanced(s, FinishOpen(s, t, id, i).0, t, Idle, i, SetPhase(s.owner[i], id, Opened));
  }

  lemma ConservePeakTest(s: State, t: nat, id: GranuleId, i: nat, open: nat, peak: nat)
    requires Conserved(s) && Fits(s, t, i) && RaisesPeak(s.pcs[t], id, i)
    requires IsAt(s.owner, id, i, Counted)
    ensures Conserved(PeakTest(s, t, id, i, open, peak).0)
  {
    if open > peak {
      ConserveMove(s, t, PeakCas(id, i, open, peak));
    } else {
      ConserveFinish(s, t, id, i);
    }
  }

  lemma ConserveStoreId(s: State, t: nat, id: GranuleId, i: nat)
    requires Conserved(s) && Fits(s, t, i) && s.pcs[t] == OpenStoreId(id, i) && Uncounted(s.owner[i])
    ensures Conserved(StoreId(s, t, id, i))
  {
    ConserveBalanced(s, StoreId(s, t, id, i), t, OpenStoreCount(id, i), i, SetPhase(s.owner[i], id, Named));
  }

  lemma ConserveStoreCount(s: State, t: nat, id: GranuleId, i: nat)
    requires Conserved(s) && Fits(s, t, i) && s.pcs[t] == OpenStoreCount(id, i) && Uncounted(s.owner[i])
    ensures Conserved(StoreCount(s, t, id, i))
  {
    ConserveBalanced(s, StoreCount(s, t, id, i), t, CountOpen(id, i), i, SetPhase(s.owner[i], id, Stored));
  }

  lemma ConserveAddOpen(s: State, t: nat, id: GranuleId, i: nat)
    requires Conserved(s) && Fits(s, t, i) && s.pcs[t] == CountOpen(id, i) && IsAt(s.owner, id, i, Stored)
    ensures Conserved(AddOpen(s, t, id, i))
  {
    ConserveBalanced(s, AddOpen(s, t, id, i), t, PeakLoad(id, i, s.c.open + 1), i,
                     SetPhase(s.owner[i], id, Counted));
  }

  lemma ConserveCasPeak(s: State, t: nat, id: GranuleId, i: nat, open: nat, peak: nat, spurious: bool)
    requires Conserved(s) && Fits(s, t, i) && s.pcs[t] == PeakCas(id, i, open, peak)
    requires IsAt(s.owner, id, i, Counted)
    ensures Conserved(CasPeak(s, t, id, i, open, peak, spurious).0)
  {
    if s.c.peak == peak && !spurious {
      ConserveFinish(s.(c := s.c.(peak := open)), t, id, i);
    } else {
      ConservePeakTest(s, t, id, i, open, s.c.peak);
    }
  }

  lemma ConserveLoad(s: State, t: nat, id: GranuleId, p: nat, i: nat)
    requires Conserved(s) && Fits(s, t, i) && s.pcs[t] == OpenLoad(id, p)
    ensures Conserved(LoadOccupied(s, t, id, p, i).0)
  {
    ConserveMove(s, t, if s.slots[i].occupied then OpenLoadId(id, p) else OpenCas(id, p));
  }

  lemma ConserveOpen(s: State, t: nat, spurious: bool)
    requires Inv(s) && Shape(s) && t < |s.pcs| && ReadSafe(s, t) && Conserved(s) && Opening(s.pcs[t]).Some?
    ensures Conserved(Step(s, t, spurious).0)
  {
    assert PcInv(s.owner, s.pcs[t]);
    match s.pcs[t]
    case OpenLoad(id, p) => ConserveLoad(s, t, id, p, SlotAt(id, p, |s.slots|));
    case OpenLoadId(id, p) =>
      KeepLoadId(s, t, id, p);
      ConserveProbe(s, t, id, p);
    case OpenCas(id, p) => ConserveClaim(s, t, id, p);
    case OpenStoreId(id, i) => ConserveStoreId(s, t, id, i);
    case OpenStoreCount(id, i) => ConserveStoreCount(s, t, id, i);
    case CountOpen(id, i) => ConserveAddOpen(s, t, id, i);
    case PeakLoad(id, i, open) => ConservePeakTest(s, t, id, i, open, s.c.peak);
    case PeakCas(id, i, open, peak) => ConserveCasPeak(s, t, id, i, open, peak, spurious);
  }

  lemma ConserveFindLoad(s: State, t: nat, use: Use, id: GranuleId, p: nat, i: nat)
    requires Conserved(s) && Fits(s, t, i) && s.pcs[t] == FindLoad(use, id, p)
    ensures Conserved(FindOccupied(s, t, use, id, p, i).0)
  {
    ConserveMove(s, t, if s.slots[i].occupied then FindLoadId(use, id, p) else Idle);
  }

  lemma ConserveFindId(s: State, t: nat, use: Use, id: GranuleId, p: nat, i: nat)
    requires Conserved(s) && Fits(s, t, i) && s.pcs[t] == FindLoadId(use, id, p)
    ensures Conserved(FindId(s, t, use, id, p, i).0)
  {
    ConserveMove(s, t, if s.slots[i].id == id then UseSlot(use, id, i)
                       else if p + 1 < |s.slots| then FindLoad(use, id, p + 1) else Idle);
  }

  lemma ConserveFetch(s: State, t: nat, i: nat, d: int)
    requires Conserved(s) && Fits(s, t, i) && (s.pcs[t].FetchAdd? || s.pcs[t].FetchSub?)
    ensures Conserved(FetchCount(s, t, i, d))
  {
    ConserveBalanced(s, FetchCount(s, t, i, d), t, Idle, i, CountUse(s.owner[i], d));
  }

  lemma ConserveClear(s: State, t: nat, id: GranuleId, i: nat, live: nat)
    requires Conserved(s) && Fits(s, t, i) && s.pcs[t] == CloseCount(id, i, live)
    requires IsAt(s.owner, id, i, Opened)
    ensures Conserved(ClearCount(s, t, id, i, live))
  {
    ConserveBalanced(s, ClearCount(s, t, id, i, live), t, CloseId(id, i, live), i,
                     SetPhase(s.owner[i], id, Zeroed));
  }

  lemma ConserveUnname(s: State, t: nat, id: GranuleId, i: nat, live: nat)
    requires Conserved(s) && Fits(s, t, i) && s.pcs[t] == CloseId(id, i, live)
    requires IsAt(s.owner, id, i, Zeroed)
    ensures Conserved(ClearId(s, t, id, i, live))
  {
    ConserveBalanced(s, ClearId(s, t, id, i, live), t, CloseRelease(id, i, live), i,
                     SetPhase(s.owner[i], id, Unnamed));
  }

  lemma ConserveRelease(s: State, t: nat, id: GranuleId, i: nat, live: nat)
    requires Conserved(s) && Fits(s, t, i) && IsAt(s.owner, id, i, Unnamed)
    requires s.pcs[t] == CloseRelease(id, i, live)
    ensures Conserved(Release(s, t, i, live))
  {
    ConserveBalanced(s, Release(s, t, i, live), t,
                     if live == UINT32_MAX then Idle else UncountOpen(live), i, Free);
  }

  lemma ConserveUse(s: State, t: nat, spurious: bool)
    requires Inv(s) && Shape(s) && t < |s.pcs| && Conserved(s) && Using(s.pcs[t]).Some?
    ensures Conserved(Step(s, t, spurious).0)
  {
    assert PcInv(s.owner, s.pcs[t]);
    match s.pcs[t]
    case FindLoad(use, id, p) => ConserveFindLoad(s, t, use, id, p, SlotAt(id, p, |s.slots|));
    case FindLoadId(use, id, p) => ConserveFindId(s, t, use, id, p, SlotAt(id, p, |s.slots|));
    case FetchAdd(id, i) => ConserveFetch(s, t, i, 1);
    case FetchSub(id, i) => ConserveFetch(s, t, i, -1);
    case CloseLoad(id, i) => ConserveMove(s, t, CloseCount(id, i, s.slots[i].liveCount));
    case CloseCount(id, i, live) => ConserveClear(s, t, id, i, live);
    case CloseId(id, i, live) => ConserveUnname(s, t, id, i, live);
    case CloseRelease(id, i, live) => ConserveRelease(s, t, id, i, live);
  }

  /** The counter steps of a close after its release. */
  lemma ConserveCount(s: State, t: nat, live: nat)
    requires Conserved(s) && t < |s.pcs| && 0 < |s.owner|
    ensures s.pcs[t] == UncountOpen(live) ==> Conserved(SubOpen(s, t, live))
    ensures s.pcs[t] == CountClose(live) ==> Conserved(AddClose(s, t, live))
    ensures s.pcs[t] == CountVerdict(live) ==> Conserved(AddVerdict(s, t, live))
  {
    if s.pcs[t] == UncountOpen(live) {
      SomePending(s.pcs, t);
      ConserveQuiet(s, SubOpen(s, t, live), t, CountClose(live));
    } else if s.pcs[t] == CountClose(live) {
      ConserveQuiet(s, AddClose(s, t, live), t, CountVerdict(live));
    } else if s.pcs[t] == CountVerdict(live) {
      ConserveQuiet(s, AddVerdict(s, t, live), t, Idle);
    }
  }

  lemma ConserveStep(s: State, t: nat, spurious: bool)
    requires Inv(s) && Shape(s) && t < |s.pcs| && ReadSafe(s, t) && Conserved(s)
    ensures Conserved(Step(s, t, spurious).0)
  {
    if Opening(s.pcs[t]).Some? {
      ConserveOpen(s, t, spurious);
    } else if Using(s.pcs[t]).Some? {
      ConserveUse(s, t, spurious);
    } else {
      match s.pcs[t]
      case Idle =>
      case UncountOpen(live) => ConserveCount(s, t, live);
      case CountClose(live) => ConserveCount(s, t, live);
      case CountVerdict(live) => ConserveCount(s, t, live);
    }
  }

  // The peak.

  /** A step that is not part of raising the peak. */
  lemma PeakQuiet(s: State, s': State, t: nat, pc: Pc)
    requires PeakInv(s) && t < |s.pcs|
    requires s'.pcs == s.pcs[t := pc] && !RaisingPeak(s.pcs[t]) && !RaisingPeak(pc)
    requires s'.c.peak == s.c.peak && s'.c.open <= s.c.open && s'.highest == s.highest
    ensures PeakInv(s')
  {
    if s.c.peak != s.highest {
      var u :| 0 <= u < |s.pcs| && RaisingPeak(s.pcs[u]) && s.pcs[u].open == s.highest;
      assert s'.pcs[u] == s.pcs[u];
    }
  }

  lemma PeakCounted(s: State, t: nat, id: GranuleId, i: nat)
    requires PeakInv(s) && Fits(s, t, i) && s.pcs[t] == CountOpen(id, i)
    ensures PeakInv(AddOpen(s, t, id, i))
  {
    var s' := AddOpen(s, t, id, i);
    assert RaisingPeak(s'.pcs[t]) && s'.pcs[t].open == s.c.open + 1;
    if s.c.peak != s.highest {
      var u :| 0 <= u < |s.pcs| && RaisingPeak(s.pcs[u]) && s.pcs[u].open == s.highest;
      assert s'.pcs[u] == s.pcs[u];
    }
  }

  /** The loop test: either the thread retries with the peak it read, or the peak has
      reached its value. */
  lemma PeakTested(s: State, t: nat, id: GranuleId, i: nat, open: nat)
    requires PeakInv(s) && Fits(s, t, i) && RaisesPeak(s.pcs[t], id, i) && s.pcs[t].open == open
    ensures PeakInv(PeakTest(s, t, id, i, open, s.c.peak).0)
  {
    var s' := PeakTest(s, t, id, i, open, s.c.peak).0;
    if s.c.peak != s.highest {
      var u :| 0 <= u < |s.pcs| && RaisingPeak(s.pcs[u]) && s.pcs[u].open == s.highest;
      assert u != t ==> s'.pcs[u] == s.pcs[u];
      if open > s.c.peak {
        assert RaisingPeak(s'.pcs[t]);
      }
    }
  }

  lemma PeakSwapped(s: State, t: nat, id: GranuleId, i: nat, open: nat, peak: nat)
    requires PeakInv(s) && Fits(s, t, i) && s.pcs[t] == PeakCas(id, i, open, peak) && s.c.peak == peak
    ensures PeakInv(FinishOpen(s.(c := s.c.(peak := open)), t, id, i).0)
  {
    var s' := FinishOpen(s.(c := s.c.(peak := open)), t, id, i).0;
    if open != s.highest {
      var u :| 0 <= u < |s.pcs| && RaisingPeak(s.pcs[u]) && s.pcs[u].open == s.highest;
      assert u != t && s'.pcs[u] == s.pcs[u];
    }
  }

  /** A step that moves thread `t` and has nothing to do with the peak. */
  ghost predicate OffPeak(s: State, s': State, t: nat) {
    && t < |s.pcs| == |s'.pcs|
    && s'.pcs == s.pcs[t := s'.pcs[t]]
    && !RaisingPeak(s.pcs[t]) && !RaisingPeak(s'.pcs[t])
    && s'.c.peak == s.c.peak && s'.c.open == s.c.open && s'.highest == s.highest
  }

  lemma OpenOffPeak(s: State, t: nat, spurious: bool)
    requires Inv(s) && Shape(s) && t < |s.pcs| && ReadSafe(s, t)
    requires || s.pcs[t].OpenLoad? || s.pcs[t].OpenLoadId? || s.pcs[t].OpenCas?
             || s.pcs[t].OpenStoreId? || s.pcs[t].OpenStoreCount?
    ensures OffPeak(s, Step(s, t, spurious).0, t)
  {
    match s.pcs[t]
    case OpenLoadId(id, p) => KeepLoadId(s, t, id, p);
    case _ =>
  }

  lemma SearchOffPeak(s: State, t: nat, use: Use, id: GranuleId, p: nat, i: nat)
    requires Fits(s, t, i)
    requires s.pcs[t] == FindLoad(use, id, p) || s.pcs[t] == FindLoadId(use, id, p)
    ensures OffPeak(s, FindOccupied(s, t, use, id, p, i).0, t)
    ensures OffPeak(s, FindId(s, t, use, id, p, i).0, t)
  {
    assert !RaisingPeak(UseSlot(use, id, i));
  }

  lemma CloseOffPeak(s: State, t: nat, id: GranuleId, i: nat, live: nat)
    requires Fits(s, t, i) && !RaisingPeak(s.pcs[t])
    ensures OffPeak(s, ReadCount(s, t, id, i), t)
    ensures OffPeak(s, ClearCount(s, t, id, i, live), t)
    ensures OffPeak(s, ClearId(s, t, id, i, live), t)
    ensures OffPeak(s, Release(s, t, i, live), t)
  {}

  lemma UseOffPeak(s: State, t: nat, spurious: bool)
    requires Inv(s) && Shape(s) && t < |s.pcs| && Using(s.pcs[t]).Some?
    ensures OffPeak(s, Step(s, t, spurious).0, t)
  {
    match s.pcs[t]
    case FindLoad(use, id, p) => SearchOffPeak(s, t, use, id, p, SlotAt(id, p, |s.slots|));
    case FindLoadId(use, id, p) => SearchOffPeak(s, t, use, id, p, SlotAt(id, p, |s.slots|));
    case FetchAdd(id, i) =>
    case FetchSub(id, i) =>
    case CloseLoad(id, i) => CloseOffPeak(s, t, id, i, 0);
    case CloseCount(id, i, live) => CloseOffPeak(s, t, id, i, live);
    case CloseId(id, i, live) => CloseOffPeak(s, t, id, i, live);
    case CloseRelease(id, i, live) => CloseOffPeak(s, t, id, i, live);
  }

  lemma PeakRaised(s: State, t: nat, spurious: bool)
    requires Inv(s) && Shape(s) && t < |s.pcs| && PeakInv(s) && RaisingPeak(s.pcs[t])
    ensures PeakInv(Step(s, t, spurious).0)
  {
    match s.pcs[t]
    case PeakLoad(id, i, open) => PeakTested(s, t, id, i, open);
    case PeakCas(id, i, open, peak) =>
      if s.c.peak == peak && !spurious {
        PeakSwapped(s, t, id, i, open, peak);
      } else {
        PeakTested(s, t, id, i, open);
      }
  }

  lemma PeakStepKeeps(s: State, t: nat, spurious: bool)
    requires Inv(s) && Shape(s) && t < |s.pcs| && ReadSafe(s, t) && PeakInv(s) && Conserved(s)
    ensures PeakInv(Step(s, t, spurious).0)
  {
    var s' := Step(s, t, spurious).0;
    if RaisingPeak(s.pcs[t]) {
      PeakRaised(s, t, spurious);
    } else if s.pcs[t].CountOpen? {
      PeakCounted(s, t, s.pcs[t].id, s.pcs[t].slot);
    } else if s.pcs[t].UncountOpen? {
      SomePending(s.pcs, t);
      PeakQuiet(s, s', t, CountClose(s.pcs[t].live));
    } else if s.pcs[t] != Idle {
      if Opening(s.pcs[t]).Some? {
        OpenOffPeak(s, t, spurious);
      } else if Using(s.pcs[t]).Some? {
        UseOffPeak(s, t, spurious);
      }
      PeakQuiet(s, s', t, s'.pcs[t]);
    }
  }

  // Every reachable state.

  lemma InitialCounts(s: State)
    requires Initial(s)
    ensures Conserved(s) && PeakInv(s)
  {
    CountNone(s.owner, CountedSlot);
    CountNone(s.owner, Uncounted);
    CountNone(s.owner, Unsettled);
    CountNone(s.pcs, Working);
    CountNone(s.pcs, OpenerPending);
    CountNone(s.pcs, CloserPending);
    CountNone(s.pcs, VerdictPending);
  }

  lemma BeginCounts(s: State, s': State, t: nat)
    requires Inv(s) && Conserved(s) && PeakInv(s) && Begins(s, s', t)
    ensures Conserved(s') && PeakInv(s')
  {
    var pc := s'.pcs[t];
    ConserveMove(s, t, pc);
    PeakQuiet(s, s', t, pc);
  }

  lemma NextCounts(s: State, s': State)
    requires Inv(s) && Conserved(s) && PeakInv(s) && Next(s, s')
    ensures Conserved(s') && PeakInv(s')
  {
    var t: nat :| Begins(s, s', t) || Moves(s, s', t);
    if Begins(s, s', t) {
      BeginCounts(s, s', t);
    } else {
      var spurious :| s' == Step(s, t, spurious).0;
      ConserveStep(s, t, spurious);
      PeakStepKeeps(s, t, spurious);
    }
  }

  /** The counters are conserved at every state of every interleaving. */
  lemma {:induction false} ReachableCounts(run: seq<State>, k: nat)
    requires Execution(run) && k < |run|
    ensures Inv(run[k]) && Conserved(run[k]) && PeakInv(run[k])
  {
    ReachableInv(run, k);
    if k == 0 {
      InitialCounts(run[0]);
    } else {
      ReachableCounts(run, k - 1);
      assert Linked(run, k - 1);
      NextCounts(run[k - 1], run[k]);
    }
  }
}
