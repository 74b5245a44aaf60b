/** The invariant of every interleaving that obeys the contract. */
module StepsInvariant {
  import opened Hash
  import opened Probe
  import opened SlotTable
  import opened Steps

  /** What the memory of a slot shows in each phase of its owner. */
  predicate SlotAgrees(slot: Slot, o: Owner) {
    match o
    case Free => slot == EMPTY
    case Held(id, phase, regs, deregs) =>
      && slot.occupied
      && slot.id == (if phase == Claimed || phase == Unnamed then ZERO else id)
      && slot.liveCount == (if phase == Opened then Low32(regs - deregs) else 0)
      && (phase !in {Opened, Zeroed, Unnamed} ==> regs == 0 && deregs == 0)
  }

  /** Distinct slots are held for distinct granules. */
  ghost predicate Unique(owner: seq<Owner>) {
    forall i, j ::
      (&& 0 <= i < |owner| && 0 <= j < |owner|
       && owner[i].Held? && owner[j].Held? && owner[i].id == owner[j].id) ==> i == j
  }

  /** Every slot from the home of a granule up to its own is held. */
  ghost predicate NoGaps(owner: seq<Owner>) {
    forall i: nat, k: nat ::
      (&& i < |owner| && k < |owner| && owner[i].Held?
       && Depth(owner[i].id, k, |owner|) < Depth(owner[i].id, i, |owner|)) ==> owner[k].Held?
  }

  /** An opener has passed the first `p` slots of its path, which stay held. */
  ghost predicate Scanned(owner: seq<Owner>, id: GranuleId, p: nat) {
    && NotHeld(owner, id)
    && forall k: nat :: k < |owner| && Depth(id, k, |owner|) < p ==> owner[k].Held?
  }

  /** A searcher has not yet passed the slot of its granule, whose open has returned. */
  ghost predicate Ahead(owner: seq<Owner>, id: GranuleId, p: nat) {
    exists i: nat :: i < |owner| && IsAt(owner, id, i, Opened) && p <= Depth(id, i, |owner|)
  }

  predicate IsAt(owner: seq<Owner>, id: GranuleId, i: nat, phase: Phase) {
    i < |owner| && HoldsId(owner[i], id) && owner[i].phase == phase
  }

  /** The live count a close of slot `i` has to report. */
  predicate Reports(owner: seq<Owner>, i: nat, live: nat) {
    i < |owner| && owner[i].Held? && live == Low32(owner[i].regs - owner[i].deregs)
  }

  ghost predicate PcInv(owner: seq<Owner>, pc: Pc) {
    match pc
    case OpenLoad(id, p) => p < |owner| && Scanned(owner, id, p)
    case OpenLoadId(id, p) => p < |owner| && Scanned(owner, id, p + 1)
    case OpenCas(id, p) => p < |owner| && Scanned(owner, id, p)
    case OpenStoreId(id, i) => IsAt(owner, id, i, Claimed)
    case OpenStoreCount(id, i) => IsAt(owner, id, i, Named)
    case CountOpen(id, i) => IsAt(owner, id, i, Stored)
    case PeakLoad(id, i, _) => IsAt(owner, id, i, Counted)
    case PeakCas(id, i, _, _) => IsAt(owner, id, i, Counted)
    case FindLoad(_, id, p) => p < |owner| && Ahead(owner, id, p)
    case FindLoadId(_, id, p) => p < |owner| && Ahead(owner, id, p)
    case FetchAdd(id, i) => IsAt(owner, id, i, Opened)
    case FetchSub(id, i) => IsAt(owner, id, i, Opened)
    case CloseLoad(id, i) => IsAt(owner, id, i, Opened)
    case CloseCount(id, i, live) => IsAt(owner, id, i, Opened) && Reports(owner, i, live)
    case CloseId(id, i, live) => IsAt(owner, id, i, Zeroed) && Reports(owner, i, live)
    case CloseRelease(id, i, live) => IsAt(owner, id, i, Unnamed) && Reports(owner, i, live)
    case _ => true
  }

  /** Two threads never open the same granule, and a closer has its granule to itself. */
  predicate Compatible(a: Pc, b: Pc) {
    && (Opening(a).Some? ==> Opening(a) != Opening(b))
    && (Closing(a).Some? ==> Closing(a) != Using(b))
    && (Closing(b).Some? ==> Closing(b) != Using(a))
  }

  ghost predicate Apart(pcs: seq<Pc>) {
    forall t, u :: 0 <= t < |pcs| && 0 <= u < |pcs| && t != u ==> Compatible(pcs[t], pcs[u])
  }

  ghost predicate Inv(s: State) {
    && |s.owner| == |s.slots|
    && (forall i :: 0 <= i < |s.slots| ==> SlotAgrees(s.slots[i], s.owner[i]))
    && Unique(s.owner) && NoGaps(s.owner)
    && (forall t :: 0 <= t < |s.pcs| ==> PcInv(s.owner, s.pcs[t]))
    && Apart(s.pcs)
  }

  lemma InvShape(s: State)
    requires Inv(s)
    ensures Shape(s)
  {
    forall t | 0 <= t < |s.pcs|
      ensures InRange(s.pcs[t], |s.slots|)
    {
      assert PcInv(s.owner, s.pcs[t]);
    }
  }

  // What a change of one owner does to the other threads.

  /** The thread is at work on `id`. */
  predicate Concerns(pc: Pc, id: GranuleId) {
    Opening(pc) == Some(id) || Using(pc) == Some(id)
  }

  lemma FrameOther(owner: seq<Owner>, i: nat, o: Owner, pc: Pc)
    requires i < |owner| && owner[i].Held? && o.Held? && o.id == owner[i].id
    requires PcInv(owner, pc) && !Concerns(pc, o.id)
    ensures PcInv(owner[i := o], pc)
  {
    var owner' := owner[i := o];
    if Opening(pc).Some? {
      forall k | 0 <= k < |owner'|
        ensures HoldsId(owner'[k], Opening(pc).value) == HoldsId(owner[k], Opening(pc).value)
      {}
    } else if pc.FindLoad? || pc.FindLoadId? {
      var k: nat :| k < |owner| && IsAt(owner, pc.id, k, Opened) && pc.probe <= Depth(pc.id, k, |owner|);
      assert IsAt(owner', pc.id, k, Opened);
    }
  }

  /** A count changes under other registers and deregisters of the same granule. */
  lemma FrameCount(owner: seq<Owner>, i: nat, o: Owner, pc: Pc)
    requires i < |owner| && owner[i].Held? && o.Held? && o.id == owner[i].id
    requires owner[i].phase == Opened && o.phase == Opened
    requires PcInv(owner, pc) && Unique(owner) && Closing(pc) != Some(o.id)
    ensures PcInv(owner[i := o], pc)
  {
    var owner' := owner[i := o];
    if Using(pc) == Some(o.id) {
      if pc.FindLoad? || pc.FindLoadId? {
        var k: nat :| k < |owner| && IsAt(owner, pc.id, k, Opened) && pc.probe <= Depth(pc.id, k, |owner|);
        assert IsAt(owner', pc.id, k, Opened);
      }
    } else {
      assert Opening(pc) != Some(o.id);
      FrameOther(owner, i, o, pc);
    }
  }

  lemma FrameClaim(owner: seq<Owner>, i: nat, id: GranuleId, pc: Pc)
    requires i < |owner| && owner[i].Free?
    requires PcInv(owner, pc) && Opening(pc) != Some(id)
    ensures PcInv(owner[i := Held(id, Claimed, 0, 0)], pc)
  {
    var owner' := owner[i := Held(id, Claimed, 0, 0)];
    if pc.FindLoad? || pc.FindLoadId? {
      var k: nat :| k < |owner| && IsAt(owner, pc.id, k, Opened) && pc.probe <= Depth(pc.id, k, |owner|);
      assert IsAt(owner', pc.id, k, Opened);
    }
  }

  lemma FrameRelease(owner: seq<Owner>, i: nat, pc: Pc)
    requires i < |owner| && owner[i].Held?
    requires PcInv(owner, pc) && !Concerns(pc, owner[i].id)
    requires Opening(pc).Some? ==> PassedSlots(pc) <= Depth(Opening(pc).value, i, |owner|)
    ensures PcInv(owner[i := Free], pc)
  {
    var owner' := owner[i := Free];
    if pc.FindLoad? || pc.FindLoadId? {
      var k: nat :| k < |owner| && IsAt(owner, pc.id, k, Opened) && pc.probe <= Depth(pc.id, k, |owner|);
      assert IsAt(owner', pc.id, k, Opened);
    }
  }

  /** The phase of a slot tells opens from the calls that follow them. */
  lemma PhaseTells(owner: seq<Owner>, i: nat, pc: Pc)
    requires i < |owner| && owner[i].Held? && Unique(owner) && PcInv(owner, pc)
    ensures Opening(pc) == Some(owner[i].id) ==> owner[i].phase in {Claimed, Named, Stored, Counted}
    ensures Using(pc) == Some(owner[i].id) ==> owner[i].phase in {Opened, Zeroed, Unnamed}
  {}

  /** A thread that opens or closes a granule is the only one at work on it. */
  lemma Alone(s: State, t: nat, u: nat, i: nat)
    requires Inv(s) && t < |s.pcs| && u < |s.pcs| && t != u
    requires i < |s.owner| && s.owner[i].Held?
    requires Opening(s.pcs[t]) == Some(s.owner[i].id) || Closing(s.pcs[t]) == Some(s.owner[i].id)
    ensures !Concerns(s.pcs[u], s.owner[i].id)
  {
    assert Compatible(s.pcs[t], s.pcs[u]);
    PhaseTells(s.owner, i, s.pcs[t]);
    PhaseTells(s.owner, i, s.pcs[u]);
  }

  // The four kinds of step.

  /** The thread goes on with the granule it was at work on, or with none. */
  predicate Narrows(pc: Pc, pc': Pc) {
    && Opening(pc') in {None, Opening(pc)}
    && Closing(pc') in {None, Closing(pc)}
    && Using(pc') in {None, Using(pc)}
  }

  lemma StaysApart(pcs: seq<Pc>, t: nat, pc: Pc)
    requires Apart(pcs) && t < |pcs| && Narrows(pcs[t], pc)
    ensures Apart(pcs[t := pc])
  {
    forall u | 0 <= u < |pcs| && u != t
      ensures Compatible(pc, pcs[u]) && Compatible(pcs[u], pc)
    {
      assert Compatible(pcs[t], pcs[u]) && Compatible(pcs[u], pcs[t]);
    }
  }

  /** No slot changes. */
  lemma KeepQuiet(s: State, s': State, t: nat, pc: Pc)
    requires Inv(s) && t < |s.pcs| && Narrows(s.pcs[t], pc) && PcInv(s.owner, pc)
    requires s'.slots == s.slots && s'.owner == s.owner && s'.pcs == s.pcs[t := pc]
    ensures Inv(s')
  {
    StaysApart(s.pcs, t, pc);
  }

  /** Slot `i` changes in the hands of its owner. */
  lemma KeepRewrite(s: State, s': State, t: nat, i: nat, slot: Slot, o: Owner, pc: Pc)
    requires Inv(s) && t < |s.pcs| && Narrows(s.pcs[t], pc)
    requires i < |s.owner| && s.owner[i].Held? && o.Held? && o.id == s.owner[i].id
    requires SlotAgrees(slot, o) && PcInv(s.owner[i := o], pc)
    requires || Opening(s.pcs[t]) == Some(o.id)
             || Closing(s.pcs[t]) == Some(o.id)
             || (Using(s.pcs[t]) == Some(o.id) && s.owner[i].phase == o.phase == Opened)
    requires s'.slots == s.slots[i := slot] && s'.owner == s.owner[i := o] && s'.pcs == s.pcs[t := pc]
    ensures Inv(s')
  {
    StaysApart(s.pcs, t, pc);
    forall u | 0 <= u < |s.pcs|
      ensures PcInv(s'.owner, s'.pcs[u])
    {
      if u != t {
        if Opening(s.pcs[t]) == Some(o.id) || Closing(s.pcs[t]) == Some(o.id) {
          Alone(s, t, u, i);
          FrameOther(s.owner, i, o, s.pcs[u]);
        } else {
          assert Compatible(s.pcs[t], s.pcs[u]);
          FrameCount(s.owner, i, o, s.pcs[u]);
        }
      }
    }
  }

  /** Slot `i` is claimed by an opener that has scanned every slot before it. */
  lemma KeepClaim(s: State, s': State, t: nat, i: nat, id: GranuleId)
    requires Inv(s) && t < |s.pcs| && Opening(s.pcs[t]) == Some(id)
    requires i < |s.owner| && s.owner[i].Free?
    requires Scanned(s.owner, id, Depth(id, i, |s.owner|))
    requires s'.slots == s.slots[i := s.slots[i].(occupied := true)]
    requires s'.owner == s.owner[i := Held(id, Claimed, 0, 0)]
    requires s'.pcs == s.pcs[t := OpenStoreId(id, i)]
    ensures Inv(s')
  {
    StaysApart(s.pcs, t, OpenStoreId(id, i));
    forall u | 0 <= u < |s.pcs|
      ensures PcInv(s'.owner, s'.pcs[u])
    {
      if u != t {
        assert Compatible(s.pcs[t], s.pcs[u]);
        FrameClaim(s.owner, i, id, s.pcs[u]);
      }
    }
    forall k | 0 <= k < |s.owner|
      ensures !HoldsId(s.owner[k], id)
    {}
  }

  lemma KeepRelease(s: State, s': State, t: nat, pc: Pc)
    requires Inv(s) && t < |s.pcs| && s.pcs[t].CloseRelease?
    requires Shape(s) && ReleaseSafe(s, s.pcs[t].slot)
    requires pc == Idle || pc.UncountOpen?
    requires var i := s.pcs[t].slot;
      && s'.slots == s.slots[i := s.slots[i].(occupied := false)]
      && s'.owner == s.owner[i := Free]
    requires s'.pcs == s.pcs[t := pc]
    ensures Inv(s')
  {
    var i := s.pcs[t].slot;
    assert PcInv(s.owner, s.pcs[t]);
    StaysApart(s.pcs, t, pc);
    forall u | 0 <= u < |s.pcs|
      ensures PcInv(s'.owner, s'.pcs[u])
    {
      if u != t {
        Alone(s, t, u, i);
        FrameRelease(s.owner, i, s.pcs[u]);
      }
    }
  }

  lemma FreeNotBefore(owner: seq<Owner>, i: nat, k: nat)
    requires NoGaps(owner) && i < |owner| && k < |owner| && owner[i].Free? && owner[k].Held?
    ensures Depth(owner[k].id, k, |owner|) <= Depth(owner[k].id, i, |owner|)
  {}

  /** If the invariant holds after a release, the release left no gap behind. */
  lemma ReleaseWasSafe(s: State, t: nat, id: GranuleId, i: nat, live: nat)
    requires Inv(s) && Fits(s, t, i) && s.pcs[t] == CloseRelease(id, i, live)
    requires Inv(Release(s, t, i, live))
    ensures ReleaseSafe(s, i)
  {
    var owner' := s.owner[i := Free];
    assert Release(s, t, i, live).owner == owner';
    forall k: nat | k < |s.slots| && k != i && s.owner[k].Held?
      ensures Depth(s.owner[k].id, k, |s.slots|) <= Depth(s.owner[k].id, i, |s.slots|)
    {
      FreeNotBefore(owner', i, k);
    }
    forall u | 0 <= u < |s.pcs| && Opening(s.pcs[u]).Some?
      ensures PassedSlots(s.pcs[u]) <= Depth(Opening(s.pcs[u]).value, i, |s.slots|)
    {
      assert u != t && PcInv(owner', Release(s, t, i, live).pcs[u]);
    }
  }

  /** The exact effect of a concurrent close: the invariant survives the release of a slot if
      and only if the slot is neither on the path of another granule nor behind an opener
      that has passed it. */
  lemma ReleaseKeepsIff(s: State, t: nat, id: GranuleId, i: nat, live: nat)
    requires Inv(s) && Fits(s, t, i) && s.pcs[t] == CloseRelease(id, i, live)
    ensures Inv(Release(s, t, i, live)) <==> ReleaseSafe(s, i)
  {
    InvShape(s);
    if ReleaseSafe(s, i) {
      KeepRelease(s, Release(s, t, i, live), t, if live == UINT32_MAX then Idle else UncountOpen(live));
    }
    if Inv(Release(s, t, i, live)) {
      ReleaseWasSafe(s, t, id, i, live);
    }
  }

  // Every step keeps the invariant.

  /** Thread `t` is about to take the step `pc`, on slot `i`. */
  ghost predicate Ready(s: State, t: nat, pc: Pc, i: nat) {
    Inv(s) && Fits(s, t, i) && s.pcs[t] == pc
  }

  lemma ScannedNext(s: State, id: GranuleId, p: nat)
    requires Inv(s) && p < |s.owner| && Scanned(s.owner, id, p)
    requires s.slots[SlotAt(id, p, |s.slots|)].occupied
    ensures Scanned(s.owner, id, p + 1)
  {
    var n := |s.owner|;
    var i := SlotAt(id, p, n);
    assert SlotAgrees(s.slots[i], s.owner[i]);
    forall k: nat | k < n && Depth(id, k, n) < p + 1
      ensures s.owner[k].Held?
    {
      WalkMeetsEachIndexOnce(Home(id, n), k, p, n);
    }
  }

  /** An opener that has scanned the whole path has seen every slot held. */
  lemma ScannedAll(s: State, id: GranuleId)
    requires Inv(s) && Scanned(s.owner, id, |s.owner|)
    ensures forall i :: 0 <= i < |s.slots| ==> s.slots[i].occupied
  {
    forall i: nat | i < |s.slots|
      ensures s.slots[i].occupied
    {
      assert Depth(id, i, |s.owner|) < |s.owner|;
      assert SlotAgrees(s.slots[i], s.owner[i]);
    }
  }

  lemma KeepLoadOccupied(s: State, t: nat, id: GranuleId, p: nat)
    requires p < |s.slots| && Ready(s, t, OpenLoad(id, p), SlotAt(id, p, |s.slots|))
    ensures Inv(LoadOccupied(s, t, id, p, SlotAt(id, p, |s.slots|)).0)
  {
    var i := SlotAt(id, p, |s.slots|);
    assert PcInv(s.owner, s.pcs[t]);
    if s.slots[i].occupied {
      ScannedNext(s, id, p);
      KeepQuiet(s, LoadOccupied(s, t, id, p, i).0, t, OpenLoadId(id, p));
    } else {
      KeepQuiet(s, LoadOccupied(s, t, id, p, i).0, t, OpenCas(id, p));
    }
  }

  /** An opener moves on, or has found every slot occupied. */
  lemma KeepProbeOn(s: State, t: nat, id: GranuleId, p: nat)
    requires Inv(s) && t < |s.pcs| && Opening(s.pcs[t]) == Some(id) && Using(s.pcs[t]) == None
    requires p < |s.slots| && Scanned(s.owner, id, p + 1)
    ensures Inv(ProbeOn(s, t, id, p).0)
    ensures ProbeOn(s, t, id, p).1.OpenFull? ==>
              forall i :: 0 <= i < |s.slots| ==> s.slots[i].occupied
  {
    if p + 1 < |s.slots| {
      KeepQuiet(s, ProbeOn(s, t, id, p).0, t, OpenLoad(id, p + 1));
    } else {
      ScannedAll(s, id);
      KeepQuiet(s, ProbeOn(s, t, id, p).0, t, Idle);
    }
  }

  /** A held slot shows no id but its owner's, or zero. */
  lemma NotMine(slot: Slot, o: Owner, id: GranuleId)
    requires SlotAgrees(slot, o) && o.Held? && !HoldsId(o, id) && !ShowsZero(o, id)
    ensures slot.id != id
  {}

  lemma KeepLoadId(s: State, t: nat, id: GranuleId, p: nat)
    requires p < |s.slots| && Ready(s, t, OpenLoadId(id, p), SlotAt(id, p, |s.slots|))
    requires !ShowsZero(s.owner[SlotAt(id, p, |s.slots|)], id)
    ensures s.slots[SlotAt(id, p, |s.slots|)].id != id
    ensures Inv(LoadId(s, t, id, p, SlotAt(id, p, |s.slots|)).0)
  {
    var i := SlotAt(id, p, |s.slots|);
    assert PcInv(s.owner, s.pcs[t]);
    assert s.owner[i].Held? && !HoldsId(s.owner[i], id);
    NotMine(s.slots[i], s.owner[i], id);
    KeepProbeOn(s, t, id, p);
  }

  lemma KeepCasOccupied(s: State, t: nat, id: GranuleId, p: nat)
    requires p < |s.slots| && Ready(s, t, OpenCas(id, p), SlotAt(id, p, |s.slots|))
    ensures Inv(CasOccupied(s, t, id, p, SlotAt(id, p, |s.slots|)).0)
  {
    var i := SlotAt(id, p, |s.slots|);
    assert PcInv(s.owner, s.pcs[t]);
    assert SlotAgrees(s.slots[i], s.owner[i]);
    if s.slots[i].occupied {
      ScannedNext(s, id, p);
      KeepProbeOn(s, t, id, p);
    } else {
      KeepClaim(s, CasOccupied(s, t, id, p, i).0, t, i, id);
    }
  }

  lemma KeepStoreId(s: State, t: nat, id: GranuleId, i: nat)
    requires Ready(s, t, OpenStoreId(id, i), i)
    ensures Inv(StoreId(s, t, id, i))
  {
    assert PcInv(s.owner, s.pcs[t]) && SlotAgrees(s.slots[i], s.owner[i]);
    KeepRewrite(s, StoreId(s, t, id, i), t, i, s.slots[i].(id := id),
                SetPhase(s.owner[i], id, Named), OpenStoreCount(id, i));
  }

  lemma KeepStoreCount(s: State, t: nat, id: GranuleId, i: nat)
    requires Ready(s, t, OpenStoreCount(id, i), i)
    ensures Inv(StoreCount(s, t, id, i))
  {
    assert PcInv(s.owner, s.pcs[t]) && SlotAgrees(s.slots[i], s.owner[i]);
    KeepRewrite(s, StoreCount(s, t, id, i), t, i, s.slots[i].(liveCount := 0),
                SetPhase(s.owner[i], id, Stored), CountOpen(id, i));
  }

  lemma KeepAddOpen(s: State, t: nat, id: GranuleId, i: nat)
    requires Ready(s, t, CountOpen(id, i), i)
    ensures Inv(AddOpen(s, t, id, i))
  {
    assert PcInv(s.owner, s.pcs[t]) && SlotAgrees(s.slots[i], s.owner[i]);
    KeepRewrite(s, AddOpen(s, t, id, i), t, i, s.slots[i],
                SetPhase(s.owner[i], id, Counted), PeakLoad(id, i, s.c.open + 1));
  }

  /** The peak itself does not matter to the invariant. */
  lemma KeepFinishOpen(s: State, s': State, t: nat, id: GranuleId, i: nat)
    requires Inv(s) && Fits(s, t, i) && RaisesPeak(s.pcs[t], id, i)
    requires s'.slots == s.slots && s'.owner == s.owner && s'.pcs == s.pcs
    ensures Inv(FinishOpen(s', t, id, i).0)
  {
    assert PcInv(s.owner, s.pcs[t]) && SlotAgrees(s.slots[i], s.owner[i]);
    KeepRewrite(s, FinishOpen(s', t, id, i).0, t, i, s.slots[i], SetPhase(s.owner[i], id, Opened), Idle);
  }

  predicate RaisesPeak(pc: Pc, id: GranuleId, i: nat) {
    (pc.PeakLoad? || pc.PeakCas?) && pc.id == id && pc.slot == i
  }

  lemma KeepPeakTest(s: State, t: nat, id: GranuleId, i: nat, open: nat, peak: nat)
    requires Inv(s) && Fits(s, t, i) && RaisesPeak(s.pcs[t], id, i)
    ensures Inv(PeakTest(s, t, id, i, open, peak).0)
  {
    if open > peak {
      assert PcInv(s.owner, s.pcs[t]);
      KeepQuiet(s, PeakTest(s, t, id, i, open, peak).0, t, PeakCas(id, i, open, peak));
    } else {
      KeepFinishOpen(s, s, t, id, i);
    }
  }

  lemma KeepCasPeak(s: State, t: nat, id: GranuleId, i: nat, open: nat, peak: nat, spurious: bool)
    requires Ready(s, t, PeakCas(id, i, open, peak), i)
    ensures Inv(CasPeak(s, t, id, i, open, peak, spurious).0)
  {
    if s.c.peak == peak && !spurious {
      KeepFinishOpen(s, s.(c := s.c.(peak := open)), t, id, i);
    } else {
      KeepPeakTest(s, t, id, i, open, s.c.peak);
    }
  }

  /** A searcher meets no empty slot before its granule. */
  lemma SearchOccupied(s: State, id: GranuleId, p: nat)
    requires Inv(s) && p < |s.owner| && Ahead(s.owner, id, p)
    ensures s.slots[SlotAt(id, p, |s.slots|)].occupied
  {
    var n := |s.owner|;
    var i := SlotAt(id, p, n);
    var k: nat :| k < n && IsAt(s.owner, id, k, Opened) && p <= Depth(id, k, n);
    assert SlotAgrees(s.slots[i], s.owner[i]) && SlotAgrees(s.slots[k], s.owner[k]);
    WalkMeetsEachIndexOnce(Home(id, n), k, p, n);
  }

  /** No slot but its own shows the id of an open granule. */
  lemma SearchMatch(s: State, id: GranuleId, p: nat)
    requires Inv(s) && p < |s.owner| && Ahead(s.owner, id, p)
    requires !ShowsZero(s.owner[SlotAt(id, p, |s.slots|)], id)
    ensures var i := SlotAt(id, p, |s.slots|);
      if s.slots[i].id == id then IsAt(s.owner, id, i, Opened)
      else p + 1 < |s.owner| && Ahead(s.owner, id, p + 1)
  {
    var n := |s.owner|;
    var i := SlotAt(id, p, n);
    SearchOccupied(s, id, p);
    var k: nat :| k < n && IsAt(s.owner, id, k, Opened) && p <= Depth(id, k, n);
    assert SlotAgrees(s.slots[i], s.owner[i]);
    if i == k {
      assert s.slots[i].id == id;
    } else {
      NotMine(s.slots[i], s.owner[i], id);
      assert p + 1 <= Depth(id, k, n) by {
        WalkMeetsEachIndexOnce(Home(id, n), k, p, n);
      }
    }
  }

  /** A search goes on within the same call. */
  lemma SearchNarrows(use: Use, id: GranuleId, p: nat, p': nat, i: nat)
    ensures Narrows(FindLoad(use, id, p), FindLoadId(use, id, p))
    ensures Narrows(FindLoadId(use, id, p), FindLoad(use, id, p'))
    ensures Narrows(FindLoadId(use, id, p), UseSlot(use, id, i))
  {}

  /** A search never meets an empty slot. */
  lemma KeepFindOccupied(s: State, t: nat, use: Use, id: GranuleId, p: nat)
    requires p < |s.slots| && Ready(s, t, FindLoad(use, id, p), SlotAt(id, p, |s.slots|))
    ensures var (s', event) := FindOccupied(s, t, use, id, p, SlotAt(id, p, |s.slots|));
      Inv(s') && event == Silent
  {
    assert PcInv(s.owner, s.pcs[t]);
    SearchOccupied(s, id, p);
    SearchNarrows(use, id, p, 0, 0);
    KeepQuiet(s, FindOccupied(s, t, use, id, p, SlotAt(id, p, |s.slots|)).0, t, FindLoadId(use, id, p));
  }

  lemma FoundPc(owner: seq<Owner>, use: Use, id: GranuleId, i: nat)
    requires IsAt(owner, id, i, Opened)
    ensures PcInv(owner, UseSlot(use, id, i))
  {}

  lemma KeepHit(s: State, t: nat, use: Use, id: GranuleId, p: nat, i: nat)
    requires Inv(s) && t < |s.pcs| && s.pcs[t] == FindLoadId(use, id, p)
    requires IsAt(s.owner, id, i, Opened)
    ensures Inv(Goto(s, t, UseSlot(use, id, i)))
  {
    FoundPc(s.owner, use, id, i);
    SearchNarrows(use, id, p, 0, i);
    KeepQuiet(s, Goto(s, t, UseSlot(use, id, i)), t, UseSlot(use, id, i));
  }

  lemma KeepMiss(s: State, t: nat, use: Use, id: GranuleId, p: nat)
    requires Inv(s) && t < |s.pcs| && s.pcs[t] == FindLoadId(use, id, p)
    requires p + 1 < |s.owner| && Ahead(s.owner, id, p + 1)
    ensures Inv(Goto(s, t, FindLoad(use, id, p + 1)))
  {
    SearchNarrows(use, id, p, p + 1, 0);
    KeepQuiet(s, Goto(s, t, FindLoad(use, id, p + 1)), t, FindLoad(use, id, p + 1));
  }

  /** Nor does it run off the table. */
  lemma KeepFindId(s: State, t: nat, use: Use, id: GranuleId, p: nat, i: nat)
    requires Ready(s, t, FindLoadId(use, id, p), i)
    requires p < |s.slots| && i == SlotAt(id, p, |s.slots|) && !ShowsZero(s.owner[i], id)
    ensures Inv(FindId(s, t, use, id, p, i).0)
    ensures FindId(s, t, use, id, p, i).1 == Silent
  {
    assert PcInv(s.owner, s.pcs[t]);
    SearchMatch(s, id, p);
    if s.slots[i].id == id {
      KeepHit(s, t, use, id, p, i);
    } else {
      KeepMiss(s, t, use, id, p);
    }
  }

  lemma CountAgrees(slot: Slot, o: Owner, d: int)
    requires SlotAgrees(slot, o) && o.Held? && o.phase == Opened
    requires d == 1 || d == -1
    ensures SlotAgrees(slot.(liveCount := Add32(slot.liveCount, d)), CountUse(o, d))
  {
    Low32Plus(o.regs - o.deregs, d);
    assert CountUse(o, d).regs - CountUse(o, d).deregs == o.regs - o.deregs + d;
  }

  lemma KeepFetchCount(s: State, t: nat, id: GranuleId, i: nat, d: int)
    requires Inv(s) && Fits(s, t, i)
    requires s.pcs[t] == (if d == 1 then FetchAdd(id, i) else FetchSub(id, i)) && (d == 1 || d == -1)
    ensures Inv(FetchCount(s, t, i, d))
  {
    assert PcInv(s.owner, s.pcs[t]) && SlotAgrees(s.slots[i], s.owner[i]);
    CountAgrees(s.slots[i], s.owner[i], d);
    KeepRewrite(s, FetchCount(s, t, i, d), t, i,
                s.slots[i].(liveCount := Add32(s.slots[i].liveCount, d)), CountUse(s.owner[i], d), Idle);
  }

  lemma KeepReadCount(s: State, t: nat, id: GranuleId, i: nat)
    requires Ready(s, t, CloseLoad(id, i), i)
    ensures Inv(ReadCount(s, t, id, i))
  {
    assert PcInv(s.owner, s.pcs[t]) && SlotAgrees(s.slots[i], s.owner[i]);
    KeepQuiet(s, ReadCount(s, t, id, i), t, CloseCount(id, i, s.slots[i].liveCount));
  }

  lemma KeepClearCount(s: State, t: nat, id: GranuleId, i: nat, live: nat)
    requires Ready(s, t, CloseCount(id, i, live), i)
    ensures Inv(ClearCount(s, t, id, i, live))
  {
    assert PcInv(s.owner, s.pcs[t]) && SlotAgrees(s.slots[i], s.owner[i]);
    KeepRewrite(s, ClearCount(s, t, id, i, live), t, i, s.slots[i].(liveCount := 0),
                SetPhase(s.owner[i], id, Zeroed), CloseId(id, i, live));
  }

  lemma KeepClearId(s: State, t: nat, id: GranuleId, i: nat, live: nat)
    requires Ready(s, t, CloseId(id, i, live), i)
    ensures Inv(ClearId(s, t, id, i, live))
  {
    assert PcInv(s.owner, s.pcs[t]) && SlotAgrees(s.slots[i], s.owner[i]);
    KeepRewrite(s, ClearId(s, t, id, i, live), t, i, s.slots[i].(id := ZERO),
                SetPhase(s.owner[i], id, Unnamed), CloseRelease(id, i, live));
  }

  lemma OpenStepKeeps(s: State, t: nat, spurious: bool)
    requires Inv(s) && Shape(s) && t < |s.pcs| && ReadSafe(s, t) && Opening(s.pcs[t]).Some?
    ensures Inv(Step(s, t, spurious).0)
  {
    match s.pcs[t]
    case OpenLoad(id, p) => KeepLoadOccupied(s, t, id, p);
    case OpenLoadId(id, p) => KeepLoadId(s, t, id, p);
    case OpenCas(id, p) => KeepCasOccupied(s, t, id, p);
    case OpenStoreId(id, i) => KeepStoreId(s, t, id, i);
    case OpenStoreCount(id, i) => KeepStoreCount(s, t, id, i);
    case CountOpen(id, i) => KeepAddOpen(s, t, id, i);
    case PeakLoad(id, i, open) => KeepPeakTest(s, t, id, i, open, s.c.peak);
    case PeakCas(id, i, open, peak) => KeepCasPeak(s, t, id, i, open, peak, spurious);
  }

  lemma UseStepKeeps(s: State, t: nat, spurious: bool)
    requires Inv(s) && Shape(s) && t < |s.pcs| && ReadSafe(s, t) && Using(s.pcs[t]).Some?
    requires s.pcs[t].CloseRelease? ==> ReleaseSafe(s, s.pcs[t].slot)
    ensures Inv(Step(s, t, spurious).0)
  {
    match s.pcs[t]
    case FindLoad(use, id, p) => KeepFindOccupied(s, t, use, id, p);
    case FindLoadId(use, id, p) => KeepFindId(s, t, use, id, p, SlotAt(id, p, |s.slots|));
    case FetchAdd(id, i) => KeepFetchCount(s, t, id, i, 1);
    case FetchSub(id, i) => KeepFetchCount(s, t, id, i, -1);
    case CloseLoad(id, i) => KeepReadCount(s, t, id, i);
    case CloseCount(id, i, live) => KeepClearCount(s, t, id, i, live);
    case CloseId(id, i, live) => KeepClearId(s, t, id, i, live);
    case CloseRelease(id, i, live) =>
      KeepRelease(s, Release(s, t, i, live), t, if live == UINT32_MAX then Idle else UncountOpen(live));
  }

  lemma StepKeeps(s: State, t: nat, spurious: bool)
    requires Inv(s) && Shape(s) && t < |s.pcs| && ReadSafe(s, t)
    requires s.pcs[t].CloseRelease? ==> ReleaseSafe(s, s.pcs[t].slot)
    ensures Inv(Step(s, t, spurious).0)
  {
    if Opening(s.pcs[t]).Some? {
      OpenStepKeeps(s, t, spurious);
    } else if Using(s.pcs[t]).Some? {
      UseStepKeeps(s, t, spurious);
    } else {
      match s.pcs[t]
      case Idle =>
      case UncountOpen(live) => KeepQuiet(s, SubOpen(s, t, live), t, CountClose(live));
      case CountClose(live) => KeepQuiet(s, AddClose(s, t, live), t, CountVerdict(live));
      case CountVerdict(live) => KeepQuiet(s, AddVerdict(s, t, live), t, Idle);
    }
  }

  lemma BeginApart(pcs: seq<Pc>, t: nat, pc: Pc)
    requires Apart(pcs) && t < |pcs|
    requires forall u :: 0 <= u < |pcs| && u != t ==> Compatible(pc, pcs[u])
    ensures Apart(pcs[t := pc])
  {
    forall u | 0 <= u < |pcs| && u != t
      ensures Compatible(pcs[u], pc)
    {
      assert Compatible(pc, pcs[u]);
    }
  }

  lemma BeginKeeps(s: State, s': State, t: nat)
    requires Inv(s) && Begins(s, s', t)
    ensures Inv(s')
  {
    var pc := s'.pcs[t];
    assert PcInv(s.owner, pc) by {
      if pc.FindLoad? {
        var i :| 0 <= i < |s.owner| && HoldsId(s.owner[i], pc.id) && s.owner[i].phase == Opened;
        assert IsAt(s.owner, pc.id, i, Opened) && 0 <= Depth(pc.id, i, |s.owner|);
      }
    }
    forall u | 0 <= u < |s.pcs| && u != t
      ensures Compatible(pc, s.pcs[u])
    {
      assert PcInv(s.owner, s.pcs[u]);
    }
    BeginApart(s.pcs, t, pc);
  }

  lemma NextKeeps(s: State, s': State)
    requires Inv(s) && Next(s, s')
    ensures Inv(s')
  {
    var t: nat :| Begins(s, s', t) || Moves(s, s', t);
    if Begins(s, s', t) {
      BeginKeeps(s, s', t);
    } else {
      var spurious :| s' == Step(s, t, spurious).0;
      StepKeeps(s, t, spurious);
    }
  }

  /** The invariant holds at every state of every interleaving. */
  lemma {:induction false} ReachableInv(run: seq<State>, k: nat)
    requires Execution(run) && k < |run|
    ensures Inv(run[k])
  {
    if k == 0 {
      forall t | 0 <= t < |run[0].pcs|
        ensures PcInv(run[0].owner, run[0].pcs[t])
      {}
    } else {
      ReachableInv(run, k - 1);
      assert Linked(run, k - 1);
      NextKeeps(run[k - 1], run[k]);
    }
  }
}
