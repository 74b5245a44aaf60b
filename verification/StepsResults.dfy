/** What every interleaving that obeys the contract guarantees. */
module StepsResults {
  import opened Counting
  import opened Probe
  import opened SlotTable
  import opened TableInvariant
  import opened Hash
  import opened Rate
  import opened Steps
  import opened StepsInvariant
  import opened StepsCounters
  import opened StepsHistory

  // Opens and lookups.

  /** The id of the owner is in memory. */
  predicate Shows(o: Owner) {
    o.Held? && o.phase != Claimed && o.phase != Unnamed
  }

  /** No slot before `i` on the path of its granule only looks like a slot of that granule;
      true of every granule but id zero. */
  ghost predicate NoDecoy(s: State, i: nat)
    requires i < |s.owner| && s.owner[i].Held?
  {
    forall k: nat ::
      k < |s.owner| && Depth(s.owner[i].id, k, |s.owner|) < Depth(s.owner[i].id, i, |s.owner|)
      ==> !ShowsZero(s.owner[k], s.owner[i].id)
  }

  lemma FindShown(s: State, i: nat)
    requires StepsInvariant.Inv(s) && i < |s.owner| && Shows(s.owner[i]) && NoDecoy(s, i)
    ensures Find(s.slots, s.owner[i].id) == Some(i)
  {
    var id, n := s.owner[i].id, |s.slots|;
    assert SlotAgrees(s.slots[i], s.owner[i]);
    forall k: nat | k < n && 0 <= Depth(id, k, n) < Depth(id, i, n)
      ensures Passed(s.slots, k, id)
    {
      assert !ShowsZero(s.owner[k], id);
      assert SlotAgrees(s.slots[k], s.owner[k]) && s.owner[k].Held?;
    }
    StopUnique(s.slots, id, i);
  }

  lemma FindDecoy(s: State, i: nat)
    requires StepsInvariant.Inv(s) && i < |s.owner| && s.owner[i].Held? && !NoDecoy(s, i)
    ensures Find(s.slots, s.owner[i].id) != Some(i)
  {
    var id, n := s.owner[i].id, |s.slots|;
    var k: nat :| k < n && Depth(id, k, n) < Depth(id, i, n) && ShowsZero(s.owner[k], id);
    assert SlotAgrees(s.slots[k], s.owner[k]);
    assert !Passed(s.slots, k, id);
  }

  /** At every state of every interleaving: no granule has two slots, every slot from the
      home of a granule up to its own is occupied, and a lookup started and finished at this
      moment finds every granule whose id is stored, even while other openers sit between
      claiming a slot and storing their id, with one exception: it misses granule zero if and
      only if such a slot comes before its own. */
  lemma ConcurrentOpens(run: seq<State>, k: nat)
    requires Execution(run) && k < |run|
    ensures var s := run[k];
      && Unique(s.owner)
      && (forall i: nat, j: nat ::
            (&& i < |s.owner| == |s.slots| && j < |s.slots| && s.owner[i].Held?
             && Depth(s.owner[i].id, j, |s.slots|) <= Depth(s.owner[i].id, i, |s.slots|))
            ==> s.slots[j].occupied)
      && (forall i: nat :: i < |s.owner| && Shows(s.owner[i]) ==>
            (Find(s.slots, s.owner[i].id) == Some(i) <==> NoDecoy(s, i)))
      && (forall i: nat :: i < |s.owner| && s.owner[i].Held? && s.owner[i].id != ZERO ==> NoDecoy(s, i))
  {
    var s := run[k];
    ReachableInv(run, k);
    forall i: nat, j: nat | i < |s.owner| == |s.slots| && j < |s.slots| && s.owner[i].Held?
                         && Depth(s.owner[i].id, j, |s.slots|) <= Depth(s.owner[i].id, i, |s.slots|)
      ensures s.slots[j].occupied
    {
      assert SlotAgrees(s.slots[j], s.owner[j]);
    }
    forall i: nat | i < |s.owner| && Shows(s.owner[i])
      ensures Find(s.slots, s.owner[i].id) == Some(i) <==> NoDecoy(s, i)
    {
      if NoDecoy(s, i) {
        FindShown(s, i);
      } else {
        FindDecoy(s, i);
      }
    }
  }

  /** No open reports a repeated id, no lookup misses its granule, and an open fails only
      when every slot is occupied. */
  lemma StepEvents(s: State, t: nat, spurious: bool)
    requires StepsInvariant.Inv(s) && Shape(s) && t < |s.pcs| && ReadSafe(s, t)
    ensures var event := Step(s, t, spurious).1;
      && !event.OpenRepeated? && !event.Missing?
      && (event.OpenFull? ==> forall i :: 0 <= i < |s.slots| ==> s.slots[i].occupied)
  {
    assert PcInv(s.owner, s.pcs[t]);
    match s.pcs[t]
    case OpenLoadId(id, p) =>
      KeepLoadId(s, t, id, p);
      KeepProbeOn(s, t, id, p);
    case OpenCas(id, p) =>
      if s.slots[SlotAt(id, p, |s.slots|)].occupied {
        ScannedNext(s, id, p);
        KeepProbeOn(s, t, id, p);
      }
    case FindLoad(use, id, p) => KeepFindOccupied(s, t, use, id, p);
    case FindLoadId(use, id, p) => KeepFindId(s, t, use, id, p, SlotAt(id, p, |s.slots|));
    case _ =>
  }

  // Counters.

  /** total_closes is drainable plus pinned plus the closers between the two increments;
      open_granules is the occupied slots, plus the closers past release that have not
      decremented, minus the openers past their claim that have not incremented, plus the
      closes that were lost to the error value. */
  lemma CountersConserved(run: seq<State>, k: nat)
    requires Execution(run) && k < |run|
    ensures var s := run[k];
      && s.c.total == s.c.drainable + s.c.pinned + Count(s.pcs, VerdictPending)
      && s.c.open + Count(s.pcs, OpenerPending)
         == Count(s.owner, Occupied) + Count(s.pcs, CloserPending) + s.leaked
  {
    ReachableCounts(run, k);
    CountSplit(run[k].owner, Occupied, CountedSlot, Uncounted);
  }

  /** The decrement of open_granules never wraps. */
  lemma OpenNeverWraps(run: seq<State>, k: nat, t: nat)
    requires Execution(run) && k < |run| && t < |run[k].pcs| && run[k].pcs[t].UncountOpen?
    ensures run[k].c.open >= 1
    ensures SubOpen(run[k], t, run[k].pcs[t].live).c.open == run[k].c.open - 1
  {
    ReachableCounts(run, k);
    SomePending(run[k].pcs, t);
  }

  ghost predicate Quiescent(s: State) {
    forall t :: 0 <= t < |s.pcs| ==> s.pcs[t] == Idle
  }

  /** At quiescence total_closes is exact and the rate lies in [0, 1]; open_granules is the
      number of occupied slots if and only if no close released a slot whose registrations
      minus deregistrations read UINT32_MAX. */
  lemma QuiescentCounters(run: seq<State>, k: nat)
    requires Execution(run) && k < |run| && Quiescent(run[k])
    ensures run[k].c.total == run[k].c.drainable + run[k].c.pinned
    ensures 0.0 <= Dsr(run[k].c.drainable, run[k].c.total) <= 1.0
    ensures run[k].c.open == Count(run[k].owner, Occupied)
       <==> forall j: nat :: j < k ==> !SomeLoses(run, j)
  {
    var s := run[k];
    CountersConserved(run, k);
    CountNone(s.pcs, VerdictPending);
    CountNone(s.pcs, OpenerPending);
    CountNone(s.pcs, CloserPending);
    LeakedTells(run, k);
    DsrBounds(s.c.drainable, s.c.total);
  }

  // The sweep.

  /** The registrations and deregistrations of the slot cancel, modulo 2^32. */
  predicate Drained(o: Owner) {
    o.Held? && Low32(o.regs - o.deregs) == 0
  }

  predicate Pinned(o: Owner) {
    o.Held? && Low32(o.regs - o.deregs) != 0
  }

  ghost predicate Settled(slot: Slot, o: Owner) {
    SlotAgrees(slot, o) && !Unsettled(o)
  }

  lemma SweepCounts(slots: seq<Slot>, owner: seq<Owner>)
    requires |slots| == |owner| && forall i :: 0 <= i < |slots| ==> Settled(slots[i], owner[i])
    ensures Count(slots, DrainedSlot) == Count(owner, Drained)
    ensures Count(slots, PinnedSlot) == Count(owner, Pinned)
  {
    forall i | 0 <= i < |slots|
      ensures DrainedSlot(slots[i]) == Drained(owner[i]) && PinnedSlot(slots[i]) == Pinned(owner[i])
    {
      assert Settled(slots[i], owner[i]);
    }
    CountAlike(slots, owner, DrainedSlot, Drained);
    CountAlike(slots, owner, PinnedSlot, Pinned);
  }

  lemma QuiescentSettled(run: seq<State>, k: nat)
    requires Execution(run) && k < |run| && Quiescent(run[k])
    ensures |run[k].owner| == |run[k].slots|
    ensures forall i :: 0 <= i < |run[k].slots| ==> Settled(run[k].slots[i], run[k].owner[i])
  {
    var s := run[k];
    ReachableCounts(run, k);
    CountNone(s.pcs, Working);
    forall i: nat | i < |s.slots|
      ensures Settled(s.slots[i], s.owner[i])
    {
      assert SlotAgrees(s.slots[i], s.owner[i]);
      CountUpdate(s.owner, i, Free, Unsettled);
    }
  }

  /** A sweep at quiescence: its total is open_granules less the closes that were lost to the
      error value, and its drainable count is the number of open granules whose registrations
      and deregistrations since the claim cancel, those that a close would now report as 0. */
  lemma QuiescentSweep(run: seq<State>, k: nat)
    requires Execution(run) && k < |run| && Quiescent(run[k])
    ensures var s := run[k];
      && Count(s.slots, DrainedSlot) + Count(s.slots, PinnedSlot) + s.leaked == s.c.open
      && Count(s.slots, DrainedSlot) == Count(s.owner, Drained)
      && forall i: nat :: i < |s.owner| && s.owner[i].Held? ==>
           (Drained(s.owner[i]) <==> Low32(Net(run, k, s.owner[i].id, i)) == 0)
  {
    var s := run[k];
    QuiescentSettled(run, k);
    SweepCounts(s.slots, s.owner);
    CountSplit(s.owner, Occupied, Drained, Pinned);
    CountersConserved(run, k);
    CountNone(s.pcs, OpenerPending);
    CountNone(s.pcs, CloserPending);
    forall i: nat | i < |s.owner| && s.owner[i].Held?
      ensures Drained(s.owner[i]) <==> Low32(Net(run, k, s.owner[i].id, i)) == 0
    {
      NetTells(run, k, i);
    }
  }

  // The peak.

  lemma RaiseHighest(s: State, t: nat, spurious: bool)
    requires Shape(s) && t < |s.pcs| && PeakInv(s) && RaisingPeak(s.pcs[t])
    ensures var s' := Step(s, t, spurious).0;
      s'.highest == s.highest && s'.c.open == s.c.open && s'.c.peak >= s.c.peak
  {}

  lemma MoveHighest(s: State, t: nat, spurious: bool)
    requires StepsInvariant.Inv(s) && Shape(s) && t < |s.pcs| && ReadSafe(s, t) && Conserved(s) && PeakInv(s)
    ensures var s' := Step(s, t, spurious).0;
      s'.highest == Max(s.highest, s'.c.open) && s'.c.peak >= s.c.peak
  {
    if s.pcs[t].UncountOpen? {
      SomePending(s.pcs, t);
    } else if RaisingPeak(s.pcs[t]) {
      RaiseHighest(s, t, spurious);
    } else if Using(s.pcs[t]).Some? {
      UseOffPeak(s, t, spurious);
    } else if Opening(s.pcs[t]).Some? && !s.pcs[t].CountOpen? {
      OpenOffPeak(s, t, spurious);
    }
  }

  lemma NextHighest(s: State, s': State)
    requires StepsInvariant.Inv(s) && Conserved(s) && PeakInv(s) && Next(s, s')
    ensures s'.highest == Max(s.highest, s'.c.open) && s'.c.peak >= s.c.peak
  {
    var t: nat :| Begins(s, s', t) || Moves(s, s', t);
    if !Begins(s, s', t) {
      var spurious :| s' == Step(s, t, spurious).0;
      MoveHighest(s, t, spurious);
    }
  }

  lemma RunHighest(run: seq<State>, k: nat)
    requires Execution(run) && k + 1 < |run|
    ensures run[k + 1].highest == Max(run[k].highest, run[k + 1].c.open)
    ensures run[k + 1].c.peak >= run[k].c.peak
  {
    ReachableCounts(run, k);
    assert Linked(run, k);
    NextHighest(run[k], run[k + 1]);
  }

  lemma RunStart(run: seq<State>)
    requires Execution(run)
    ensures run[0].highest == run[0].c.open
  {}

  /** `highest` is the largest value open_granules has held. */
  lemma {:induction false} HighestIsMaximum(run: seq<State>, k: nat)
    requires Execution(run) && k < |run|
    ensures forall j :: 0 <= j <= k ==> run[j].c.open <= run[k].highest
    ensures exists j :: 0 <= j <= k && run[j].c.open == run[k].highest
  {
    if k == 0 {
      RunStart(run);
    } else {
      HighestIsMaximum(run, k - 1);
      RunHighest(run, k - 1);
      var m :| 0 <= m <= k - 1 && run[m].c.open == run[k - 1].highest;
      assert run[m].c.open == run[k].highest || run[k].c.open == run[k].highest;
    }
  }

  lemma {:induction false} PeakNeverDecreases(run: seq<State>, j: nat, k: nat)
    requires Execution(run) && j <= k < |run|
    ensures run[j].c.peak <= run[k].c.peak
    decreases k
  {
    if j < k {
      PeakNeverDecreases(run, j, k - 1);
      RunHighest(run, k - 1);
    }
  }

  /** The peak never exceeds the largest value open_granules has held, and equals it
      whenever no opener is between its fetch-add and the end of its loop. */
  lemma PeakIsHighWater(run: seq<State>, k: nat)
    requires Execution(run) && k < |run|
    ensures exists j :: 0 <= j <= k && run[k].c.peak <= run[j].c.open
    ensures (forall t :: 0 <= t < |run[k].pcs| ==> !RaisingPeak(run[k].pcs[t])) ==>
              && (forall j :: 0 <= j <= k ==> run[j].c.open <= run[k].c.peak)
              && (exists j :: 0 <= j <= k && run[j].c.open == run[k].c.peak)
  {
    ReachableCounts(run, k);
    HighestIsMaximum(run, k);
    var j :| 0 <= j <= k && run[j].c.open == run[k].highest;
    assert run[k].c.peak <= run[j].c.open;
  }

  /** A compare-exchange that fails, but not spuriously, has seen a larger peak: the gap
      that drives the retry shrinks and stays positive. */
  lemma RetryShrinks(s: State, t: nat)
    requires StepsInvariant.Inv(s) && Shape(s) && t < |s.pcs| && PeakInv(s)
    requires s.pcs[t].PeakCas? && Step(s, t, false).0.pcs[t].PeakCas?
    ensures var pc, pc' := s.pcs[t], Step(s, t, false).0.pcs[t];
      pc'.open == pc.open && 0 < pc'.open - pc'.peak < pc.open - pc.peak
  {}
}
