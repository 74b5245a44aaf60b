/** Granule id zero under interleaving: a slot being claimed or released shows the id zero. */
module StepsIdZero {
  import opened Counting
  import opened Hash
  import opened Probe
  import opened SlotTable
  import opened Steps
  import opened StepsInvariant
  import opened StepsCounters
  import opened StepsResults

  /** An open takes the slot of another granule for its own, and goes on to return 0 without a
      slot, if and only if it opens id zero and reads the id of a slot that is between its
      claim and the store of its id, or between the clearing of its id and its release. */
  lemma RepeatSeenIff(s: State, t: nat, spurious: bool)
    requires Inv(s) && Shape(s) && t < |s.pcs|
    ensures Step(s, t, spurious).1.OpenRepeated? <==> s.pcs[t].OpenLoadId? && !ReadSafe(s, t)
  {
    assert PcInv(s.owner, s.pcs[t]);
    if s.pcs[t].OpenLoadId? {
      var i := SlotAt(s.pcs[t].id, s.pcs[t].probe, |s.slots|);
      assert SlotAgrees(s.slots[i], s.owner[i]);
    }
  }

  /** A register, deregister or close goes on to a slot that is not its own under the same
      condition. */
  lemma ForeignHitIff(s: State, t: nat, use: Use, id: GranuleId, p: nat, spurious: bool)
    requires Inv(s) && Shape(s) && t < |s.pcs| && s.pcs[t] == FindLoadId(use, id, p)
    ensures var i := SlotAt(id, p, |s.slots|);
      Step(s, t, spurious).0.pcs[t] == UseSlot(use, id, i) && !IsAt(s.owner, id, i, Opened)
      <==> !ReadSafe(s, t)
  {
    assert PcInv(s.owner, s.pcs[t]);
    var i := SlotAt(id, p, |s.slots|);
    assert SlotAgrees(s.slots[i], s.owner[i]);
    if ReadSafe(s, t) {
      SearchMatch(s, id, p);
    } else {
      var k: nat :| k < |s.owner| && IsAt(s.owner, id, k, Opened) && p <= Depth(id, k, |s.owner|);
      assert k != i;
    }
  }

  // A run in which it happens: two threads and one slot. While granule G is being opened,
  // a second thread opens granule zero, which is not open.

  const G := GranuleId(1)
  const CLAIMED := EMPTY.(occupied := true)
  const NAMED := Slot(true, G, 0)

  function Two(slot: Slot, o: Owner, first: Pc, second: Pc, open: nat, peak: nat): State {
    State([slot], [o], [first, second], Counters(open, peak, 0, 0, 0), open, 0)
  }

  /** G is claimed, its id not yet stored. */
  function ClaimAt(k: nat): State {
    if k == 0 then Two(EMPTY, Free, Idle, Idle, 0, 0)
    else if k == 1 then Two(EMPTY, Free, OpenLoad(G, 0), Idle, 0, 0)
    else if k == 2 then Two(EMPTY, Free, OpenCas(G, 0), Idle, 0, 0)
    else Two(CLAIMED, Held(G, Claimed, 0, 0), OpenStoreId(G, 0), Idle, 0, 0)
  }

  /** The second thread opens id zero, to the end. */
  function ZeroAt(k: nat): State {
    var o, first := Held(G, Claimed, 0, 0), OpenStoreId(G, 0);
    if k == 0 then Two(CLAIMED, o, first, Idle, 0, 0)
    else if k == 1 then Two(CLAIMED, o, first, OpenLoad(ZERO, 0), 0, 0)
    else if k == 2 then Two(CLAIMED, o, first, OpenLoadId(ZERO, 0), 0, 0)
    else if k == 3 then Two(CLAIMED, o, first, CountOpen(ZERO, 0), 0, 0)
    else if k == 4 then Two(CLAIMED, o, first, PeakLoad(ZERO, 0, 1), 1, 0)
    else if k == 5 then Two(CLAIMED, o, first, PeakCas(ZERO, 0, 1, 0), 1, 0)
    else Two(CLAIMED, o, first, Idle, 1, 1)
  }

  /** The first thread finishes. */
  function FinishAt(k: nat): State {
    if k == 0 then Two(CLAIMED, Held(G, Claimed, 0, 0), OpenStoreId(G, 0), Idle, 1, 1)
    else if k == 1 then Two(NAMED, Held(G, Named, 0, 0), OpenStoreCount(G, 0), Idle, 1, 1)
    else if k == 2 then Two(NAMED, Held(G, Stored, 0, 0), CountOpen(G, 0), Idle, 1, 1)
    else if k == 3 then Two(NAMED, Held(G, Counted, 0, 0), PeakLoad(G, 0, 2), Idle, 2, 1)
    else if k == 4 then Two(NAMED, Held(G, Counted, 0, 0), PeakCas(G, 0, 2, 1), Idle, 2, 1)
    else Two(NAMED, Held(G, Opened, 0, 0), Idle, Idle, 2, 2)
  }

  function RunAt(k: nat): State {
    if k <= 3 then ClaimAt(k) else if k <= 9 then ZeroAt(k - 3) else FinishAt(k - 9)
  }

  /** In step `k` a thread in search of granule zero reads a slot that only looks like it. */
  ghost predicate Misreads(run: seq<State>, k: nat, t: nat) {
    && k + 1 < |run| && Shape(run[k]) && t < |run[k].pcs| && !ReadSafe(run[k], t)
    && run[k + 1] == Step(run[k], t, false).0
  }

  lemma ClaimNext(k: nat)
    requires k < 3
    ensures Next(ClaimAt(k), ClaimAt(k + 1))
  {
    var s, s' := ClaimAt(k), ClaimAt(k + 1);
    if k == 0 {
      assert s' == Goto(s, 0, OpenLoad(G, 0));
      assert Begins(s, s', 0);
    } else {
      assert s' == Step(s, 0, false).0;
      assert Moves(s, s', 0);
    }
  }

  lemma ZeroBegins()
    ensures Next(ZeroAt(0), ZeroAt(1))
  {
    assert ZeroAt(1) == Goto(ZeroAt(0), 1, OpenLoad(ZERO, 0));
    assert Begins(ZeroAt(0), ZeroAt(1), 1);
  }

  lemma ZeroSteps(k: nat)
    requires 1 <= k < 6
    ensures Shape(ZeroAt(k)) && ZeroAt(k + 1) == Step(ZeroAt(k), 1, false).0
    ensures k == 2 ==> Step(ZeroAt(k), 1, false).1 == OpenRepeated(ZERO)
    ensures k == 5 ==> Step(ZeroAt(k), 1, false).1 == OpenReturned(ZERO)
  {}

  lemma ZeroNext(k: nat)
    requires 1 <= k < 6 && k != 2
    ensures Next(ZeroAt(k), ZeroAt(k + 1))
  {
    ZeroSteps(k);
    assert Moves(ZeroAt(k), ZeroAt(k + 1), 1);
  }

  lemma FinishSteps(k: nat)
    requires k < 5
    ensures Shape(FinishAt(k)) && FinishAt(k + 1) == Step(FinishAt(k), 0, false).0
  {}

  lemma FinishNext(k: nat)
    requires k < 5
    ensures Next(FinishAt(k), FinishAt(k + 1))
  {
    FinishSteps(k);
    assert Moves(FinishAt(k), FinishAt(k + 1), 0);
  }

  lemma RunNext(k: nat)
    requires k < 14 && k != 5
    ensures Next(RunAt(k), RunAt(k + 1))
  {
    if k < 3 {
      ClaimNext(k);
    } else if k == 3 {
      assert ClaimAt(3) == ZeroAt(0);
      ZeroBegins();
    } else if k < 9 {
      ZeroNext(k - 3);
    } else {
      assert ZeroAt(6) == FinishAt(0);
      FinishNext(k - 9);
    }
  }

  lemma RunExecutes(run: seq<State>)
    requires |run| == 15 && forall k: nat :: k < 15 ==> run[k] == RunAt(k)
    ensures Initial(run[0]) && Misreads(run, 5, 1)
    ensures forall k: nat :: k + 1 < |run| && k != 5 ==> Linked(run, k)
  {
    forall k: nat | k + 1 < |run| && k != 5
      ensures Linked(run, k)
    {
      RunNext(k);
    }
    ZeroSteps(2);
  }

  /** A run in which every call respects the documented contract and every step but one is a
      step of an execution; in that one the second thread misreads the claimed slot. At the
      end all is quiet, one slot is occupied, and open_granules is 2: the open of id zero has
      returned, but no slot is held for it and no lookup finds it. */
  lemma ZeroHappens() returns (run: seq<State>)
    ensures |run| == 15 && Initial(run[0])
    ensures Misreads(run, 5, 1) && forall k: nat :: k + 1 < |run| && k != 5 ==> Linked(run, k)
    ensures var s := run[14];
      && Quiescent(s)
      && s.c.open == 2 && Count(s.owner, Occupied) == 1
      && NotHeld(s.owner, ZERO) && Find(s.slots, ZERO) == None
  {
    run := seq(15, k requires 0 <= k < 15 => RunAt(k));
    RunExecutes(run);
    assert run[14].owner == [Held(G, Opened, 0, 0)];
    CountUpdate([Free], 0, Held(G, Opened, 0, 0), Occupied);
    assert [Free][0 := Held(G, Opened, 0, 0)] == [Held(G, Opened, 0, 0)];
    CountNone([Free], Occupied);
  }
}
