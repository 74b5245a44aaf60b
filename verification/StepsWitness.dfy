/** A concrete execution that loses a close: one thread, one slot, one surplus deregistration. */
module StepsWitness {
  import opened Counting
  import opened Hash
  import opened Probe
  import opened SlotTable
  import opened Steps
  import opened StepsCounters
  import opened StepsHistory
  import opened StepsResults

  const G := GranuleId(1)
  const NAMED := Slot(true, G, 0)
  const WRAPPED := Slot(true, G, UINT32_MAX)

  /** The state of a system of one slot and one thread, without closes so far. */
  function Only(slot: Slot, o: Owner, pc: Pc, open: nat, peak: nat, leaked: nat): State {
    State([slot], [o], [pc], Counters(open, peak, 0, 0, 0), open, leaked)
  }

  /** The first eight steps: granule G is opened. */
  function OpenAt(k: nat): State {
    if k == 0 then Only(EMPTY, Free, Idle, 0, 0, 0)
    else if k == 1 then Only(EMPTY, Free, OpenLoad(G, 0), 0, 0, 0)
    else if k == 2 then Only(EMPTY, Free, OpenCas(G, 0), 0, 0, 0)
    else if k == 3 then Only(EMPTY.(occupied := true), Held(G, Claimed, 0, 0), OpenStoreId(G, 0), 0, 0, 0)
    else if k == 4 then Only(NAMED, Held(G, Named, 0, 0), OpenStoreCount(G, 0), 0, 0, 0)
    else if k == 5 then Only(NAMED, Held(G, Stored, 0, 0), CountOpen(G, 0), 0, 0, 0)
    else if k == 6 then Only(NAMED, Held(G, Counted, 0, 0), PeakLoad(G, 0, 1), 1, 0, 0)
    else if k == 7 then Only(NAMED, Held(G, Counted, 0, 0), PeakCas(G, 0, 1, 0), 1, 0, 0)
    else Only(NAMED, Held(G, Opened, 0, 0), Idle, 1, 1, 0)
  }

  /** Four more: a deregistration without a registration. */
  function SurplusAt(k: nat): State {
    if k == 0 then Only(NAMED, Held(G, Opened, 0, 0), Idle, 1, 1, 0)
    else if k == 1 then Only(NAMED, Held(G, Opened, 0, 0), FindLoad(Deregister, G, 0), 1, 1, 0)
    else if k == 2 then Only(NAMED, Held(G, Opened, 0, 0), FindLoadId(Deregister, G, 0), 1, 1, 0)
    else if k == 3 then Only(NAMED, Held(G, Opened, 0, 0), FetchSub(G, 0), 1, 1, 0)
    else Only(WRAPPED, Held(G, Opened, 0, 1), Idle, 1, 1, 0)
  }

  /** Seven more: the close. */
  function CloseAt(k: nat): State {
    if k == 0 then Only(WRAPPED, Held(G, Opened, 0, 1), Idle, 1, 1, 0)
    else if k == 1 then Only(WRAPPED, Held(G, Opened, 0, 1), FindLoad(Close, G, 0), 1, 1, 0)
    else if k == 2 then Only(WRAPPED, Held(G, Opened, 0, 1), FindLoadId(Close, G, 0), 1, 1, 0)
    else if k == 3 then Only(WRAPPED, Held(G, Opened, 0, 1), CloseLoad(G, 0), 1, 1, 0)
    else if k == 4 then Only(WRAPPED, Held(G, Opened, 0, 1), CloseCount(G, 0, UINT32_MAX), 1, 1, 0)
    else if k == 5 then Only(NAMED, Held(G, Zeroed, 0, 1), CloseId(G, 0, UINT32_MAX), 1, 1, 0)
    else if k == 6 then
      Only(EMPTY.(occupied := true), Held(G, Unnamed, 0, 1), CloseRelease(G, 0, UINT32_MAX), 1, 1, 0)
    else Only(EMPTY, Free, Idle, 1, 1, 1)
  }

  function LossAt(k: nat): State {
    if k <= 8 then OpenAt(k) else if k <= 12 then SurplusAt(k - 8) else CloseAt(k - 12)
  }

  /** A call begins. */
  lemma LossBegins(s: State, pc: Pc)
    requires |s.slots| == |s.owner| == 1 && s.pcs == [Idle]
    requires || (pc == OpenLoad(G, 0) && s.owner == [Free])
             || (s.owner[0].Held? && s.owner[0].id == G && s.owner[0].phase == Opened
                 && pc.FindLoad? && pc.id == G && pc.probe == 0)
    ensures Next(s, s.(pcs := [pc]))
  {
    var s' := s.(pcs := [pc]);
    assert s' == Goto(s, 0, pc);
    if pc.FindLoad? {
      assert HoldsId(s.owner[0], G);
    }
    assert Begins(s, s', 0);
  }

  /** A call moves on; with one slot and one thread every release is safe. */
  lemma LossMoves(s: State, s': State)
    requires Shape(s) && |s.slots| == |s.pcs| == 1 && ReadSafe(s, 0) && s' == Step(s, 0, false).0
    ensures Next(s, s')
  {
    assert Moves(s, s', 0);
  }

  lemma OpenSteps(k: nat)
    requires 1 <= k < 8
    ensures Shape(OpenAt(k)) && ReadSafe(OpenAt(k), 0) && OpenAt(k + 1) == Step(OpenAt(k), 0, false).0
  {}

  lemma SurplusSteps(k: nat)
    requires 1 <= k < 4
    ensures Shape(SurplusAt(k)) && ReadSafe(SurplusAt(k), 0) && SurplusAt(k + 1) == Step(SurplusAt(k), 0, false).0
  {}

  lemma CloseSteps(k: nat)
    requires 1 <= k < 7
    ensures Shape(CloseAt(k)) && ReadSafe(CloseAt(k), 0) && CloseAt(k + 1) == Step(CloseAt(k), 0, false).0
  {}

  lemma OpenNext(k: nat)
    requires k < 8
    ensures Next(OpenAt(k), OpenAt(k + 1))
  {
    if k == 0 {
      LossBegins(OpenAt(0), OpenLoad(G, 0));
    } else {
      OpenSteps(k);
      LossMoves(OpenAt(k), OpenAt(k + 1));
    }
  }

  lemma SurplusNext(k: nat)
    requires k < 4
    ensures Next(SurplusAt(k), SurplusAt(k + 1))
  {
    if k == 0 {
      LossBegins(SurplusAt(0), FindLoad(Deregister, G, 0));
    } else {
      SurplusSteps(k);
      LossMoves(SurplusAt(k), SurplusAt(k + 1));
    }
  }

  lemma CloseNext(k: nat)
    requires k < 7
    ensures Next(CloseAt(k), CloseAt(k + 1))
  {
    if k == 0 {
      LossBegins(CloseAt(0), FindLoad(Close, G, 0));
    } else {
      CloseSteps(k);
      LossMoves(CloseAt(k), CloseAt(k + 1));
    }
  }

  lemma LossNext(k: nat)
    requires k < 19
    ensures Next(LossAt(k), LossAt(k + 1))
  {
    if k < 8 {
      OpenNext(k);
    } else if k < 12 {
      assert OpenAt(8) == SurplusAt(0);
      SurplusNext(k - 8);
    } else {
      assert SurplusAt(4) == CloseAt(0);
      CloseNext(k - 12);
    }
  }

  lemma LossExecutes(run: seq<State>)
    requires |run| == 20 && forall k: nat :: k < 20 ==> run[k] == LossAt(k)
    ensures Execution(run)
  {
    forall k: nat | k + 1 < |run|
      ensures Linked(run, k)
    {
      LossNext(k);
    }
  }

  /** The run is an execution that obeys the contract on begins and releases. At its end all
      is quiet and no slot is occupied, yet open_granules is 1, because one close released a
      slot whose net count, -1, reads UINT32_MAX. */
  lemma LossHappens() returns (run: seq<State>)
    ensures Execution(run) && |run| == 20 && Quiescent(run[19])
    ensures run[19].c.open == 1 && Count(run[19].owner, Occupied) == 0 && run[19].leaked == 1
    ensures exists j: nat :: j < 19 && SomeLoses(run, j)
  {
    run := seq(20, k requires 0 <= k < 20 => LossAt(k));
    LossExecutes(run);
    CountNone(run[19].owner, Occupied);
    LeakedTells(run, 19);
  }
}
