/** How calls end: what each answer of an open means, and where a search leads. */
module StepsAnswers {
  import opened Probe
  import opened Hash
  import opened Steps
  import opened StepsInvariant
  import opened StepsHistory

  // Opens.

  /** The step of an open is silent and the open goes on, or it answers: success, with its
      granule open, or failure, with every slot occupied and none of them its granule's. */
  ghost predicate OpenAnswers(s: State, s': State, t: nat, id: GranuleId, event: Event)
    requires t < |s'.pcs|
  {
    match event
    case Silent => Opening(s'.pcs[t]) == Some(id)
    case OpenReturned(g) => g == id && s'.pcs[t] == Idle && IsOpen(s'.owner, id)
    case OpenFull(g) =>
      && g == id && s'.pcs[t] == Idle && s'.slots == s.slots && NotHeld(s'.owner, id)
      && forall i :: 0 <= i < |s.slots| ==> s.slots[i].occupied
    case _ => false
  }

  lemma ProbeAnswers(s: State, t: nat, id: GranuleId, p: nat)
    requires Inv(s) && t < |s.pcs| && p < |s.slots| && Scanned(s.owner, id, p + 1)
    ensures var (s', event) := ProbeOn(s, t, id, p);
      && OpenAnswers(s, s', t, id, event)
      && s'.pcs[t] == if p + 1 < |s.slots| then OpenLoad(id, p + 1) else Idle
  {
    if p + 1 == |s.slots| {
      ScannedAll(s, id);
    }
  }

  lemma FinishAnswers(s: State, s0: State, t: nat, id: GranuleId, i: nat)
    requires Fits(s0, t, i) && HoldsId(s0.owner[i], id)
    ensures var (s', event) := FinishOpen(s0, t, id, i);
      OpenAnswers(s, s', t, id, event)
  {
    assert HoldsId(FinishOpen(s0, t, id, i).0.owner[i], id);
  }

  lemma PeakAnswers(s: State, t: nat, id: GranuleId, i: nat, open: nat, peak: nat)
    requires Fits(s, t, i) && HoldsId(s.owner[i], id)
    ensures var (s', event) := PeakTest(s, t, id, i, open, peak);
      OpenAnswers(s, s', t, id, event)
  {
    if open <= peak {
      FinishAnswers(s, s, t, id, i);
    }
  }

  lemma CasPeakAnswers(s: State, t: nat, id: GranuleId, i: nat, open: nat, peak: nat, spurious: bool)
    requires Fits(s, t, i) && HoldsId(s.owner[i], id)
    ensures var (s', event) := CasPeak(s, t, id, i, open, peak, spurious);
      OpenAnswers(s, s', t, id, event)
  {
    if s.c.peak == peak && !spurious {
      FinishAnswers(s, s.(c := s.c.(peak := open)), t, id, i);
    } else {
      PeakAnswers(s, t, id, i, open, s.c.peak);
    }
  }

  lemma CasAnswers(s: State, t: nat, id: GranuleId, p: nat)
    requires p < |s.slots| && Ready(s, t, OpenCas(id, p), SlotAt(id, p, |s.slots|))
    ensures var (s', event) := CasOccupied(s, t, id, p, SlotAt(id, p, |s.slots|));
      OpenAnswers(s, s', t, id, event)
  {
    assert PcInv(s.owner, s.pcs[t]);
    if s.slots[SlotAt(id, p, |s.slots|)].occupied {
      ScannedNext(s, id, p);
      ProbeAnswers(s, t, id, p);
    }
  }

  /** Every step of an open is of this kind. */
  lemma OpenStepAnswers(s: State, t: nat, spurious: bool, id: GranuleId)
    requires Inv(s) && Shape(s) && t < |s.pcs| && ReadSafe(s, t) && Opening(s.pcs[t]) == Some(id)
    ensures var (s', event) := Step(s, t, spurious);
      OpenAnswers(s, s', t, id, event)
  {
    assert PcInv(s.owner, s.pcs[t]);
    match s.pcs[t]
    case OpenLoadId(_, p) =>
      KeepLoadId(s, t, id, p);
      ProbeAnswers(s, t, id, p);
    case OpenCas(_, p) => CasAnswers(s, t, id, p);
    case PeakLoad(_, i, open) => PeakAnswers(s, t, id, i, open, s.c.peak);
    case PeakCas(_, i, open, peak) => CasPeakAnswers(s, t, id, i, open, peak, spurious);
    case _ =>
  }

  // Registers, deregisters and closes.

  /** The place in its search. */
  predicate Searching(pc: Pc, use: Use, id: GranuleId) {
    (pc.FindLoad? || pc.FindLoadId?) && pc.use == use && pc.id == id
  }

  /** The step of a search leaves it searching for the same use of the same granule, or
      brings it to the granule's own slot, with the granule open. */
  lemma SearchAnswers(s: State, t: nat, spurious: bool, use: Use, id: GranuleId)
    requires Inv(s) && Shape(s) && t < |s.pcs| && ReadSafe(s, t) && Searching(s.pcs[t], use, id)
    ensures var (s', event) := Step(s, t, spurious);
      && event == Silent && s'.slots == s.slots && s'.owner == s.owner && s'.c == s.c
      && (|| Searching(s'.pcs[t], use, id)
          || exists i: nat :: IsAt(s.owner, id, i, Opened) && s'.pcs[t] == UseSlot(use, id, i))
  {
    var p := s.pcs[t].probe;
    assert PcInv(s.owner, s.pcs[t]);
    if s.pcs[t].FindLoad? {
      SearchOccupied(s, id, p);
    } else {
      SearchMatch(s, id, p);
    }
  }

  /** A register or deregister, once there, counts on its own slot and ends. */
  lemma CountAnswers(s: State, t: nat, spurious: bool)
    requires Inv(s) && Shape(s) && t < |s.pcs| && (s.pcs[t].FetchAdd? || s.pcs[t].FetchSub?)
    ensures var (s', i, d) := (Step(s, t, spurious).0, s.pcs[t].slot, if s.pcs[t].FetchAdd? then 1 else -1);
      && HoldsId(s.owner[i], s.pcs[t].id)
      && s'.pcs[t] == Idle && s'.c == s.c
      && s'.slots == s.slots[i := s.slots[i].(liveCount := Low32(s.slots[i].liveCount + d))]
  {
    assert PcInv(s.owner, s.pcs[t]);
  }

  /** The stages of a close after its search. */
  function Stage(pc: Pc): nat {
    match pc
    case CloseLoad(_, _) => 7
    case CloseCount(_, _, _) => 6
    case CloseId(_, _, _) => 5
    case CloseRelease(_, _, _) => 4
    case UncountOpen(_) => 3
    case CountClose(_) => 2
    case CountVerdict(_) => 1
    case _ => 0
  }

  /** A close, once there, passes through all its stages in order, on one slot and with one
      count; only a count that reads UINT32_MAX ends it after the release. */
  lemma CloseAnswers(s: State, t: nat, spurious: bool)
    requires Shape(s) && t < |s.pcs| && Stage(s.pcs[t]) > 0
    ensures var (pc, pc') := (s.pcs[t], Step(s, t, spurious).0.pcs[t]);
      && (Stage(pc') == Stage(pc) - 1 || (pc.CloseRelease? && pc.live == UINT32_MAX && pc' == Idle))
      && (Stage(pc) > 4 ==> pc'.id == pc.id && pc'.slot == pc.slot)
      && (1 < Stage(pc) < 7 && Stage(pc') > 0 ==> pc'.live == pc.live)
      && (Stage(pc) == 1 ==> pc' == Idle)
      && (pc.CloseRelease? && pc.live == UINT32_MAX ==> pc' == Idle)
  {}

  // Runs.

  /** A thread that is opening a granule in one state of a run and not in the next has ended
      its call: the granule is open, or it holds no slot and every slot is occupied. */
  lemma OpenEnds(run: seq<State>, k: nat, t: nat, id: GranuleId)
    requires Execution(run) && k + 1 < |run| && t < |run[k].pcs|
    requires Opening(run[k].pcs[t]) == Some(id)
    ensures t < |run[k + 1].pcs|
    ensures var s, s' := run[k], run[k + 1];
      Opening(s'.pcs[t]) == Some(id)
      || (s'.pcs[t] == Idle
          && (IsOpen(s'.owner, id)
              || (NotHeld(s'.owner, id) && forall i :: 0 <= i < |s'.slots| ==> s'.slots[i].occupied)))
  {
    var s, s' := run[k], run[k + 1];
    ReachableInv(run, k);
    assert Linked(run, k);
    var u := ActiveThread(s, s');
    if u == t {
      assert !Begins(s, s', t);
      var spurious :| s' == Step(s, t, spurious).0;
      OpenStepAnswers(s, t, spurious, id);
    }
  }

  /** A thread that is searching in one state of a run and not in the next has reached the
      slot of its granule, which is open. */
  lemma SearchEnds(run: seq<State>, k: nat, t: nat, use: Use, id: GranuleId)
    requires Execution(run) && k + 1 < |run| && t < |run[k].pcs| && Searching(run[k].pcs[t], use, id)
    ensures t < |run[k + 1].pcs|
    ensures var s' := run[k + 1];
      || Searching(s'.pcs[t], use, id)
      || exists i: nat :: IsAt(s'.owner, id, i, Opened) && s'.pcs[t] == UseSlot(use, id, i)
  {
    var s, s' := run[k], run[k + 1];
    ReachableInv(run, k);
    assert Linked(run, k);
    var u := ActiveThread(s, s');
    if u == t {
      assert !Begins(s, s', t);
      var spurious :| s' == Step(s, t, spurious).0;
      SearchAnswers(s, t, spurious, use, id);
    }
  }
}
