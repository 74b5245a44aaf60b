/** The sweep reports what closing each open granule would return. */
module Sweep {
  import opened Counting
  import opened Hash
  import opened Probe
  import opened SlotTable
  import opened TableInvariant
  import opened GranuleDiag
  import opened Ledger
  import opened DiagSlots
  import opened Profiler
  import opened ModeAgreement
  import opened Rate

  /** The granule of a slot in use, and whether it would be counted as drainable. */
  datatype Verdict = Verdict(id: GranuleId, drained: bool)

  type Verdicts = seq<Option<Verdict>>

  function OfSlots(t: seq<Slot>): (v: Verdicts)
    ensures |v| == |t|
  {
    seq(|t|, i requires 0 <= i < |t| =>
      if t[i].occupied then Some(Verdict(t[i].id, t[i].liveCount == 0)) else None)
  }

  function OfDiagSlots(s: seq<Option<GranuleView>>): (v: Verdicts)
    ensures |v| == |s|
  {
    seq(|s|, i requires 0 <= i < |s| =>
      if s[i].Some? then Some(Verdict(s[i].value.id, LiveCount(s[i].value.records) == 0)) else None)
  }

  predicate IsDrained(v: Option<Verdict>) {
    v.Some? && v.value.drained
  }

  predicate IsPinned(v: Option<Verdict>) {
    v.Some? && !v.value.drained
  }

  function Judged(drained: bool): Option<Verdict> -> bool {
    if drained then IsDrained else IsPinned
  }

  predicate Has(v: Verdicts, i: nat, id: GranuleId, drained: bool) {
    i < |v| && v[i] == Some(Verdict(id, drained))
  }

  ghost predicate HasSome(v: Verdicts, id: GranuleId, drained: bool) {
    exists i: nat :: Has(v, i, id, drained)
  }

  /** No granule is in two slots. */
  ghost predicate Once(v: Verdicts) {
    forall i: nat, j: nat :: i < j < |v| && v[i].Some? && v[j].Some? ==> v[i].value.id != v[j].value.id
  }

  lemma HasLast(v: Verdicts, id: GranuleId, drained: bool)
    requires Once(v) && v != []
    ensures var n := |v| - 1;
      && (HasSome(v, id, drained) <==> HasSome(v[..n], id, drained) || Has(v, n, id, drained))
      && !(HasSome(v[..n], id, drained) && Has(v, n, id, drained))
  {
    var n := |v| - 1;
    if i: nat :| Has(v, i, id, drained) && i < n {
      assert Has(v[..n], i, id, drained);
    }
    if i: nat :| Has(v[..n], i, id, drained) {
      assert Has(v, i, id, drained);
    }
  }

  /** The granules with a given verdict are as many as `Count` says. */
  lemma {:induction false} CountIsSize(v: Verdicts, drained: bool, ids: set<GranuleId>)
    requires Once(v)
    requires forall id :: id in ids <==> HasSome(v, id, drained)
    ensures Count(v, Judged(drained)) == |ids|
  {
    if v == [] {
      assert ids == {};
    } else {
      var n := |v| - 1;
      var init := v[..n];
      var ids' := ids;
      if v[n].Some? && v[n].value.drained == drained {
        assert Has(v, n, v[n].value.id, drained);
        assert v[n].value.id in ids;
        ids' := ids - {v[n].value.id};
      }
      forall id
        ensures id in ids' <==> HasSome(init, id, drained)
      {
        HasLast(v, id, drained);
      }
      CountIsSize(init, drained, ids');
    }
  }

  /** The open granules whose close would now return 1, or those whose would not. */
  ghost function Closing(p: Profile, open: Book, time: Timespec, drained: bool): set<GranuleId> {
    set id | id in open && (Serve(p, CloseCall(id, time)).1 == 1) == drained
  }

  function VerdictsOf(st: Storage): Verdicts {
    match st
    case Production(t) => OfSlots(t)
    case Diagnostic(s, _) => OfDiagSlots(s)
  }

  /** A slot in use holds an open granule, with the verdict its close would return. */
  lemma SlotVerdict(p: Profile, l: Ledger, time: Timespec, i: nat)
    requires ShowsLedger(p, l) && i < |VerdictsOf(p.storage)| && VerdictsOf(p.storage)[i].Some?
    ensures var v := VerdictsOf(p.storage)[i].value;
      v.id in l.open && (v.drained <==> Serve(p, CloseCall(v.id, time)).1 == 1)
  {
    var id := VerdictsOf(p.storage)[i].value.id;
    match p.storage
    case Production(t) =>
      assert Holds(t, i, id);
      FindExact(t, id, i);
    case Diagnostic(s, _) =>
      assert SlotShows(s, i, l.open);
  }

  lemma VerdictsOnce(p: Profile, l: Ledger)
    requires ShowsLedger(p, l)
    ensures Once(VerdictsOf(p.storage))
  {
    if p.storage.Diagnostic? {
      var s := p.storage.slots;
      forall i: nat, j: nat | i < j < |s| && s[i].Some? && s[j].Some?
        ensures s[i].value.id != s[j].value.id
      {
        assert SlotShows(s, i, l.open) && SlotShows(s, j, l.open);
      }
    }
  }

  /** Every open granule is in some slot. */
  lemma SlotOfOpen(p: Profile, l: Ledger, id: GranuleId) returns (i: nat)
    requires ShowsLedger(p, l) && id in l.open
    ensures i < |VerdictsOf(p.storage)| && VerdictsOf(p.storage)[i].Some?
    ensures VerdictsOf(p.storage)[i].value.id == id
  {
    match p.storage
    case Production(t) =>
      assert id in Sizes(l.open);
      i :| Holds(t, i, id);
    case Diagnostic(s, _) =>
      i := DiagIndex(id, |s|);
      BookSlot(s, l.open, id);
  }

  lemma SweepCounts(p: Profile, l: Ledger, time: Timespec, drained: bool)
    requires ShowsLedger(p, l)
    ensures Count(VerdictsOf(p.storage), Judged(drained)) == |Closing(p, l.open, time, drained)|
  {
    var v, ids := VerdictsOf(p.storage), Closing(p, l.open, time, drained);
    VerdictsOnce(p, l);
    forall id
      ensures id in ids <==> HasSome(v, id, drained)
    {
      if i: nat :| Has(v, i, id, drained) {
        SlotVerdict(p, l, time, i);
      }
      if id in ids {
        var i := SlotOfOpen(p, l, id);
        SlotVerdict(p, l, time, i);
        assert Has(v, i, id, drained);
      }
    }
    CountIsSize(v, drained, ids);
  }

  lemma SweptCounts(st: Storage)
    ensures Swept(st) == (Count(VerdictsOf(st), IsDrained), Count(VerdictsOf(st), IsPinned))
  {
    match st
    case Production(t) =>
      CountAlike(t, OfSlots(t), DrainedSlot, IsDrained);
      CountAlike(t, OfSlots(t), PinnedSlot, IsPinned);
    case Diagnostic(s, _) =>
      CountAlike(s, OfDiagSlots(s), DrainedState, IsDrained);
      CountAlike(s, OfDiagSlots(s), PinnedState, IsPinned);
  }

  lemma ClosingSplits(p: Profile, open: Book, time: Timespec)
    ensures |Closing(p, open, time, true)| + |Closing(p, open, time, false)| == |open|
  {
    assert Closing(p, open, time, true) + Closing(p, open, time, false) == open.Keys;
  }

  /** Sweep agrees with close, in either mode: its drainable count is the number of open
      granules whose close would now return 1, its total is the number of open granules, and its rate
      is the share of the one in the other. */
  lemma SweepAgrees(p: Profile, l: Ledger, time: Timespec)
    requires ShowsLedger(p, l)
    ensures var (drainable, pinned) := Swept(p.storage);
      && drainable == |Closing(p, l.open, time, true)|
      && pinned == |Closing(p, l.open, time, false)|
      && drainable + pinned == |l.open|
      && IsShare(Dsr(drainable, drainable + pinned), |Closing(p, l.open, time, true)|, |l.open|)
  {
    SweptCounts(p.storage);
    SweepCounts(p, l, time, true);
    SweepCounts(p, l, time, false);
    ClosingSplits(p, l.open, time);
    DsrIsShare(Swept(p.storage).0, |l.open|);
  }

  /** After a run that respects the contract, with chain-safe closes in production mode, the
      sweep total is the open_granules counter. */
  lemma SweepTotal(p: Profile, capacity: nat, diagCapacity: nat, calls: seq<Call>)
    requires ShowsLedger(p, EMPTY_LEDGER) && Sized(p, capacity, diagCapacity) && ChainSafeRun(p, calls)
    requires Respectful(capacity, diagCapacity, calls) && capacity < 0x1_0000_0000
    ensures var (drainable, pinned) := Swept(Reached(p, calls).storage);
      drainable + pinned == Reached(p, calls).counters.openGranules
  {
    FollowsRun(p, capacity, diagCapacity, calls);
    RunCounters(p, capacity, diagCapacity, calls);
    SweepAgrees(Reached(p, calls), After(capacity, calls), 0);
  }
}
