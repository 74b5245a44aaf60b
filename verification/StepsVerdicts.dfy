/** What the verdict counters count under interleaving. */
module StepsVerdicts {
  import opened Counting
  import opened Probe
  import opened Steps
  import opened StepsInvariant
  import opened StepsCounters
  import opened StepsHistory
  import opened StepsResults

  datatype Outcome = CountedDrainable | CountedPinned | Lost

  /** How the close of a slot with this 32-bit count ends. */
  function OutcomeOf(live: nat): Outcome {
    if live == 0 then CountedDrainable else if live == UINT32_MAX then Lost else CountedPinned
  }

  /** A closer past its release that has not yet counted its verdict. */
  predicate PastRelease(pc: Pc) {
    pc.UncountOpen? || pc.CountClose? || pc.CountVerdict?
  }

  predicate DrainPending(pc: Pc) {
    PastRelease(pc) && pc.live == 0
  }

  predicate PinPending(pc: Pc) {
    PastRelease(pc) && pc.live != 0
  }

  /** The thread is about to release a slot with this outcome. */
  predicate Releasing(pc: Pc, outcome: Outcome) {
    pc.CloseRelease? && OutcomeOf(pc.live) == outcome
  }

  /** What one step of thread `t` adds to a verdict counter, it takes from those pending. */
  ghost predicate Tallies(s: State, s': State, t: nat)
    requires t < |s.pcs| == |s'.pcs|
  {
    && s'.c.drainable + One(DrainPending(s'.pcs[t]))
       == s.c.drainable + One(DrainPending(s.pcs[t])) + One(Releasing(s.pcs[t], CountedDrainable))
    && s'.c.pinned + One(PinPending(s'.pcs[t]))
       == s.c.pinned + One(PinPending(s.pcs[t])) + One(Releasing(s.pcs[t], CountedPinned))
  }

  /** A step before the release. */
  ghost predicate Unrelated(s: State, s': State, t: nat)
    requires t < |s.pcs| == |s'.pcs|
  {
    && s'.c.drainable == s.c.drainable && s'.c.pinned == s.c.pinned
    && !PastRelease(s.pcs[t]) && !PastRelease(s'.pcs[t]) && !s.pcs[t].CloseRelease?
  }

  lemma OpenUnrelated(s: State, t: nat, spurious: bool)
    requires Shape(s) && t < |s.pcs| && Opening(s.pcs[t]).Some?
    ensures Unrelated(s, Step(s, t, spurious).0, t)
  {}

  lemma UseUnrelated(s: State, t: nat, spurious: bool)
    requires Shape(s) && t < |s.pcs| && Using(s.pcs[t]).Some? && !s.pcs[t].CloseRelease?
    ensures Unrelated(s, Step(s, t, spurious).0, t)
  {}

  lemma CloseTallies(s: State, t: nat, spurious: bool)
    requires Shape(s) && t < |s.pcs|
    requires s.pcs[t] == Idle || s.pcs[t].CloseRelease? || PastRelease(s.pcs[t])
    ensures Tallies(s, Step(s, t, spurious).0, t)
  {}

  lemma StepTallies(s: State, t: nat, spurious: bool)
    requires Shape(s) && t < |s.pcs|
    ensures Tallies(s, Step(s, t, spurious).0, t)
  {
    if Opening(s.pcs[t]).Some? {
      OpenUnrelated(s, t, spurious);
    } else if Using(s.pcs[t]).Some? && !s.pcs[t].CloseRelease? {
      UseUnrelated(s, t, spurious);
    } else {
      CloseTallies(s, t, spurious);
    }
  }

  lemma NextTallies(s: State, s': State, t: nat)
    requires Inv(s) && (Begins(s, s', t) || Moves(s, s', t)) && |s'.pcs| == |s.pcs|
    ensures Tallies(s, s', t)
  {
    if !Begins(s, s', t) {
      var spurious :| s' == Step(s, t, spurious).0;
      StepTallies(s, t, spurious);
    }
  }

  // Releases of a run.

  /** In step `j` thread `t` releases a slot whose net count has this outcome. */
  ghost predicate ReleasesAt(run: seq<State>, j: nat, t: nat, outcome: Outcome) {
    && j + 1 < |run| && t < |run[j].pcs| && t < |run[j + 1].pcs|
    && run[j].pcs[t].CloseRelease? && run[j + 1].pcs[t] != run[j].pcs[t]
    && OutcomeOf(Low32(Net(run, j, run[j].pcs[t].id, run[j].pcs[t].slot))) == outcome
  }

  ghost predicate SomeReleases(run: seq<State>, j: nat, outcome: Outcome) {
    exists t: nat :: ReleasesAt(run, j, t, outcome)
  }

  /** The number of releases with this outcome before state `k`. */
  ghost function ReleaseCount(run: seq<State>, k: nat, outcome: Outcome): nat {
    if k == 0 then 0
    else ReleaseCount(run, k - 1, outcome) + if SomeReleases(run, k - 1, outcome) then 1 else 0
  }

  lemma ReleasesWhen(run: seq<State>, j: nat, t: nat, outcome: Outcome)
    requires Execution(run) && j + 1 < |run| && Active(run[j], run[j + 1], t)
    ensures SomeReleases(run, j, outcome) <==> Releasing(run[j].pcs[t], outcome)
  {
    if run[j].pcs[t].CloseRelease? {
      CloseReports(run, j, t, false);
      assert ReleasesAt(run, j, t, outcome) <==> Releasing(run[j].pcs[t], outcome);
    }
  }

  ghost predicate VerdictsTell(run: seq<State>, k: nat) {
    && k < |run|
    && run[k].c.drainable + Count(run[k].pcs, DrainPending) == ReleaseCount(run, k, CountedDrainable)
    && run[k].c.pinned + Count(run[k].pcs, PinPending) == ReleaseCount(run, k, CountedPinned)
    && run[k].leaked == ReleaseCount(run, k, Lost)
  }

  lemma VerdictsNext(run: seq<State>, k: nat)
    requires Execution(run) && k + 1 < |run| && VerdictsTell(run, k)
    ensures VerdictsTell(run, k + 1)
  {
    var s, s' := run[k], run[k + 1];
    ReachableInv(run, k);
    assert Linked(run, k);
    var t := ActiveThread(s, s');
    NextTallies(s, s', t);
    ReleasesWhen(run, k, t, CountedDrainable);
    ReleasesWhen(run, k, t, CountedPinned);
    ReleasesWhen(run, k, t, Lost);
    CountUpdate(s.pcs, t, s'.pcs[t], DrainPending);
    CountUpdate(s.pcs, t, s'.pcs[t], PinPending);
  }

  /** At every state of every interleaving: drainable_closes, with the closers still on their
      way to it, is the number of releases so far of a slot whose registrations and
      deregistrations cancel; pinned_closes, with those on their way to it, is the number of
      the others, less the closes lost to the error value. */
  lemma {:induction false} VerdictsCounted(run: seq<State>, k: nat)
    requires Execution(run) && k < |run|
    ensures VerdictsTell(run, k)
  {
    if k == 0 {
      CountNone(run[0].pcs, DrainPending);
      CountNone(run[0].pcs, PinPending);
    } else {
      VerdictsCounted(run, k - 1);
      VerdictsNext(run, k - 1);
    }
  }

  /** At quiescence nothing is pending. */
  lemma QuiescentVerdicts(run: seq<State>, k: nat)
    requires Execution(run) && k < |run| && Quiescent(run[k])
    ensures run[k].c.drainable == ReleaseCount(run, k, CountedDrainable)
    ensures run[k].c.pinned == ReleaseCount(run, k, CountedPinned)
  {
    VerdictsCounted(run, k);
    CountNone(run[k].pcs, DrainPending);
    CountNone(run[k].pcs, PinPending);
  }
}
