/** Every call ends within a bounded number of its own steps, whatever the other threads do,
    except that an open may retry the update of the peak. */
module StepsProgress {
  import opened Steps
  import opened StepsInvariant

  /** A bound on the steps that a thread still has to take, in a table of `n` slots. */
  function Remaining(pc: Pc, n: nat): nat
    requires InRange(pc, n)
  {
    match pc
    case OpenLoad(_, p) => 2 * (n - p) + 5
    case OpenLoadId(_, p) => 2 * (n - p) + 4
    case OpenCas(_, p) => 2 * (n - p) + 4
    case OpenStoreId(_, _) => 5
    case OpenStoreCount(_, _) => 4
    case CountOpen(_, _) => 3
    case PeakLoad(_, _, _) => 2
    case PeakCas(_, _, _, _) => 1
    case FindLoad(_, _, p) => 2 * (n - p) + 7
    case FindLoadId(_, _, p) => 2 * (n - p) + 6
    case FetchAdd(_, _) => 1
    case FetchSub(_, _) => 1
    case CloseLoad(_, _) => 7
    case CloseCount(_, _, _) => 6
    case CloseId(_, _, _) => 5
    case CloseRelease(_, _, _) => 4
    case UncountOpen(_) => 3
    case CountClose(_) => 2
    case CountVerdict(_) => 1
    case Idle => 0
  }

  /** A failed compare-exchange on the peak goes round its loop. */
  predicate Retries(pc: Pc, pc': Pc) {
    pc.PeakCas? && pc'.PeakCas?
  }

  lemma OpenDown(s: State, t: nat, spurious: bool)
    requires Shape(s) && t < |s.pcs| && Opening(s.pcs[t]).Some?
    ensures var pc, pc' := s.pcs[t], Step(s, t, spurious).0.pcs[t];
      && InRange(pc', |s.slots|)
      && (Retries(pc, pc') || Remaining(pc', |s.slots|) < Remaining(pc, |s.slots|))
  {}

  lemma UseDown(s: State, t: nat, spurious: bool)
    requires Shape(s) && t < |s.pcs| && s.pcs[t] != Idle && Opening(s.pcs[t]).None?
    ensures var pc, pc' := s.pcs[t], Step(s, t, spurious).0.pcs[t];
      && InRange(pc', |s.slots|)
      && Remaining(pc', |s.slots|) < Remaining(pc, |s.slots|)
  {}

  /** Every step of a call brings it closer to its end, or retries the update of the peak. */
  lemma StepsDown(s: State, t: nat, spurious: bool)
    requires Shape(s) && t < |s.pcs| && s.pcs[t] != Idle
    ensures var pc, pc' := s.pcs[t], Step(s, t, spurious).0.pcs[t];
      && InRange(pc', |s.slots|)
      && (Retries(pc, pc') || Remaining(pc', |s.slots|) < Remaining(pc, |s.slots|))
  {
    if Opening(s.pcs[t]).Some? {
      OpenDown(s, t, spurious);
    } else {
      UseDown(s, t, spurious);
    }
  }

  lemma RemainingBound(pc: Pc, n: nat)
    requires InRange(pc, n)
    ensures Remaining(pc, n) <= 2 * n + 7
  {}

  lemma StepKeepsSize(s: State, t: nat, spurious: bool)
    requires Shape(s) && t < |s.pcs|
    ensures |Step(s, t, spurious).0.slots| == |s.slots|
  {}

  lemma StepKeepsOther(s: State, t: nat, spurious: bool, u: nat)
    requires Shape(s) && t < |s.pcs| && u < |s.pcs| && u != t
    ensures Step(s, t, spurious).0.pcs[u] == s.pcs[u]
  {}

  /** The thread takes this step of the run, and it is not a retry. */
  ghost predicate Advances(run: seq<State>, t: nat, k: nat) {
    && k + 1 < |run| && t < |run[k].pcs| && t < |run[k + 1].pcs|
    && run[k].pcs[t] != run[k + 1].pcs[t] && !Retries(run[k].pcs[t], run[k + 1].pcs[t])
  }

  /** How many of the steps from state `j` to state `k` are such. */
  ghost function OwnSteps(run: seq<State>, t: nat, j: nat, k: nat): nat
    requires j <= k
    decreases k
  {
    if j == k then 0 else OwnSteps(run, t, j, k - 1) + if Advances(run, t, k - 1) then 1 else 0
  }

  predicate BusyAt(run: seq<State>, t: nat, m: nat) {
    m < |run| && t < |run[m].pcs| && run[m].pcs[t] != Idle
  }

  /** The thread is at work on one call in every state from `j` on and before `k`. */
  ghost predicate Busy(run: seq<State>, t: nat, j: nat, k: nat) {
    forall m: nat :: j <= m < k ==> BusyAt(run, t, m)
  }

  lemma NextDown(s: State, s': State, t: nat)
    requires Shape(s) && Next(s, s') && t < |s.pcs| && s.pcs[t] != Idle
    ensures t < |s'.pcs| && |s'.slots| == |s.slots| && InRange(s'.pcs[t], |s.slots|)
    ensures || s'.pcs[t] == s.pcs[t] || Retries(s.pcs[t], s'.pcs[t])
            || Remaining(s'.pcs[t], |s.slots|) < Remaining(s.pcs[t], |s.slots|)
  {
    var u: nat :| Begins(s, s', u) || Moves(s, s', u);
    if !Begins(s, s', u) {
      var spurious :| s' == Step(s, u, spurious).0;
      StepKeepsSize(s, u, spurious);
      if u == t {
        StepsDown(s, t, spurious);
      } else {
        StepKeepsOther(s, u, spurious, t);
      }
    }
  }

  /** The steps of the thread so far and those that remain are no more than at first. */
  ghost predicate Within(run: seq<State>, t: nat, j: nat, k: nat, bound: nat, n: nat)
    requires j <= k < |run|
  {
    var s := run[k];
    && t < |s.pcs| && |s.slots| == n && InRange(s.pcs[t], n)
    && OwnSteps(run, t, j, k) + Remaining(s.pcs[t], n) <= bound
  }

  lemma WithinNext(run: seq<State>, t: nat, j: nat, k: nat, bound: nat, n: nat)
    requires j <= k && k + 1 < |run| && Within(run, t, j, k, bound, n)
    requires Shape(run[k]) && Next(run[k], run[k + 1]) && BusyAt(run, t, k)
    ensures Within(run, t, j, k + 1, bound, n)
  {
    var s, s' := run[k], run[k + 1];
    NextDown(s, s', t);
    if Retries(s.pcs[t], s'.pcs[t]) {
      assert Remaining(s'.pcs[t], n) == Remaining(s.pcs[t], n);
    }
  }

  lemma ShapeAt(run: seq<State>, k: nat)
    requires Execution(run) && k < |run|
    ensures Shape(run[k])
    ensures k + 1 < |run| ==> Next(run[k], run[k + 1])
  {
    ReachableInv(run, k);
    assert k + 1 < |run| ==> Linked(run, k);
  }

  lemma {:induction false} BusyWithin(run: seq<State>, t: nat, j: nat, k: nat)
    requires Execution(run) && j <= k < |run| && t < |run[j].pcs| && Busy(run, t, j, k)
    ensures Shape(run[j])
    ensures Within(run, t, j, k, Remaining(run[j].pcs[t], |run[j].slots|), |run[j].slots|)
    decreases k
  {
    ShapeAt(run, j);
    if j < k {
      var m := k - 1;
      BusyWithin(run, t, j, m);
      ShapeAt(run, m);
      assert BusyAt(run, t, m);
      WithinNext(run, t, j, m, Remaining(run[j].pcs[t], |run[j].slots|), |run[j].slots|);
    }
  }

  /** In every execution, and however the other threads are scheduled, a thread takes at most
      2n + 7 steps on one call in a table of n slots, retries of the peak aside. */
  lemma CallsEnd(run: seq<State>, t: nat, j: nat, k: nat)
    requires Execution(run) && j <= k < |run| && t < |run[j].pcs| && Busy(run, t, j, k)
    ensures Shape(run[j])
    ensures OwnSteps(run, t, j, k) <= Remaining(run[j].pcs[t], |run[j].slots|) <= 2 * |run[j].slots| + 7
  {
    BusyWithin(run, t, j, k);
    RemainingBound(run[j].pcs[t], |run[j].slots|);
  }
}
