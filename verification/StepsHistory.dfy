/** Live counts and lost closes, told by the steps of a run. */
module StepsHistory {
  import opened Hash
  import opened Probe
  import opened SlotTable
  import opened Steps
  import opened StepsInvariant

  // Live counts.

  /** The net count of slot `k` moves by this much when thread `t` steps. */
  function Delta(pc: Pc, k: nat): int {
    match pc
    case FetchAdd(_, i) => if i == k then 1 else 0
    case FetchSub(_, i) => if i == k then -1 else 0
    case _ => 0
  }

  /** The slot stays held for the same granule and its net count moves by `d`; a claim
      starts at zero. */
  predicate Follows(o: Owner, o': Owner, d: int) {
    && (o.Held? && o'.Held? ==> o'.id == o.id && o'.regs - o'.deregs == o.regs - o.deregs + d)
    && (o.Free? && o'.Held? ==> o'.regs == o'.deregs == 0)
  }

  lemma ClaimFollows(s: State, t: nat, id: GranuleId, p: nat, k: nat)
    requires p < |s.slots| && Ready(s, t, OpenCas(id, p), SlotAt(id, p, |s.slots|)) && k < |s.owner|
    ensures Follows(s.owner[k], CasOccupied(s, t, id, p, SlotAt(id, p, |s.slots|)).0.owner[k], 0)
  {
    var i := SlotAt(id, p, |s.slots|);
    assert SlotAgrees(s.slots[i], s.owner[i]);
  }

  lemma OpenFollows(s: State, t: nat, spurious: bool, k: nat)
    requires StepsInvariant.Inv(s) && Shape(s) && t < |s.pcs| && k < |s.owner|
    requires Opening(s.pcs[t]).Some?
    ensures Follows(s.owner[k], Step(s, t, spurious).0.owner[k], 0)
  {
    if s.pcs[t].OpenCas? {
      ClaimFollows(s, t, s.pcs[t].id, s.pcs[t].probe, k);
    }
  }

  lemma UseFollows(s: State, t: nat, spurious: bool, k: nat)
    requires StepsInvariant.Inv(s) && Shape(s) && t < |s.pcs| && k < |s.owner|
    requires Using(s.pcs[t]).Some?
    ensures Follows(s.owner[k], Step(s, t, spurious).0.owner[k], Delta(s.pcs[t], k))
  {
    assert PcInv(s.owner, s.pcs[t]);
  }

  /** The history of a slot is faithful: it starts at zero with a claim, and while the slot
      stays held it moves exactly with the fetch-adds and fetch-subs that hit the slot. */
  lemma HistoryFaithful(s: State, t: nat, spurious: bool, k: nat)
    requires StepsInvariant.Inv(s) && Shape(s) && t < |s.pcs| && k < |s.owner|
    ensures Follows(s.owner[k], Step(s, t, spurious).0.owner[k], Delta(s.pcs[t], k))
  {
    if Opening(s.pcs[t]).Some? {
      OpenFollows(s, t, spurious, k);
    } else if Using(s.pcs[t]).Some? {
      UseFollows(s, t, spurious, k);
    }
  }

  // The steps of a run.

  /** Thread `t` completes its register or deregister of `id`, on slot `i`. */
  predicate Completes(s: State, s': State, t: nat, use: Use, id: GranuleId, i: nat) {
    && t < |s.pcs| && t < |s'.pcs|
    && s.pcs[t] == UseSlot(use, id, i)
    && s'.pcs[t] != s.pcs[t]
  }

  ghost predicate SomeCompletes(s: State, s': State, use: Use, id: GranuleId, i: nat) {
    exists t: nat :: Completes(s, s', t, use, id, i)
  }

  predicate InUse(s: State, i: nat) {
    i < |s.slots| && s.slots[i].occupied
  }

  /** The registers of `id` less the deregisters completed on slot `i`, up to state `k` of
      the run, since the slot was last claimed. */
  ghost function Net(run: seq<State>, k: nat, id: GranuleId, i: nat): int
    requires k < |run|
    decreases k
  {
    if k == 0 || !InUse(run[k], i) || !InUse(run[k - 1], i) then 0
    else
      Net(run, k - 1, id, i)
      + (if SomeCompletes(run[k - 1], run[k], Register, id, i) then 1 else 0)
      - (if SomeCompletes(run[k - 1], run[k], Deregister, id, i) then 1 else 0)
  }

  /** Thread `t` gives up a slot whose count read UINT32_MAX. */
  predicate LosesClose(pc: Pc) {
    pc.CloseRelease? && pc.live == UINT32_MAX
  }

  /** Only thread `t` moves, and `leaked` counts the closes it loses. */
  ghost predicate Active(s: State, s': State, t: nat) {
    && t < |s.pcs| == |s'.pcs|
    && s'.pcs == s.pcs[t := s'.pcs[t]]
    && (s.pcs[t].FetchAdd? || s.pcs[t].FetchSub? || s.pcs[t].CloseRelease? ==> s'.pcs[t] != s.pcs[t])
    && s'.leaked == s.leaked + (if LosesClose(s.pcs[t]) then 1 else 0)
  }

  lemma OpenActive(s: State, t: nat, spurious: bool)
    requires StepsInvariant.Inv(s) && Shape(s) && t < |s.pcs| && Opening(s.pcs[t]).Some?
    ensures Active(s, Step(s, t, spurious).0, t)
  {}

  lemma UseActive(s: State, t: nat, spurious: bool)
    requires StepsInvariant.Inv(s) && Shape(s) && t < |s.pcs| && Using(s.pcs[t]).Some?
    ensures Active(s, Step(s, t, spurious).0, t)
  {}

  /** The thread that takes a step, and what the step does to the owners. */
  lemma ActiveThread(s: State, s': State) returns (t: nat)
    requires StepsInvariant.Inv(s) && Next(s, s')
    ensures Begins(s, s', t) || Moves(s, s', t)
    ensures Active(s, s', t) && |s'.owner| == |s.owner|
    ensures forall i: nat :: i < |s.owner| ==> Follows(s.owner[i], s'.owner[i], Delta(s.pcs[t], i))
  {
    t :| Begins(s, s', t) || Moves(s, s', t);
    if !Begins(s, s', t) {
      var spurious :| s' == Step(s, t, spurious).0;
      forall i: nat | i < |s.owner|
        ensures Follows(s.owner[i], s'.owner[i], Delta(s.pcs[t], i))
      {
        HistoryFaithful(s, t, spurious, i);
      }
      if Opening(s.pcs[t]).Some? {
        OpenActive(s, t, spurious);
      } else if Using(s.pcs[t]).Some? {
        UseActive(s, t, spurious);
      }
    }
  }

  lemma CompletesWhen(s: State, s': State, t: nat, use: Use, id: GranuleId, i: nat)
    requires Active(s, s', t) && use != Close
    ensures SomeCompletes(s, s', use, id, i) <==> s.pcs[t] == UseSlot(use, id, i)
  {
    if s.pcs[t] == UseSlot(use, id, i) {
      assert Completes(s, s', t, use, id, i);
    }
  }

  /** The net count of a held slot moves by the completions of its granule. */
  lemma DeltaCompletes(s: State, s': State, t: nat, i: nat)
    requires StepsInvariant.Inv(s) && Active(s, s', t) && i < |s.owner| && s.owner[i].Held?
    ensures Delta(s.pcs[t], i)
         == (if SomeCompletes(s, s', Register, s.owner[i].id, i) then 1 else 0)
            - (if SomeCompletes(s, s', Deregister, s.owner[i].id, i) then 1 else 0)
  {
    assert PcInv(s.owner, s.pcs[t]);
    CompletesWhen(s, s', t, Register, s.owner[i].id, i);
    CompletesWhen(s, s', t, Deregister, s.owner[i].id, i);
  }

  /** A slot that is held after a step was free before, or its net count has moved by the
      completions of its granule. */
  lemma HeldNext(s: State, s': State, i: nat)
    requires StepsInvariant.Inv(s) && StepsInvariant.Inv(s') && Next(s, s')
    requires i < |s'.owner| && s'.owner[i].Held?
    ensures i < |s.owner| && InUse(s', i) && InUse(s, i) == s.owner[i].Held?
    ensures var o, o' := s.owner[i], s'.owner[i];
      if o.Free? then o'.regs == o'.deregs
      else
        && o'.id == o.id
        && o'.regs - o'.deregs == o.regs - o.deregs
             + (if SomeCompletes(s, s', Register, o.id, i) then 1 else 0)
             - (if SomeCompletes(s, s', Deregister, o.id, i) then 1 else 0)
  {
    var t := ActiveThread(s, s');
    assert SlotAgrees(s.slots[i], s.owner[i]) && SlotAgrees(s'.slots[i], s'.owner[i]);
    assert Follows(s.owner[i], s'.owner[i], Delta(s.pcs[t], i));
    if s.owner[i].Held? {
      DeltaCompletes(s, s', t, i);
    }
  }

  /** The history fields of a held slot tell the completions of its granule since its claim. */
  lemma {:induction false} NetTells(run: seq<State>, k: nat, i: nat)
    requires Execution(run) && k < |run|
    requires i < |run[k].owner| && run[k].owner[i].Held?
    ensures run[k].owner[i].regs - run[k].owner[i].deregs == Net(run, k, run[k].owner[i].id, i)
  {
    if k > 0 {
      ReachableInv(run, k - 1);
      ReachableInv(run, k);
      assert Linked(run, k - 1);
      HeldNext(run[k - 1], run[k], i);
      if run[k - 1].owner[i].Held? {
        NetTells(run, k - 1, i);
      }
    }
  }

  /** The count of a settled slot is the number of completed registrations minus completed
      deregistrations since its open, modulo 2^32. */
  lemma SettledCount(run: seq<State>, k: nat, i: nat)
    requires Execution(run) && k < |run|
    requires i < |run[k].slots| && |run[k].owner| == |run[k].slots|
    requires run[k].owner[i].Held? && run[k].owner[i].phase == Opened
    ensures run[k].slots[i].liveCount == Low32(Net(run, k, run[k].owner[i].id, i))
  {
    ReachableInv(run, k);
    NetTells(run, k, i);
    assert SlotAgrees(run[k].slots[i], run[k].owner[i]);
  }

  /** A close reports exactly that number, and gives the slot up last: when it clears the
      occupancy flag the count and the id are already zero, so the slot is clean. */
  lemma CloseReports(run: seq<State>, k: nat, t: nat, spurious: bool)
    requires Execution(run) && k < |run| && t < |run[k].pcs| && run[k].pcs[t].CloseRelease?
    ensures Shape(run[k])
    ensures var s, s' := run[k], Step(run[k], t, spurious).0;
      var pc := s.pcs[t];
      && Step(s, t, spurious).1 == Released(pc.id, pc.slot, pc.live)
      && HoldsId(s.owner[pc.slot], pc.id)
      && pc.live == Low32(Net(run, k, pc.id, pc.slot))
      && s.slots[pc.slot] == EMPTY.(occupied := true)
      && s'.slots[pc.slot] == EMPTY
  {
    ReachableInv(run, k);
    InvShape(run[k]);
    var s := run[k];
    assert PcInv(s.owner, s.pcs[t]);
    NetTells(run, k, s.pcs[t].slot);
    assert SlotAgrees(s.slots[s.pcs[t].slot], s.owner[s.pcs[t].slot]);
  }

  // Lost closes.

  /** In step `j` thread `t` releases a slot whose net count reads UINT32_MAX. */
  ghost predicate LosesAt(run: seq<State>, j: nat, t: nat) {
    && j + 1 < |run| && t < |run[j].pcs| && t < |run[j + 1].pcs|
    && run[j].pcs[t].CloseRelease? && run[j + 1].pcs[t] != run[j].pcs[t]
    && Low32(Net(run, j, run[j].pcs[t].id, run[j].pcs[t].slot)) == UINT32_MAX
  }

  ghost predicate SomeLoses(run: seq<State>, j: nat) {
    exists t: nat :: LosesAt(run, j, t)
  }

  lemma LeakedNext(run: seq<State>, j: nat)
    requires Execution(run) && j + 1 < |run|
    ensures run[j + 1].leaked == run[j].leaked + if SomeLoses(run, j) then 1 else 0
  {
    var s, s' := run[j], run[j + 1];
    ReachableInv(run, j);
    assert Linked(run, j);
    var t := ActiveThread(s, s');
    if s.pcs[t].CloseRelease? {
      CloseReports(run, j, t, false);
      assert LosesAt(run, j, t) <==> LosesClose(s.pcs[t]);
    }
  }

  /** `leaked` is zero exactly when no close so far met a net count that reads UINT32_MAX. */
  lemma {:induction false} LeakedTells(run: seq<State>, k: nat)
    requires Execution(run) && k < |run|
    ensures run[k].leaked == 0 <==> forall j: nat :: j < k ==> !SomeLoses(run, j)
  {
    if k > 0 {
      LeakedTells(run, k - 1);
      LeakedNext(run, k - 1);
    }
  }
}
