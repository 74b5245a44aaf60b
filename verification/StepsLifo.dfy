/** A class of concurrent runs, told by what a caller can see, in which every close is safe:
    slots are given up in reverse order of their claims, with no open in flight. */
module StepsLifo {
  import opened Hash
  import opened SlotTable
  import opened Steps
  import opened StepsInvariant
  import opened StepsHistory
  import opened StepsRefinement
  import opened Probe

  // Runs without the two safety conditions on steps.

  ghost predicate FreelyMoves(s: State, s': State, t: nat) {
    Shape(s) && t < |s.pcs| && exists spurious :: s' == Step(s, t, spurious).0
  }

  ghost predicate FreelyNext(s: State, s': State) {
    exists t: nat :: Begins(s, s', t) || FreelyMoves(s, s', t)
  }

  ghost predicate FreelyLinked(run: seq<State>, k: nat) {
    k + 1 < |run| && FreelyNext(run[k], run[k + 1])
  }

  ghost predicate FreeExecution(run: seq<State>) {
    && run != []
    && Initial(run[0])
    && forall k: nat :: k + 1 < |run| ==> FreelyLinked(run, k)
  }

  // What a caller sees.

  /** No call names granule zero. */
  ghost predicate NoZeroCalls(s: State) {
    forall t :: 0 <= t < |s.pcs| ==> Opening(s.pcs[t]) != Some(ZERO) && Using(s.pcs[t]) != Some(ZERO)
  }

  ghost predicate NoOpenInFlight(s: State) {
    forall t :: 0 <= t < |s.pcs| ==> Opening(s.pcs[t]).None?
  }

  predicate Claims(s: State, s': State, i: nat) {
    !InUse(s, i) && InUse(s', i)
  }

  predicate Frees(s: State, s': State, i: nat) {
    InUse(s, i) && !InUse(s', i)
  }

  /** `o` lists the slots in use in order of their claims. A slot that is given up is the last
      of the list, and no open is in flight. */
  ghost predicate OrderNext(s: State, s': State, o: seq<nat>, o': seq<nat>) {
    && (forall i: nat :: Claims(s, s', i) ==> o' == o + [i])
    && (forall i: nat :: Frees(s, s', i) ==>
          o != [] && o[|o| - 1] == i && o' == o[..|o| - 1] && NoOpenInFlight(s))
    && ((forall i: nat :: !Claims(s, s', i) && !Frees(s, s', i)) ==> o' == o)
  }

  ghost predicate OrderAt(run: seq<State>, orders: seq<seq<nat>>, k: nat) {
    k + 1 < |run| == |orders| && OrderNext(run[k], run[k + 1], orders[k], orders[k + 1])
  }

  ghost predicate LifoRun(run: seq<State>, orders: seq<seq<nat>>) {
    && FreeExecution(run)
    && |orders| == |run| && orders[0] == []
    && (forall k: nat :: k + 1 < |run| ==> OrderAt(run, orders, k))
    && forall k: nat :: k < |run| ==> NoZeroCalls(run[k])
  }

  // The order of the owners.

  /** Every slot before slot `i` on the path of its granule is among `earlier`. */
  ghost predicate Elders(owner: seq<Owner>, i: nat, earlier: seq<nat>) {
    && i < |owner| && owner[i].Held?
    && forall j: nat :: j < |owner| && Depth(owner[i].id, j, |owner|) < Depth(owner[i].id, i, |owner|)
                        ==> j in earlier
  }

  /** `o` lists the held slots, each once, and each after all slots before it on its path. */
  ghost predicate Ordered(owner: seq<Owner>, o: seq<nat>) {
    && (forall i: nat :: i in o <==> i < |owner| && owner[i].Held?)
    && (forall a: nat, b: nat :: a < b < |o| ==> o[a] != o[b])
    && forall a: nat :: a < |o| ==> Elders(owner, o[a], o[..a])
  }

  predicate SameHolder(o: Owner, o': Owner) {
    o'.Held? == o.Held? && (o.Held? ==> o'.id == o.id)
  }

  ghost predicate SameHolders(owner: seq<Owner>, owner': seq<Owner>) {
    |owner'| == |owner| && forall i :: 0 <= i < |owner| ==> SameHolder(owner[i], owner'[i])
  }

  lemma OrderedSame(owner: seq<Owner>, owner': seq<Owner>, o: seq<nat>)
    requires Ordered(owner, o) && SameHolders(owner, owner')
    ensures Ordered(owner', o)
  {
    forall i: nat
      ensures i in o <==> i < |owner'| && owner'[i].Held?
    {
      assert i < |owner| ==> SameHolder(owner[i], owner'[i]);
    }
    forall a: nat | a < |o|
      ensures Elders(owner', o[a], o[..a])
    {
      assert Elders(owner, o[a], o[..a]) && SameHolder(owner[o[a]], owner'[o[a]]);
    }
  }

  lemma OrderedClaim(owner: seq<Owner>, o: seq<nat>, i: nat, id: GranuleId)
    requires Ordered(owner, o) && i < |owner| && owner[i].Free?
    requires Scanned(owner, id, Depth(id, i, |owner|))
    ensures Ordered(owner[i := Held(id, Claimed, 0, 0)], o + [i])
  {
    var owner', o' := owner[i := Held(id, Claimed, 0, 0)], o + [i];
    forall a: nat | a < |o'|
      ensures Elders(owner', o'[a], o'[..a])
    {
      if a < |o| {
        assert o'[..a] == o[..a] && Elders(owner, o[a], o[..a]);
        assert o[a] in o;
      } else {
        assert o'[..a] == o;
      }
    }
  }

  lemma OrderedRelease(owner: seq<Owner>, o: seq<nat>)
    requires Ordered(owner, o) && o != [] && o[|o| - 1] < |owner|
    ensures Ordered(owner[o[|o| - 1] := Free], o[..|o| - 1])
  {
    var n := |o| - 1;
    var i, o' := o[n], o[..n];
    var owner' := owner[i := Free];
    forall j: nat
      ensures j in o' <==> j < |owner'| && owner'[j].Held?
    {
      assert o == o' + [i];
    }
    forall a: nat | a < n
      ensures Elders(owner', o'[a], o'[..a])
    {
      assert o'[..a] == o[..a] && Elders(owner, o[a], o[..a]);
    }
  }

  /** The slot claimed last is before no other held slot on that slot's path. */
  lemma LastIsSafe(owner: seq<Owner>, o: seq<nat>, k: nat)
    requires Ordered(owner, o) && o != [] && k < |owner| && owner[k].Held? && k != o[|o| - 1]
    requires o[|o| - 1] < |owner|
    ensures Depth(owner[k].id, k, |owner|) <= Depth(owner[k].id, o[|o| - 1], |owner|)
  {
    var n := |o| - 1;
    assert k in o;
    var a: nat :| a < |o| && o[a] == k;
    assert Elders(owner, o[a], o[..a]);
    assert forall b: nat :: b < a ==> o[..a][b] != o[n];
  }

  lemma LifoReleaseSafe(s: State, o: seq<nat>)
    requires |s.owner| == |s.slots| && Ordered(s.owner, o) && o != [] && o[|o| - 1] < |s.slots|
    requires NoOpenInFlight(s)
    ensures ReleaseSafe(s, o[|o| - 1])
  {
    forall k: nat | k < |s.slots| && k != o[|o| - 1] && s.owner[k].Held?
      ensures Depth(s.owner[k].id, k, |s.slots|) <= Depth(s.owner[k].id, o[|o| - 1], |s.slots|)
    {
      LastIsSafe(s.owner, o, k);
    }
  }

  // One step.

  lemma UseMeansHeld(s: State, i: nat)
    requires Inv(s)
    ensures InUse(s, i) <==> i < |s.owner| && s.owner[i].Held?
  {
    if i < |s.slots| {
      assert SlotAgrees(s.slots[i], s.owner[i]);
    }
  }

  lemma ReadsSafely(s: State, t: nat)
    requires Shape(s) && t < |s.pcs| && NoZeroCalls(s)
    ensures ReadSafe(s, t)
  {
    assert Opening(s.pcs[t]) != Some(ZERO) && Using(s.pcs[t]) != Some(ZERO);
  }

  /** A step that neither claims nor gives up a slot. */
  lemma SilentOrdered(s: State, s': State, o: seq<nat>, o': seq<nat>)
    requires Inv(s) && Inv(s') && SameHolders(s.owner, s'.owner)
    requires Ordered(s.owner, o) && OrderNext(s, s', o, o')
    ensures Ordered(s'.owner, o')
  {
    forall i: nat
      ensures !Claims(s, s', i) && !Frees(s, s', i)
    {
      UseMeansHeld(s, i);
      UseMeansHeld(s', i);
      assert i < |s.owner| ==> SameHolder(s.owner[i], s'.owner[i]);
    }
    OrderedSame(s.owner, s'.owner, o);
  }

  lemma ReleaseOrdered(s: State, t: nat, id: GranuleId, i: nat, live: nat, o: seq<nat>, o': seq<nat>)
    requires Ready(s, t, CloseRelease(id, i, live), i) && Shape(s)
    requires Ordered(s.owner, o) && OrderNext(s, Release(s, t, i, live), o, o')
    ensures ReleaseSafe(s, i) && Ordered(Release(s, t, i, live).owner, o')
  {
    assert PcInv(s.owner, s.pcs[t]);
    UseMeansHeld(s, i);
    assert Frees(s, Release(s, t, i, live), i);
    LifoReleaseSafe(s, o);
    OrderedRelease(s.owner, o);
  }

  lemma ClaimOrdered(s: State, t: nat, id: GranuleId, p: nat, o: seq<nat>, o': seq<nat>)
    requires p < |s.slots| && Ready(s, t, OpenCas(id, p), SlotAt(id, p, |s.slots|))
    requires !s.slots[SlotAt(id, p, |s.slots|)].occupied
    requires Ordered(s.owner, o)
    requires OrderNext(s, CasOccupied(s, t, id, p, SlotAt(id, p, |s.slots|)).0, o, o')
    ensures Ordered(CasOccupied(s, t, id, p, SlotAt(id, p, |s.slots|)).0.owner, o')
  {
    var i := SlotAt(id, p, |s.slots|);
    assert PcInv(s.owner, s.pcs[t]) && SlotAgrees(s.slots[i], s.owner[i]);
    assert Claims(s, CasOccupied(s, t, id, p, i).0, i);
    OrderedClaim(s.owner, o, i, id);
  }

  lemma FetchSame(s: State, t: nat, spurious: bool)
    requires Inv(s) && Shape(s) && t < |s.pcs| && (s.pcs[t].FetchAdd? || s.pcs[t].FetchSub?)
    ensures SameHolders(s.owner, Step(s, t, spurious).0.owner)
  {
    forall i: nat | i < |s.owner|
      ensures SameHolder(s.owner[i], Step(s, t, spurious).0.owner[i])
    {}
  }

  /** Only a claim and a release change who holds what. */
  lemma QuietSame(s: State, t: nat, spurious: bool)
    requires Inv(s) && Shape(s) && t < |s.pcs| && !s.pcs[t].CloseRelease?
    requires s.pcs[t].OpenCas? ==> OpAt(s, t).None?
    ensures SameHolders(s.owner, Step(s, t, spurious).0.owner)
  {
    if s.pcs[t].FetchAdd? || s.pcs[t].FetchSub? {
      FetchSame(s, t, spurious);
    } else {
      SilentStep(s, t, spurious);
      forall i: nat | i < |s.owner|
        ensures SameHolder(s.owner[i], Step(s, t, spurious).0.owner[i])
      {
        assert SameAt(s.owner[i], Step(s, t, spurious).0.owner[i]);
      }
    }
  }

  lemma MoveSafe(s: State, t: nat, spurious: bool, o: seq<nat>, o': seq<nat>)
    requires Inv(s) && Shape(s) && t < |s.pcs| && NoZeroCalls(s)
    requires Ordered(s.owner, o) && OrderNext(s, Step(s, t, spurious).0, o, o')
    ensures s.pcs[t].CloseRelease? ==> ReleaseSafe(s, s.pcs[t].slot)
    ensures ReadSafe(s, t) && Inv(Step(s, t, spurious).0)
  {
    ReadsSafely(s, t);
    if s.pcs[t].CloseRelease? {
      ReleaseOrdered(s, t, s.pcs[t].id, s.pcs[t].slot, s.pcs[t].live, o, o');
    }
    StepKeeps(s, t, spurious);
  }

  lemma MoveOrdered(s: State, t: nat, spurious: bool, o: seq<nat>, o': seq<nat>)
    requires Inv(s) && Shape(s) && t < |s.pcs| && Inv(Step(s, t, spurious).0)
    requires Ordered(s.owner, o) && OrderNext(s, Step(s, t, spurious).0, o, o')
    ensures Ordered(Step(s, t, spurious).0.owner, o')
  {
    if s.pcs[t].CloseRelease? {
      ReleaseOrdered(s, t, s.pcs[t].id, s.pcs[t].slot, s.pcs[t].live, o, o');
    } else if s.pcs[t].OpenCas? && OpAt(s, t).Some? {
      ClaimOrdered(s, t, s.pcs[t].id, s.pcs[t].probe, o, o');
    } else {
      QuietSame(s, t, spurious);
      SilentOrdered(s, Step(s, t, spurious).0, o, o');
    }
  }

  // Whole runs.

  lemma LifoNext(run: seq<State>, orders: seq<seq<nat>>, k: nat)
    requires LifoRun(run, orders) && k + 1 < |run| && Inv(run[k]) && Ordered(run[k].owner, orders[k])
    ensures Linked(run, k) && Inv(run[k + 1]) && Ordered(run[k + 1].owner, orders[k + 1])
  {
    var s, s' := run[k], run[k + 1];
    assert FreelyLinked(run, k) && OrderAt(run, orders, k) && NoZeroCalls(s);
    var t: nat :| Begins(s, s', t) || FreelyMoves(s, s', t);
    if Begins(s, s', t) {
      BeginKeeps(s, s', t);
      SilentOrdered(s, s', orders[k], orders[k + 1]);
    } else {
      var spurious :| s' == Step(s, t, spurious).0;
      MoveSafe(s, t, spurious, orders[k], orders[k + 1]);
      MoveOrdered(s, t, spurious, orders[k], orders[k + 1]);
      assert Moves(s, s', t);
    }
  }

  lemma InitialOrdered(s: State)
    requires Initial(s)
    ensures Inv(s) && Ordered(s.owner, [])
  {
    forall t | 0 <= t < |s.pcs|
      ensures PcInv(s.owner, s.pcs[t])
    {}
  }

  lemma {:induction false} LifoState(run: seq<State>, orders: seq<seq<nat>>, k: nat)
    requires LifoRun(run, orders) && k < |run|
    ensures Inv(run[k]) && Ordered(run[k].owner, orders[k])
  {
    if k == 0 {
      InitialOrdered(run[0]);
    } else {
      var j := k - 1;
      LifoState(run, orders, j);
      LifoNext(run, orders, j);
      assert run[j + 1] == run[k] && orders[j + 1] == orders[k];
    }
  }

  /** Such a run is an execution: each of its releases leaves no gap and each of its reads is
      of the slot it seems to be. So everything proved of executions holds of it. */
  lemma LifoExecutes(run: seq<State>, orders: seq<seq<nat>>)
    requires LifoRun(run, orders)
    ensures Execution(run)
  {
    forall k: nat | k + 1 < |run|
      ensures Linked(run, k)
    {
      LifoState(run, orders, k);
      LifoNext(run, orders, k);
    }
  }
}
