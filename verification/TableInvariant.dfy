/** What each table operation keeps, and the exact effect of a close. */
module TableInvariant {
  import opened Hash
  import opened Probe
  import opened SlotTable

  /** Slot `s` lies strictly before slot `i` on the probe path of the granule in `i`. */
  predicate Before(t: Table, s: nat, i: nat)
    requires s < |t| && i < |t|
  {
    Depth(t[i].id, s, |t|) < Depth(t[i].id, i, |t|)
  }

  ghost predicate Reachable(t: Table, i: nat)
    requires i < |t|
  {
    forall s: nat :: s < |t| && Before(t, s, i) ==> t[s].occupied
  }

  ghost predicate StoredOnce(t: Table) {
    forall i: nat, j: nat ::
      i < |t| && j < |t| && t[i].occupied && t[j].occupied && t[i].id == t[j].id ==> i == j
  }

  /** Every open granule is stored once and its probe path has no gap. */
  ghost predicate Inv(t: Table) {
    && |t| <= MAX_CAPACITY
    && StoredOnce(t)
    && forall i: nat :: i < |t| && t[i].occupied ==> Reachable(t, i)
  }

  /** Clearing slot `s` leaves no gap on the path of another open granule. */
  ghost predicate ChainSafe(t: Table, s: nat)
    requires s < |t|
  {
    forall i: nat :: i < |t| && i != s && t[i].occupied ==> !Before(t, s, i)
  }

  lemma StopUnique(t: SmallTable, id: GranuleId, i: nat)
    requires StopsAt(t, id, 0, i)
    ensures Stop(t, id, 0) == Some(i)
  {
    var r := Stop(t, id, 0);
    assert r.Some? by {
      assert !Passed(t, i, id);
    }
    assert Depth(id, r.value, |t|) == Depth(id, i, |t|);
  }

  /** find_slot returns the slot of a granule exactly when the path to it has no gap. */
  lemma FindIffReachable(t: SmallTable, id: GranuleId, i: nat)
    requires StoredOnce(t) && Holds(t, i, id)
    ensures Find(t, id) == (if Reachable(t, i) then Some(i) else None)
  {
    if Reachable(t, i) {
      forall s: nat | s < |t| && 0 <= Depth(id, s, |t|) < Depth(id, i, |t|)
        ensures Passed(t, s, id)
      {
        assert Before(t, s, i);
      }
      StopUnique(t, id, i);
    } else {
      var s: nat :| s < |t| && Before(t, s, i) && !t[s].occupied;
      var r := Stop(t, id, 0);
      assert !Passed(t, s, id);
      assert StopsAt(t, id, 0, r.value);
    }
  }

  /** Under the invariant find_slot is exact: it finds every open granule and no other. */
  lemma FindExact(t: Table, id: GranuleId, i: nat)
    requires Inv(t)
    ensures Find(t, id) == Some(i) <==> Holds(t, i, id)
  {
    if Holds(t, i, id) {
      FindIffReachable(t, id, i);
    }
  }

  lemma FindsNothing(t: Table, id: GranuleId)
    requires Inv(t)
    ensures Find(t, id).None? <==> forall i: nat :: !Holds(t, i, id)
  {
    forall i: nat
      ensures Find(t, id) == Some(i) <==> Holds(t, i, id)
    {
      FindExact(t, id, i);
    }
  }

  lemma ClaimKeeps(t: Table, id: GranuleId, k: nat)
    requires Inv(t)
    requires StopsAt(t, id, 0, k) && !t[k].occupied
    requires forall i: nat :: !Holds(t, i, id)
    ensures Inv(t[k := Slot(true, id, 0)])
  {
    var u := t[k := Slot(true, id, 0)];
    forall i: nat | i < |u| && u[i].occupied
      ensures Reachable(u, i)
    {
      assert i != k ==> Reachable(t, i);
      forall s: nat | s < |u| && Before(u, s, i)
        ensures u[s].occupied
      {
        if i == k {
          assert Passed(t, s, id);
        } else {
          assert Before(t, s, i);
        }
      }
    }
    forall i: nat | i < |t|
      ensures t[i].occupied ==> t[i].id != id
    {
      assert !Holds(t, i, id);
    }
  }

  /** Open keeps the invariant and leaves the granule findable; it fails exactly when
      every slot is occupied by another granule. */
  lemma OpenKeeps(t: Table, id: GranuleId)
    requires Inv(t)
    ensures Inv(AfterOpen(t, id).0)
    ensures AfterOpen(t, id).1 == -1 <==> forall i: nat :: i < |t| ==> Passed(t, i, id)
    ensures AfterOpen(t, id).1 == 0 ==> Find(AfterOpen(t, id).0, id) == Stop(t, id, 0)
  {
    var r := Stop(t, id, 0);
    if r.Some? {
      var k := r.value;
      assert !Passed(t, k, id);
      if !t[k].occupied {
        FindsNothing(t, id);
        ClaimKeeps(t, id, k);
        FindExact(AfterOpen(t, id).0, id, k);
      }
    }
  }

  /** Which granule sits in which slot, counts forgotten. */
  function Layout(t: Table): Table {
    seq(|t|, i requires 0 <= i < |t| => if t[i].occupied then Slot(true, t[i].id, 0) else EMPTY)
  }

  lemma SameSlot(t: Table, u: Table, i: nat)
    requires Layout(t) == Layout(u) && i < |t|
    ensures |t| == |u| && t[i].occupied == u[i].occupied
    ensures t[i].occupied ==> t[i].id == u[i].id
  {
    assert |Layout(u)| == |u|;
    assert Layout(t)[i] == Layout(u)[i];
  }

  /** The invariant speaks of the layout only. */
  lemma LayoutDecides(t: Table, u: Table)
    requires Layout(t) == Layout(u)
    ensures Inv(t) ==> Inv(u)
  {
    assert |Layout(t)| == |Layout(u)|;
    forall i: nat | i < |t| {
      SameSlot(t, u, i);
    }
    if Inv(t) {
      forall i: nat, s: nat | i < |u| && u[i].occupied && s < |u| && Before(u, s, i)
        ensures u[s].occupied
      {
        assert Reachable(t, i) && Before(t, s, i);
      }
    }
  }

  lemma BumpKeepsLayout(t: Table, id: GranuleId, d: int)
    ensures Layout(AfterBump(t, id, d).0) == Layout(t)
  {}

  /** Counting keeps the invariant. */
  lemma BumpKeeps(t: Table, id: GranuleId, d: int)
    requires Inv(t)
    ensures Inv(AfterBump(t, id, d).0)
  {
    BumpKeepsLayout(t, id, d);
    LayoutDecides(t, AfterBump(t, id, d).0);
  }

  /** The exact effect of a close: after slot `s` is cleared, the granule in another slot
      `i` is still found if and only if `s` is not strictly before `i` on its probe path;
      otherwise it has become invisible. */
  lemma CloseEffect(t: Table, s: nat, i: nat)
    requires Inv(t)
    requires s < |t| && t[s].occupied
    requires i < |t| && t[i].occupied && i != s
    ensures Find(Clear(t, s), t[i].id) == if Before(t, s, i) then None else Some(i)
  {
    var u := Clear(t, s);
    assert Reachable(t, i);
    assert forall k: nat :: k < |u| ==> Before(u, k, i) == Before(t, k, i);
    if Before(t, s, i) {
      assert Before(u, s, i) && !u[s].occupied;
    }
    assert Reachable(u, i) <==> !Before(t, s, i);
    FindIffReachable(u, t[i].id, i);
  }

  /** The closed granule itself is gone, whatever the other slots hold. */
  lemma CloseRemoves(t: Table, s: nat)
    requires Inv(t)
    requires s < |t| && t[s].occupied
    ensures Find(Clear(t, s), t[s].id) == None
  {}

  /** The invariant survives a close if and only if the close is chain-safe. */
  lemma CloseKeepsIff(t: Table, s: nat)
    requires Inv(t)
    requires s < |t| && t[s].occupied
    ensures Inv(Clear(t, s)) <==> ChainSafe(t, s)
  {
    var u := Clear(t, s);
    forall i: nat | i < |t| && i != s && t[i].occupied
      ensures Reachable(u, i) <==> !Before(t, s, i)
    {
      CloseEffect(t, s, i);
      FindIffReachable(u, t[i].id, i);
    }
  }

  // Granules 1 and 2 share home slot 1 of a table of three slots, so opening 1 and
  // then 2 puts 2 into slot 2. Closing 1 hides 2; closing 2 hides nothing.

  const G1 := GranuleId(1)
  const G2 := GranuleId(2)
  const FRESH3: Table := [EMPTY, EMPTY, EMPTY]
  const ONE: Table := [EMPTY, Slot(true, G1, 0), EMPTY]
  const BOTH: Table := [EMPTY, Slot(true, G1, 0), Slot(true, G2, 0)]

  lemma WitnessHomes()
    ensures Home(G1, 3) == 1 && Home(G2, 3) == 1
  {
    assert HashGranuleId(G1) == 885181228;
    assert HashGranuleId(G2) == 1694925799;
  }

  lemma WitnessReached()
    ensures AfterOpen(FRESH3, G1).0 == ONE && AfterOpen(ONE, G2).0 == BOTH
    ensures Inv(BOTH)
  {
    WitnessHomes();
    assert Inv(FRESH3);
    StopUnique(FRESH3, G1, 1);
    StopUnique(ONE, G2, 2);
    OpenKeeps(FRESH3, G1);
    OpenKeeps(ONE, G2);
  }

  /** Both sides of CloseEffect and of CloseKeepsIff occur after two opens. */
  lemma BothSidesOccur()
    ensures Inv(BOTH)
    ensures Find(Clear(BOTH, 1), G2) == None && !Inv(Clear(BOTH, 1))
    ensures Find(Clear(BOTH, 2), G1) == Some(1) && Inv(Clear(BOTH, 2))
  {
    WitnessReached();
    WitnessHomes();
    CloseEffect(BOTH, 1, 2);
    CloseEffect(BOTH, 2, 1);
    CloseKeepsIff(BOTH, 1);
    CloseKeepsIff(BOTH, 2);
  }
}
