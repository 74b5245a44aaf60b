/** What happens outside the contract: where the modes part and where production mode loses count. */
module OutsideContract {
  import opened Hash
  import opened Probe
  import opened SlotTable
  import opened TableInvariant
  import opened TableHistory
  import opened GranuleDiag
  import opened Ledger
  import opened Profiler
  import opened ModeAgreement

  // Granules 1 and 4 share slot 1 of a diagnostic table of three slots.

  /** Agreement needs the contract: after opening granule 1, an open of granule 4 succeeds
      in production mode and fails in diagnostic mode, at the same capacity. */
  lemma ClashWitness(p: Profile, d: Profile)
    requires ShowsCounts(p, EMPTY_LEDGER) && |p.storage.table| == 3
    requires ShowsRecords(d, EMPTY_LEDGER) && |d.storage.slots| == 3
    ensures var one, four := OpenCall(GranuleId(1), 0), OpenCall(GranuleId(4), 0);
      && Serve(p, one).1 == Serve(d, one).1 == 0
      && Serve(Serve(p, one).0, four).1 == 0
      && Serve(Serve(d, one).0, four).1 == -1
  {
    var one, four := OpenCall(GranuleId(1), 0), OpenCall(GranuleId(4), 0);
    assert DiagIndex(GranuleId(1), 3) == DiagIndex(GranuleId(4), 3) == 1;
    ProductionKeepsSize(p, one);
    ProductionFollows(p, EMPTY_LEDGER, 3, one);
    DiagnosticFollows(d, EMPTY_LEDGER, 3, one);
    var l := Enter(EMPTY_LEDGER, 3, one).0;
    ProductionAnswers(Serve(p, one).0, l, four);
    DiagnosticAnswers(Serve(d, one).0, l, four);
    assert GranuleId(1) in l.open;
  }

  // A repeated open.

  lemma ServeOpen(p: Profile, id: GranuleId, time: Timespec)
    requires p.storage.Production?
    ensures var (t, code) := AfterOpen(p.storage.table, id);
      Serve(p, OpenCall(id, time))
      == (Profile(Production(t), if code == 0 then CountOpen(p.counters) else p.counters), code)
  {}

  lemma OccupiedAfterOpen(t: Table, m: LiveMap, id: GranuleId)
    requires Refines(t, m) && AfterOpen(t, id).1 == 0
    ensures |OccupiedSlots(AfterOpen(t, id).0)| == (if id in m then |m| else |m| + 1)
    ensures |m| <= |t|
  {
    RefineOpen(t, m, id);
    MapCountsSlots(t, m);
    MapCountsSlots(AfterOpen(t, id).0, ApplyMap(m, |t|, OpenOp(id)).0);
  }

  /** A repeated open in production mode reports success, leaves the table as it is, and
      counts one open granule too many. */
  lemma RepeatedOpenInflates(p: Profile, m: LiveMap, id: GranuleId, time: Timespec)
    requires p.storage.Production? && Refines(p.storage.table, m) && id in m
    ensures Serve(p, OpenCall(id, time)) == (Profile(p.storage, CountOpen(p.counters)), 0)
  {
    Membership(p.storage.table, m, id);
  }

  lemma CountedAfterOpen(p: Profile, known: bool, id: GranuleId, time: Timespec)
    requires p.storage.Production? && p.counters.openGranules <= MAX_CAPACITY
    requires var (t, code) := AfterOpen(p.storage.table, id);
      code == 0 && |OccupiedSlots(t)| == p.counters.openGranules + if known then 0 else 1
    ensures var p' := Serve(p, OpenCall(id, time)).0;
      && p'.storage.Production?
      && (p'.counters.openGranules == |OccupiedSlots(p'.storage.table)| <==> !known)
  {
    ServeOpen(p, id, time);
  }

  /** After a successful production open, open_granules counts the occupied slots if and only
      if the id was not open before. */
  lemma OpenCountsIff(p: Profile, m: LiveMap, id: GranuleId, time: Timespec)
    requires p.storage.Production? && Refines(p.storage.table, m) && p.counters.openGranules == |m|
    requires Serve(p, OpenCall(id, time)).1 == 0
    ensures var p' := Serve(p, OpenCall(id, time)).0;
      && p'.storage.Production?
      && (p'.counters.openGranules == |OccupiedSlots(p'.storage.table)| <==> id !in m)
  {
    assert AfterOpen(p.storage.table, id).1 == 0 by { ServeOpen(p, id, time); }
    OccupiedAfterOpen(p.storage.table, m, id);
    CountedAfterOpen(p, id in m, id, time);
  }

  // A close that reads UINT32_MAX.

  /** A production close of an open granule frees its slot and yet reports an error, without
      counting the close, if and only if the 32-bit count reads UINT32_MAX. */
  lemma CloseLeaksIff(p: Profile, m: LiveMap, id: GranuleId, time: Timespec)
    requires p.storage.Production? && Refines(p.storage.table, m) && id in m
    ensures var (p', code) := Serve(p, CloseCall(id, time));
      && p'.storage.Production? && Find(p'.storage.table, id) == None
      && (code == -1 && p'.counters == p.counters <==> Low32(m[id]) == UINT32_MAX)
  {
    var t := p.storage.table;
    Membership(t, m, id);
    CloseRemoves(t, Find(t, id).value);
    ServeClose(p, id, time);
  }

  lemma OnlyGranule(t: Table, m: LiveMap, id: GranuleId)
    requires Refines(t, m) && m.Keys == {id}
    ensures StepSafe(t, CloseOp(id))
  {
    Membership(t, m, id);
    var s := Find(t, id).value;
    forall i: nat | i < |t| && t[i].occupied
      ensures i == s
    {
      assert t[i].id in m;
    }
  }

  /** An open, one deregistration too many, and a close, on a table without open granules. */
  lemma SurplusTable(t: Table, id: GranuleId)
    requires Refines(t, map[])
    ensures var (t1, code1) := AfterOpen(t, id);
      var (t2, code2) := AfterBump(t1, id, -1);
      var (t3, live) := AfterClose(t2, id);
      code1 == 0 && code2 == 0 && live == UINT32_MAX && Refines(t3, map[])
  {
    var t1 := AfterOpen(t, id).0;
    var t2 := AfterBump(t1, id, -1).0;
    var m1: LiveMap, m2: LiveMap := map[id := 0], map[id := -1];
    RefineOpen(t, map[], id);
    assert AddMap(m1, id, -1).0 == m2;
    RefineBump(t1, m1, id, -1);
    OnlyGranule(t2, m2, id);
    RefineClose(t2, m2, id);
    assert m2 - {id} == map[];
  }

  /** A run that leaks: the count wraps from 0 to UINT32_MAX, the close returns -1,
      and open_granules stays at 1 although no granule is open. */
  lemma SurplusCloseLeaks(p: Profile, id: GranuleId, alloc: AllocId, time: Timespec)
    requires p.storage.Production? && Refines(p.storage.table, map[]) && p.counters == NO_COUNTS
    ensures var calls := [OpenCall(id, time), DeregisterCall(id, alloc, time), CloseCall(id, time)];
      var p' := Reached(p, calls);
      && Serve(Reached(p, calls[..2]), calls[2]).1 == -1
      && p'.storage.Production? && Refines(p'.storage.table, map[])
      && p'.counters.openGranules == 1 && p'.counters.totalCloses == 0
  {
    var calls := [OpenCall(id, time), DeregisterCall(id, alloc, time), CloseCall(id, time)];
    SurplusTable(p.storage.table, id);
    assert calls[..1] == [calls[0]] && calls[..2][..1] == calls[..1] && calls[..1][..0] == [];
    var p1 := Serve(p, calls[0]).0;
    var p2 := Serve(p1, calls[1]).0;
    assert Reached(p, calls[..1]) == p1;
    assert Reached(p, calls[..2]) == p2;
    assert Reached(p, calls) == Serve(p2, calls[2]).0;
  }
}
