/** Both storage modes follow the ledger, so they agree with each other. */
module ModeAgreement {
  import opened Counting
  import opened Hash
  import opened Probe
  import opened SlotTable
  import opened TableHistory
  import opened GranuleDiag
  import opened ReportBuffer
  import opened Ledger
  import opened DiagSlots
  import opened Profiler
  import opened Rate

  /** The live count of each open granule. */
  function Sizes(open: Book): LiveMap {
    map id | id in open :: |open[id]|
  }

  /** A production profiler shows the ledger through its counts. */
  ghost predicate ShowsCounts(p: Profile, l: Ledger) {
    && p.storage.Production?
    && Refines(p.storage.table, Sizes(l.open))
    && p.counters == l.counters
  }

  ghost predicate SlotShows(s: Slots, i: nat, open: Book)
    requires i < |s|
  {
    s[i].Some? ==>
      var g := s[i].value;
      DiagIndex(g.id, |s|) == i && g.id in open && LiveIds(g.records) == open[g.id]
  }

  ghost predicate ShowsBook(s: Slots, open: Book) {
    && (forall i: nat :: i < |s| ==> SlotShows(s, i, open))
    && forall id :: id in open ==> Lookup(s, id).Some?
  }

  /** A diagnostic profiler shows the ledger through its live records. */
  ghost predicate ShowsRecords(d: Profile, l: Ledger) {
    && d.storage.Diagnostic?
    && ShowsBook(d.storage.slots, l.open)
    && d.counters == l.counters
  }

  // Production mode.

  lemma SizesMembers(open: Book)
    ensures Sizes(open).Keys == open.Keys && |Sizes(open)| == |open|
  {}

  lemma SizesSet(open: Book, id: GranuleId, ids: multiset<AllocId>)
    ensures Sizes(open[id := ids]) == Sizes(open)[id := |ids|]
  {}

  lemma SizesRemove(open: Book, id: GranuleId)
    ensures Sizes(open - {id}) == Sizes(open) - {id}
  {}

  lemma TableBump(t: Table, open: Book, id: GranuleId, ids: multiset<AllocId>, d: int)
    requires Refines(t, Sizes(open)) && id in open && |ids| == |open[id]| + d
    ensures Refines(AfterBump(t, id, d).0, Sizes(open[id := ids])) && AfterBump(t, id, d).1 == 0
  {
    SizesSet(open, id, ids);
    RefineBump(t, Sizes(open), id, d);
  }

  lemma OpenWithin(t: Table, open: Book)
    requires Refines(t, Sizes(open))
    ensures |open| <= |t|
  {
    SizesMembers(open);
    MapCountsSlots(t, Sizes(open));
  }

  lemma TableOpen(t: Table, open: Book, id: GranuleId)
    requires Refines(t, Sizes(open)) && id !in open
    ensures AfterOpen(t, id).1 == (if |open| >= |t| then -1 else 0)
    ensures Refines(AfterOpen(t, id).0, Sizes(if |open| >= |t| then open else open[id := multiset{}]))
  {
    OpenWithin(t, open);
    SizesMembers(open);
    SizesSet(open, id, multiset{});
    RefineOpen(t, Sizes(open), id);
  }

  lemma ProductionOpen(p: Profile, l: Ledger, id: GranuleId, time: Timespec)
    requires ShowsCounts(p, l) && id !in l.open
    ensures var (l', code) := Enter(l, |p.storage.table|, OpenCall(id, time));
      var (p', code') := Serve(p, OpenCall(id, time));
      ShowsCounts(p', l') && code == code'
  {
    TableOpen(p.storage.table, l.open, id);
  }

  lemma ProductionUse(p: Profile, l: Ledger, call: Call)
    requires ShowsCounts(p, l)
    requires call.RegisterCall? || (call.DeregisterCall? && (call.id in l.open ==> call.alloc in l.open[call.id]))
    ensures var (l', code) := Enter(l, |p.storage.table|, call);
      var (p', code') := Serve(p, call);
      ShowsCounts(p', l') && code == code'
  {
    var t, id := p.storage.table, call.id;
    if id in l.open {
      var ids := l.open[id];
      if call.RegisterCall? {
        TableBump(t, l.open, id, ids + multiset{call.alloc}, 1);
      } else {
        TableBump(t, l.open, id, ids - multiset{call.alloc}, -1);
      }
    } else {
      Membership(t, Sizes(l.open), id);
    }
  }

  lemma TableClose(t: Table, open: Book, id: GranuleId)
    requires Refines(t, Sizes(open)) && StepSafe(t, CloseOp(id))
    ensures Refines(AfterClose(t, id).0, Sizes(if id in open then open - {id} else open))
    ensures AfterClose(t, id).1 == if id in open then Low32(|open[id]|) else UINT32_MAX
  {
    SizesRemove(open, id);
    RefineClose(t, Sizes(open), id);
  }

  lemma CountTellsDrained(ids: multiset<AllocId>)
    requires Countable(|ids|)
    ensures Low32(|ids|) != UINT32_MAX && (Low32(|ids|) == 0 <==> ids == multiset{})
  {}

  /** How a production close answers, given what the table returns. */
  lemma ServeClose(p: Profile, id: GranuleId, time: Timespec)
    requires p.storage.Production?
    ensures var (t, live) := AfterClose(p.storage.table, id);
      Serve(p, CloseCall(id, time))
      == if live == UINT32_MAX then (Profile(Production(t), p.counters), -1)
         else (Profile(Production(t), CountClose(p.counters, live == 0)), if live == 0 then 1 else 0)
  {}

  lemma ProductionClose(p: Profile, l: Ledger, id: GranuleId, time: Timespec)
    requires ShowsCounts(p, l)
    requires id in l.open ==> Countable(|l.open[id]|)
    requires StepSafe(p.storage.table, CloseOp(id))
    ensures var (l', code) := Enter(l, |p.storage.table|, CloseCall(id, time));
      var (p', code') := Serve(p, CloseCall(id, time));
      ShowsCounts(p', l') && code == code'
  {
    TableClose(p.storage.table, l.open, id);
    ServeClose(p, id, time);
    if id in l.open {
      CountTellsDrained(l.open[id]);
    }
  }

  // Diagnostic mode.

  lemma BookSlot(s: Slots, open: Book, id: GranuleId)
    requires ShowsBook(s, open)
    ensures Lookup(s, id) == if id in open then Some(DiagIndex(id, |s|)) else None
    ensures id in open ==> LiveIds(s[DiagIndex(id, |s|)].value.records) == open[id]
    ensures s[DiagIndex(id, |s|)].Some? <==> Clashes(open, id, |s|)
  {
    var i := DiagIndex(id, |s|);
    assert SlotShows(s, i, open);
    if s[i].Some? {
      assert DiagIndex(s[i].value.id, |s|) == DiagIndex(id, |s|);
    }
  }

  /** The state of one open granule is replaced. */
  lemma BookUpdate(s: Slots, open: Book, id: GranuleId, g: GranuleView)
    requires ShowsBook(s, open) && g.id == id
    requires id in open || !Clashes(open, id, |s|)
    ensures ShowsBook(s[DiagIndex(id, |s|) := Some(g)], open[id := LiveIds(g.records)])
  {
    var i, open' := DiagIndex(id, |s|), open[id := LiveIds(g.records)];
    var s': Slots := s[i := Some(g)];
    BookSlot(s, open, id);
    forall k: nat | k < |s'|
      ensures SlotShows(s', k, open')
    {
      assert SlotShows(s, k, open);
    }
    forall j | j in open'
      ensures Lookup(s', j).Some?
    {
      if j != id {
        BookSlot(s, open, j);
      }
    }
  }

  lemma BookRemove(s: Slots, open: Book, id: GranuleId)
    requires ShowsBook(s, open) && id in open
    ensures ShowsBook(s[DiagIndex(id, |s|) := None], open - {id})
  {
    var i, open' := DiagIndex(id, |s|), open - {id};
    var s': Slots := s[i := None];
    BookSlot(s, open, id);
    forall k: nat | k < |s'|
      ensures SlotShows(s', k, open')
    {
      assert SlotShows(s, k, open);
    }
    forall j | j in open'
      ensures Lookup(s', j).Some?
    {
      BookSlot(s, open, j);
    }
  }

  lemma DiagnosticOpen(d: Profile, l: Ledger, capacity: nat, id: GranuleId, time: Timespec)
    requires ShowsRecords(d, l) && id !in l.open
    requires |l.open| < capacity <==> !Clashes(l.open, id, |d.storage.slots|)
    ensures var (l', code) := Enter(l, capacity, OpenCall(id, time));
      var (d', code') := Serve(d, OpenCall(id, time));
      ShowsRecords(d', l') && code == code'
  {
    BookSlot(d.storage.slots, l.open, id);
    if !Clashes(l.open, id, |d.storage.slots|) {
      BookUpdate(d.storage.slots, l.open, id, GranuleState(id, time, [], 0));
    }
  }

  lemma DiagnosticUse(d: Profile, l: Ledger, capacity: nat, call: Call)
    requires ShowsRecords(d, l)
    requires call.RegisterCall? || (call.DeregisterCall? && (call.id in l.open ==> call.alloc in l.open[call.id]))
    ensures var (l', code) := Enter(l, capacity, call);
      var (d', code') := Serve(d, call);
      ShowsRecords(d', l') && code == code'
  {
    var s, id := d.storage.slots, call.id;
    BookSlot(s, l.open, id);
    if id in l.open {
      var g := s[DiagIndex(id, |s|)].value;
      if call.RegisterCall? {
        var rec := NewRecord(id, call.alloc, call.size, call.file, call.line, call.time);
        AddIds(g.records, rec);
        BookUpdate(s, l.open, id, Added(g, rec));
      } else {
        FreeExact(g.records, g.hint, call.alloc, call.time);
        BookUpdate(s, l.open, id, Marked(g, call.alloc, call.time).0);
      }
    }
  }

  lemma DiagnosticClose(d: Profile, l: Ledger, capacity: nat, id: GranuleId, time: Timespec)
    requires ShowsRecords(d, l)
    ensures var (l', code) := Enter(l, capacity, CloseCall(id, time));
      var (d', code') := Serve(d, CloseCall(id, time));
      ShowsRecords(d', l') && code == code'
  {
    var s := d.storage.slots;
    BookSlot(s, l.open, id);
    if id in l.open {
      BookRemove(s, l.open, id);
      LiveIdsSize(s[DiagIndex(id, |s|)].value.records);
      assert |l.open[id]| == 0 <==> l.open[id] == multiset{};
    }
  }

  // Whole runs of both.

  /** The state after a run. */
  function Reached(p: Profile, calls: seq<Call>): Profile {
    if calls == [] then p else Serve(Reached(p, calls[..|calls| - 1]), calls[|calls| - 1]).0
  }

  /** A close of a production profiler leaves no gap on the path of another open granule. */
  ghost predicate ChainSafeCall(p: Profile, call: Call) {
    p.storage.Production? && call.CloseCall? ==> StepSafe(p.storage.table, CloseOp(call.id))
  }

  ghost predicate ChainSafeRun(p: Profile, calls: seq<Call>) {
    calls == [] ||
    var init := calls[..|calls| - 1];
    ChainSafeRun(p, init) && ChainSafeCall(Reached(p, init), calls[|calls| - 1])
  }

  ghost predicate ShowsLedger(p: Profile, l: Ledger) {
    if p.storage.Production? then ShowsCounts(p, l) else ShowsRecords(p, l)
  }

  /** Chain safety asks nothing of a diagnostic profiler. */
  lemma {:induction false} DiagnosticRun(d: Profile, calls: seq<Call>)
    requires d.storage.Diagnostic?
    ensures Reached(d, calls).storage.Diagnostic? && ChainSafeRun(d, calls)
  {
    if calls != [] {
      DiagnosticRun(d, calls[..|calls| - 1]);
    }
  }

  /** Of the two capacities, the one of this profiler's mode is its own. */
  predicate Sized(p: Profile, capacity: nat, diagCapacity: nat) {
    match p.storage
    case Production(t) => |t| == capacity && diagCapacity > 0
    case Diagnostic(s, _) => |s| == diagCapacity
  }

  lemma ProductionKeepsSize(p: Profile, call: Call)
    requires p.storage.Production?
    ensures var p' := Serve(p, call).0;
      p'.storage.Production? && |p'.storage.table| == |p.storage.table|
  {}

  lemma ProductionFollows(p: Profile, l: Ledger, diagCapacity: nat, call: Call)
    requires ShowsCounts(p, l) && diagCapacity > 0
    requires Respects(l, |p.storage.table|, diagCapacity, call) && ChainSafeCall(p, call)
    ensures var (l', code) := Enter(l, |p.storage.table|, call);
      var (p', code') := Serve(p, call);
      ShowsCounts(p', l') && code == code'
  {
    match call
    case OpenCall(id, time) => ProductionOpen(p, l, id, time);
    case RegisterCall(_, _, _, _, _, _) => ProductionUse(p, l, call);
    case DeregisterCall(_, _, _) => ProductionUse(p, l, call);
    case CloseCall(id, time) => ProductionClose(p, l, id, time);
    case DrainCall(_) =>
  }

  lemma DiagnosticFollows(d: Profile, l: Ledger, capacity: nat, call: Call)
    requires ShowsRecords(d, l)
    requires Respects(l, capacity, |d.storage.slots|, call)
    ensures var (l', code) := Enter(l, capacity, call);
      var (d', code') := Serve(d, call);
      && ShowsRecords(d', l') && |d'.storage.slots| == |d.storage.slots|
      && (call.DrainCall? || code == code')
  {
    match call
    case OpenCall(id, time) => DiagnosticOpen(d, l, capacity, id, time);
    case RegisterCall(_, _, _, _, _, _) => DiagnosticUse(d, l, capacity, call);
    case DeregisterCall(_, _, _) => DiagnosticUse(d, l, capacity, call);
    case CloseCall(id, time) => DiagnosticClose(d, l, capacity, id, time);
    case DrainCall(_) =>
  }

  /** One call: the profiler follows the ledger. Only a drain, which hands out reports, may
      return something else. */
  lemma Follows(p: Profile, l: Ledger, capacity: nat, diagCapacity: nat, call: Call)
    requires ShowsLedger(p, l) && Sized(p, capacity, diagCapacity)
    requires Respects(l, capacity, diagCapacity, call) && ChainSafeCall(p, call)
    ensures var (l', code) := Enter(l, capacity, call);
      var (p', code') := Serve(p, call);
      && ShowsLedger(p', l') && Sized(p', capacity, diagCapacity)
      && p'.storage.Production? == p.storage.Production?
      && (call.DrainCall? || code == code')
  {
    if p.storage.Production? {
      ProductionFollows(p, l, diagCapacity, call);
      ProductionKeepsSize(p, call);
    } else {
      DiagnosticFollows(p, l, capacity, call);
    }
  }

  /** A whole run that respects the contract, with chain-safe closes in production mode:
      the profiler shows the ledger of the run. */
  lemma {:induction false} FollowsRun(p: Profile, capacity: nat, diagCapacity: nat, calls: seq<Call>)
    requires ShowsLedger(p, EMPTY_LEDGER) && Sized(p, capacity, diagCapacity)
    requires Respectful(capacity, diagCapacity, calls) && ChainSafeRun(p, calls)
    ensures ShowsLedger(Reached(p, calls), After(capacity, calls))
    ensures Sized(Reached(p, calls), capacity, diagCapacity)
    ensures Reached(p, calls).storage.Production? == p.storage.Production?
  {
    if calls != [] {
      var init, last := calls[..|calls| - 1], calls[|calls| - 1];
      FollowsRun(p, capacity, diagCapacity, init);
      Follows(Reached(p, init), After(capacity, init), capacity, diagCapacity, last);
    }
  }

  /** What a production profiler answers, whether or not the caller respects the contract. */
  function ProductionCode(open: Book, capacity: nat, call: Call): int
    requires !call.DrainCall?
  {
    match call
    case OpenCall(id, _) => if id in open || |open| < capacity then 0 else -1
    case CloseCall(id, _) =>
      if id !in open || Low32(|open[id]|) == UINT32_MAX then -1
      else if Low32(|open[id]|) == 0 then 1 else 0
    case _ => if call.id in open then 0 else -1
  }

  function DiagnosticCode(open: Book, capacity: nat, call: Call): int
    requires !call.DrainCall? && capacity > 0
  {
    match call
    case OpenCall(id, _) => if Clashes(open, id, capacity) then -1 else 0
    case RegisterCall(id, _, _, _, _, _) => if id in open then 0 else -1
    case DeregisterCall(id, a, _) => if id in open && a in open[id] then 0 else -1
    case CloseCall(id, _) => if id !in open then -1 else if open[id] == multiset{} then 1 else 0
  }

  lemma ProductionAnswers(p: Profile, l: Ledger, call: Call)
    requires ShowsCounts(p, l) && !call.DrainCall?
    ensures Serve(p, call).1 == ProductionCode(l.open, |p.storage.table|, call)
  {
    var t, id := p.storage.table, call.id;
    Membership(t, Sizes(l.open), id);
    if call.OpenCall? {
      if id in l.open {
        assert AfterOpen(t, id).1 == 0;
      } else {
        TableOpen(t, l.open, id);
      }
    }
  }

  lemma DiagnosticAnswers(d: Profile, l: Ledger, call: Call)
    requires ShowsRecords(d, l) && !call.DrainCall?
    ensures Serve(d, call).1 == DiagnosticCode(l.open, |d.storage.slots|, call)
  {
    var s, id := d.storage.slots, call.id;
    BookSlot(s, l.open, id);
    if id in l.open {
      var g := s[DiagIndex(id, |s|)].value;
      if call.DeregisterCall? {
        FreeExact(g.records, g.hint, call.alloc, call.time);
      } else if call.CloseCall? {
        LiveIdsSize(g.records);
      }
    }
  }

  /** A diagnostic open answers 0 or -1, and 0 if and only if no open granule's 64-bit id is
      congruent to the new one modulo the number of slots. */
  lemma DiagnosticOpenIff(d: Profile, l: Ledger, id: GranuleId, time: Timespec)
    requires ShowsRecords(d, l)
    ensures var code := Serve(d, OpenCall(id, time)).1;
      && (code == 0 || code == -1)
      && (code == 0 <==> forall j :: j in l.open ==> !Congruent(j, id, |d.storage.slots|))
  {
    var n := |d.storage.slots|;
    DiagnosticAnswers(d, l, OpenCall(id, time));
    forall j | j in l.open
      ensures DiagIndex(j, n) == DiagIndex(id, n) <==> Congruent(j, id, n)
    {
      DiagIndexIff(j, id, n);
    }
  }

  /** Granules whose ids are below the number of slots never stand in each other's way. */
  lemma SmallIdsOpen(d: Profile, l: Ledger, id: GranuleId, time: Timespec)
    requires ShowsRecords(d, l) && id !in l.open
    requires id.bits as nat < |d.storage.slots|
    requires forall j :: j in l.open ==> j.bits as nat < |d.storage.slots|
    ensures Serve(d, OpenCall(id, time)).1 == 0
  {
    DiagnosticAnswers(d, l, OpenCall(id, time));
    forall j | j in l.open
      ensures DiagIndex(j, |d.storage.slots|) != DiagIndex(id, |d.storage.slots|)
    {
      SmallIdsApart(j, id, |d.storage.slots|);
    }
  }

  lemma AnswersAgreeIff(l: Ledger, capacity: nat, diagCapacity: nat, call: Call)
    requires diagCapacity > 0 && |l.open| <= capacity && !call.DrainCall?
    ensures ProductionCode(l.open, capacity, call) == DiagnosticCode(l.open, diagCapacity, call)
       <==> Respects(l, capacity, diagCapacity, call)
  {
    if call.OpenCall? && call.id in l.open {
      assert Clashes(l.open, call.id, diagCapacity);
    }
  }

  /** From states that show the same ledger, the two modes return the same code if and only
      if the call respects the contract; a drain has no counterpart in production mode. */
  lemma CodesAgreeIff(p: Profile, d: Profile, l: Ledger, call: Call)
    requires ShowsCounts(p, l) && ShowsRecords(d, l) && !call.DrainCall?
    ensures Serve(p, call).1 == Serve(d, call).1
       <==> Respects(l, |p.storage.table|, |d.storage.slots|, call)
  {
    ProductionAnswers(p, l, call);
    DiagnosticAnswers(d, l, call);
    OpenWithin(p.storage.table, l.open);
    AnswersAgreeIff(l, |p.storage.table|, |d.storage.slots|, call);
  }

  /** Equal codes, drains aside, and equal counters, after every call of the run. */
  ghost predicate Agree(p: Profile, d: Profile, calls: seq<Call>) {
    && Reached(p, calls).counters == Reached(d, calls).counters
    && (calls == [] ||
        var init, last := calls[..|calls| - 1], calls[|calls| - 1];
        && Agree(p, d, init)
        && (last.DrainCall? || Serve(Reached(p, init), last).1 == Serve(Reached(d, init), last).1))
  }

  /** Mode agreement: on every run that respects the contract, with chain-safe closes in
      production mode, two profilers, of the same mode or of different modes, return the
      same codes and have the same counters throughout. */
  lemma {:induction false} ModesAgree(p: Profile, d: Profile, capacity: nat, diagCapacity: nat, calls: seq<Call>)
    requires ShowsLedger(p, EMPTY_LEDGER) && Sized(p, capacity, diagCapacity) && ChainSafeRun(p, calls)
    requires ShowsLedger(d, EMPTY_LEDGER) && Sized(d, capacity, diagCapacity) && ChainSafeRun(d, calls)
    requires Respectful(capacity, diagCapacity, calls)
    ensures Agree(p, d, calls)
  {
    FollowsRun(p, capacity, diagCapacity, calls);
    FollowsRun(d, capacity, diagCapacity, calls);
    if calls != [] {
      var init, last := calls[..|calls| - 1], calls[|calls| - 1];
      ModesAgree(p, d, capacity, diagCapacity, init);
      FollowsRun(p, capacity, diagCapacity, init);
      FollowsRun(d, capacity, diagCapacity, init);
      var l := After(capacity, init);
      Follows(Reached(p, init), l, capacity, diagCapacity, last);
      Follows(Reached(d, init), l, capacity, diagCapacity, last);
    }
  }

  /** New profilers show the empty ledger, so ModesAgree covers whole lifetimes. */
  lemma NewProfilersShow(config: Config)
    requires Supported(config) && (config.mode.ProductionMode? ==> config.slotCapacity <= MAX_CAPACITY)
    ensures var p := Profile(NewStorage(config), NO_COUNTS);
      ShowsLedger(p, EMPTY_LEDGER) && p.storage.Production? == config.mode.ProductionMode?
  {
    if config.mode.ProductionMode? {
      FreshRefines(config.slotCapacity);
      assert Sizes(map[]) == map[];
    }
  }

  // The run and the preconditions of the methods.

  /** The granule in slot `i` has as many records as registrations. */
  ghost predicate CountedAt(s: Slots, i: nat, calls: seq<Call>) {
    i < |s| && s[i].Some? ==> |s[i].value.records| == |RegisteredSince(calls, s[i].value.id)|
  }

  ghost predicate RecordsCounted(s: Slots, calls: seq<Call>) {
    forall i: nat :: CountedAt(s, i, calls)
  }

  lemma RegisteredNext(calls: seq<Call>, call: Call, id: GranuleId)
    ensures |RegisteredSince(calls + [call], id)|
         == if call.OpenCall? && call.id == id then 0
            else |RegisteredSince(calls, id)| + if call.RegisterCall? && call.id == id then 1 else 0
  {
    assert (calls + [call])[..|calls|] == calls;
  }

  /** What a call does to slot `i`: it is freed, filled afresh by an open, or keeps its granule
      and gains a record if the granule is registered for. */
  lemma SlotNext(d: Profile, call: Call, i: nat)
    requires d.storage.Diagnostic? && i < |d.storage.slots|
    ensures Serve(d, call).0.storage.Diagnostic?
    ensures var s, s' := d.storage.slots, Serve(d, call).0.storage.slots;
      && |s'| == |s|
      && (s'[i].Some? ==>
          if s[i].None? then call.OpenCall? && s'[i].value.id == call.id && s'[i].value.records == []
          else
            var g, g' := s[i].value, s'[i].value;
            && g'.id == g.id
            && |g'.records| == |g.records|
                 + if call.RegisterCall? && call.id == g.id && DiagIndex(g.id, |s|) == i then 1 else 0)
  {}

  lemma CountedNext(d: Profile, l: Ledger, calls: seq<Call>, call: Call, i: nat)
    requires d.storage.Diagnostic? && CountedAt(d.storage.slots, i, calls)
    requires i < |d.storage.slots| ==> SlotShows(d.storage.slots, i, l.open)
    requires call.OpenCall? ==> call.id !in l.open
    ensures Serve(d, call).0.storage.Diagnostic?
    ensures CountedAt(Serve(d, call).0.storage.slots, i, calls + [call])
  {
    var s' := Serve(d, call).0.storage.slots;
    if i < |d.storage.slots| {
      SlotNext(d, call, i);
      if s'[i].Some? {
        RegisteredNext(calls, call, s'[i].value.id);
      }
    } else {
      SlotNext(d, call, 0);
    }
  }

  lemma RecordsCountedNext(d: Profile, l: Ledger, calls: seq<Call>, call: Call)
    requires ShowsRecords(d, l) && RecordsCounted(d.storage.slots, calls)
    requires call.OpenCall? ==> call.id !in l.open
    ensures Serve(d, call).0.storage.Diagnostic?
    ensures RecordsCounted(Serve(d, call).0.storage.slots, calls + [call])
  {
    SlotNext(d, call, 0);
    forall i: nat
      ensures CountedAt(Serve(d, call).0.storage.slots, i, calls + [call])
    {
      CountedNext(d, l, calls, call, i);
    }
  }

  lemma NothingCounted(s: Slots)
    requires ShowsBook(s, map[])
    ensures RecordsCounted(s, [])
  {
    forall i: nat
      ensures CountedAt(s, i, [])
    {
      assert i < |s| ==> SlotShows(s, i, map[]);
    }
  }

  lemma DiagnosticShows(d: Profile, capacity: nat, calls: seq<Call>)
    requires d.storage.Diagnostic? && ShowsRecords(d, EMPTY_LEDGER)
    requires Respectful(capacity, |d.storage.slots|, calls)
    ensures ShowsRecords(Reached(d, calls), After(capacity, calls))
  {
    DiagnosticRun(d, calls);
    FollowsRun(d, capacity, |d.storage.slots|, calls);
  }

  lemma {:induction false} RunRecordsCounted(d: Profile, capacity: nat, calls: seq<Call>)
    requires d.storage.Diagnostic? && ShowsRecords(d, EMPTY_LEDGER)
    requires Respectful(capacity, |d.storage.slots|, calls)
    ensures Reached(d, calls).storage.Diagnostic?
    ensures RecordsCounted(Reached(d, calls).storage.slots, calls)
  {
    if calls == [] {
      NothingCounted(d.storage.slots);
    } else {
      var init, last := calls[..|calls| - 1], calls[|calls| - 1];
      RunRecordsCounted(d, capacity, init);
      DiagnosticShows(d, capacity, init);
      assert init + [last] == calls;
      RecordsCountedNext(Reached(d, init), After(capacity, init), init, last);
    }
  }

  /** On an orderly run whose records fit, every registration and deregistration meets the
      precondition of its method. */
  lemma FitRunsMayBeServed(d: Profile, capacity: nat, calls: seq<Call>, call: Call)
    requires d.storage.Diagnostic? && ShowsRecords(d, EMPTY_LEDGER)
    requires OrderlyRun(capacity, |d.storage.slots|, calls) && RecordsFit(capacity, calls + [call])
    ensures call.RegisterCall? ==> MayRegister(Reached(d, calls).storage, call.id)
    ensures call.DeregisterCall? ==> MayDeregister(Reached(d, calls).storage, call.id)
  {
    assert (calls + [call])[..|calls|] == calls;
    FitRunsRespect(capacity, |d.storage.slots|, calls);
    DiagnosticRun(d, calls);
    FollowsRun(d, capacity, |d.storage.slots|, calls);
    RunRecordsCounted(d, capacity, calls);
    if call.RegisterCall? || call.DeregisterCall? {
      var s := Reached(d, calls).storage.slots;
      BookSlot(s, After(capacity, calls).open, call.id);
      assert CountedAt(s, DiagIndex(call.id, |s|), calls);
      if call.id in After(capacity, calls).open {
        LiveFits(capacity, |d.storage.slots|, calls, call.id);
      }
    }
  }

  // Whole-run accounting.

  /** In either mode, the counters of a run that respects the contract are what its history
      says: drainable closes are those with every registered allocation deregistered. */
  lemma RunCounters(p: Profile, capacity: nat, diagCapacity: nat, calls: seq<Call>)
    requires ShowsLedger(p, EMPTY_LEDGER) && Sized(p, capacity, diagCapacity) && ChainSafeRun(p, calls)
    requires Respectful(capacity, diagCapacity, calls) && capacity < 0x1_0000_0000
    ensures Accounts(Reached(p, calls).counters, capacity, calls)
  {
    FollowsRun(p, capacity, diagCapacity, calls);
    RunAccounted(capacity, diagCapacity, calls);
  }

  /** The rate of a snapshot after such a run is the share of the closes whose every registered
      allocation was deregistered beforehand, while the number of closes fits 64 bits. */
  lemma RunRate(p: Profile, capacity: nat, diagCapacity: nat, calls: seq<Call>)
    requires ShowsLedger(p, EMPTY_LEDGER) && Sized(p, capacity, diagCapacity) && ChainSafeRun(p, calls)
    requires Respectful(capacity, diagCapacity, calls) && capacity < 0x1_0000_0000
    requires CloseCount(capacity, calls, true) + CloseCount(capacity, calls, false) < 0x1_0000_0000_0000_0000
    ensures var c := Reached(p, calls).counters;
      RateTells(Dsr(c.drainableCloses, c.totalCloses),
                CloseCount(capacity, calls, true), CloseCount(capacity, calls, false))
  {
    RunCounters(p, capacity, diagCapacity, calls);
    RateAccounted(Reached(p, calls).counters, capacity, calls);
  }

  lemma CallCounts(p: Profile, call: Call, registers: nat, deregisters: nat)
    requires p.counters.totalAllocs == Low64(registers) && p.counters.totalDeallocs == Low64(deregisters)
    ensures var c := Serve(p, call).0.counters;
      && c.totalAllocs == Low64(registers + if Registers(call) then 1 else 0)
      && c.totalDeallocs == Low64(deregisters + if Deregisters(call) then 1 else 0)
  {
    Low64Plus(registers, 1);
    Low64Plus(deregisters, 1);
  }

  /** On every run, in either mode, whether or not the run respects the contract, total_allocs
      and total_deallocs count the calls, failing ones included. */
  lemma {:induction false} EveryCallCounted(p: Profile, calls: seq<Call>)
    requires p.counters == NO_COUNTS
    ensures CallsTell(Reached(p, calls).counters, calls)
  {
    if calls != [] {
      var init, last := calls[..|calls| - 1], calls[|calls| - 1];
      EveryCallCounted(p, init);
      CallCounts(Reached(p, init), last, Count(init, Registers), Count(init, Deregisters));
    }
  }

  /** The reports that the sink still shows, newest last. */
  function Visible(sink: Sink): Reports {
    match sink
    case Callback(seen) => seen
    case Ring(_, contents, _) => contents
  }

  lemma EmitVisible(sink: Sink, report: PinningReport)
    ensures var reports := Visible(Emit(sink, report));
      reports != [] && reports[|reports| - 1] == report
  {}

  /** A close that returns 0 emits the report of the granule's records. */
  lemma CloseEmits(d: Profile, id: GranuleId, time: Timespec)
    requires d.storage.Diagnostic? && Serve(d, CloseCall(id, time)).1 == 0
    ensures Lookup(d.storage.slots, id).Some?
    ensures var g := d.storage.slots[Lookup(d.storage.slots, id).value].value;
      var st := Serve(d, CloseCall(id, time)).0.storage;
      st.Diagnostic? && st.sink == Emit(d.storage.sink, Report(id, g.openTime, time, g.records))
  {}

  lemma RecordsNameLeaks(d: Profile, capacity: nat, calls: seq<Call>, id: GranuleId)
    requires d.storage.Diagnostic? && ShowsRecords(d, EMPTY_LEDGER)
    requires Respectful(capacity, |d.storage.slots|, calls)
    ensures Reached(d, calls).storage.Diagnostic?
    ensures var s := Reached(d, calls).storage.slots;
      Lookup(s, id).Some? ==>
        PinIds(Pins(s[Lookup(s, id).value].value.records)) + DeregisteredSince(calls, id)
        == RegisteredSince(calls, id)
  {
    DiagnosticRun(d, calls);
    DiagnosticShows(d, capacity, calls);
    var s := Reached(d, calls).storage.slots;
    BookSlot(s, After(capacity, calls).open, id);
    if Lookup(s, id).Some? {
      LiveIsHistory(capacity, |d.storage.slots|, calls, id);
      PinIdsAreLive(s[Lookup(s, id).value].value.records);
    }
  }

  /** The newest report after a pinned close is for the closed granule and names exactly the
      allocations that were registered since the open and not deregistered. */
  lemma ReportNamesLeaks(d: Profile, capacity: nat, calls: seq<Call>, id: GranuleId, time: Timespec)
    requires d.storage.Diagnostic? && ShowsRecords(d, EMPTY_LEDGER)
    requires Respectful(capacity, |d.storage.slots|, calls)
    requires Serve(Reached(d, calls), CloseCall(id, time)).1 == 0
    ensures var d' := Serve(Reached(d, calls), CloseCall(id, time)).0;
      && d'.storage.Diagnostic? && Visible(d'.storage.sink) != []
      && var reports := Visible(d'.storage.sink);
         var report := reports[|reports| - 1];
         && report.granuleId == id && report.closeTime == time
         && PinIds(report.pinningAllocs) + DeregisteredSince(calls, id) == RegisteredSince(calls, id)
  {
    RecordsNameLeaks(d, capacity, calls, id);
    var d1 := Reached(d, calls);
    CloseEmits(d1, id, time);
    var g := d1.storage.slots[Lookup(d1.storage.slots, id).value].value;
    EmitVisible(d1.storage.sink, Report(id, g.openTime, time, g.records));
  }

  /** Reports that a sink has taken so far. */
  function Taken(sink: Sink): nat {
    match sink
    case Callback(seen) => |seen|
    case Ring(_, contents, gone) => |contents| + |gone|
  }

  /** A report has been taken for each pinned close, and none freed with the buffer. */
  ghost predicate TakesAll(d: Profile) {
    && d.storage.Diagnostic?
    && d.counters.pinnedCloses == Low64(Taken(d.storage.sink))
    && (d.storage.sink.Ring? ==>
          forall k :: 0 <= k < |d.storage.sink.gone| ==> !d.storage.sink.gone[k].Destroyed?)
  }

  lemma TakesReports(d: Profile, call: Call)
    requires TakesAll(d)
    ensures TakesAll(Serve(d, call).0)
    ensures Serve(d, call).0.storage.sink.Ring? == d.storage.sink.Ring?
  {
    Low64Plus(Taken(d.storage.sink), 1);
  }

  lemma {:induction false} TakesThroughout(d: Profile, calls: seq<Call>)
    requires TakesAll(d)
    ensures TakesAll(Reached(d, calls))
    ensures Reached(d, calls).storage.sink.Ring? == d.storage.sink.Ring?
  {
    if calls != [] {
      TakesThroughout(d, calls[..|calls| - 1]);
      TakesReports(Reached(d, calls[..|calls| - 1]), calls[|calls| - 1]);
    }
  }

  /** Every report taken has been passed to the callback, or is delivered, dropped or buffered. */
  function ByFate(sink: Sink): nat {
    match sink
    case Callback(seen) => |seen|
    case Ring(_, contents, gone) => CountDelivered(gone) + CountDropped(gone) + |contents|
  }

  lemma TakenByFate(d: Profile)
    requires TakesAll(d)
    ensures ByFate(d.storage.sink) == Taken(d.storage.sink)
  {
    if d.storage.sink.Ring? {
      FatesSplit(d.storage.sink.gone);
    }
  }

  /** Every pinned close leaves exactly one report, on every run of a new profiler, whether or
      not the run respects the contract: with a ring the reports are delivered, dropped or
      still buffered, with a callback they have all been passed to it. */
  lemma PinnedReports(config: Config, calls: seq<Call>)
    requires Supported(config) && config.mode.DiagnosticMode?
    ensures var d := Reached(Profile(NewStorage(config), NO_COUNTS), calls);
      && d.storage.Diagnostic? && d.storage.sink.Callback? == config.onPinning
      && d.counters.pinnedCloses == Low64(ByFate(d.storage.sink))
  {
    var d := Profile(NewStorage(config), NO_COUNTS);
    TakesThroughout(d, calls);
    TakenByFate(Reached(d, calls));
  }
}
