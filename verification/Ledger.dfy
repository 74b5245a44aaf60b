/** The calls of the public interface, the global counters, and the simple form of the
    profiler: a ledger of live allocation ids per open granule. */
module Ledger {
  import opened Counting
  import opened Hash
  import opened Probe
  import opened GranuleDiag
  import opened Rate

  /** The clock reading that diagnostic mode takes during a call is part of the call. A
      registration without location has file 0 and line 0. */
  datatype Call =
    | OpenCall(id: GranuleId, time: Timespec)
    | RegisterCall(id: GranuleId, alloc: AllocId, size: nat, file: nat, line: nat, time: Timespec)
    | DeregisterCall(id: GranuleId, alloc: AllocId, time: Timespec)
    | CloseCall(id: GranuleId, time: Timespec)
    | DrainCall(max: nat)

  datatype Counters = Counters(
    totalCloses: nat, drainableCloses: nat, pinnedCloses: nat,
    openGranules: nat, peakOpenGranules: nat, totalAllocs: nat, totalDeallocs: nat)

  const NO_COUNTS := Counters(0, 0, 0, 0, 0, 0, 0)

  function CountOpen(c: Counters): Counters {
    var open := Low64(c.openGranules + 1);
    c.(openGranules := open, peakOpenGranules := if open > c.peakOpenGranules then open else c.peakOpenGranules)
  }

  function CountClose(c: Counters, drainable: bool): Counters {
    c.(openGranules := Low64(c.openGranules - 1),
       totalCloses := Low64(c.totalCloses + 1),
       drainableCloses := if drainable then Low64(c.drainableCloses + 1) else c.drainableCloses,
       pinnedCloses := if drainable then c.pinnedCloses else Low64(c.pinnedCloses + 1))
  }

  /** Counts calls, whether or not they succeed. */
  function CountRegister(c: Counters): Counters {
    c.(totalAllocs := Low64(c.totalAllocs + 1))
  }

  function CountDeregister(c: Counters): Counters {
    c.(totalDeallocs := Low64(c.totalDeallocs + 1))
  }

  // The ledger.

  type Book = map<GranuleId, multiset<AllocId>>

  datatype Ledger = Ledger(open: Book, counters: Counters)

  const EMPTY_LEDGER := Ledger(map[], NO_COUNTS)

  /** State and return code after a call, for a profiler with room for `capacity` granules. */
  function Enter(l: Ledger, capacity: nat, call: Call): (Ledger, int) {
    match call
    case OpenCall(id, _) =>
      if id in l.open then (l.(counters := CountOpen(l.counters)), 0)
      else if |l.open| >= capacity then (l, -1)
      else (Ledger(l.open[id := multiset{}], CountOpen(l.counters)), 0)
    case RegisterCall(id, a, _, _, _, _) =>
      var c := CountRegister(l.counters);
      if id in l.open then (Ledger(l.open[id := l.open[id] + multiset{a}], c), 0)
      else (l.(counters := c), -1)
    case DeregisterCall(id, a, _) =>
      var c := CountDeregister(l.counters);
      if id in l.open then (Ledger(l.open[id := l.open[id] - multiset{a}], c), 0)
      else (l.(counters := c), -1)
    case CloseCall(id, _) =>
      if id in l.open then
        var drainable := l.open[id] == multiset{};
        (Ledger(l.open - {id}, CountClose(l.counters, drainable)), if drainable then 1 else 0)
      else (l, -1)
    case DrainCall(_) => (l, 0)
  }

  function After(capacity: nat, calls: seq<Call>): Ledger {
    if calls == [] then EMPTY_LEDGER
    else Enter(After(capacity, calls[..|calls| - 1]), capacity, calls[|calls| - 1]).0
  }

  // When the two storage modes meet the ledger.

  /** The diagnostic slot of a granule. */
  function DiagIndex(id: GranuleId, n: nat): (i: nat)
    requires n > 0
    ensures i < n
  {
    Number(id) % n
  }

  /** The 64-bit ids differ by a multiple of `n`. */
  ghost predicate Congruent(a: GranuleId, b: GranuleId, n: nat) {
    exists k: int :: (a.bits as int) - (b.bits as int) == k * n
  }

  /** Two granules share a diagnostic slot exactly when their ids are congruent modulo the
      number of slots. */
  lemma DiagIndexIff(a: GranuleId, b: GranuleId, n: nat)
    requires n > 0
    ensures DiagIndex(a, n) == DiagIndex(b, n) <==> Congruent(a, b, n)
  {
    SameRemainderIff(a.bits as int, b.bits as int, n);
  }

  /** An id below the number of slots is the number of its slot. */
  lemma SmallIdIndex(id: GranuleId, n: nat)
    requires id.bits as nat < n
    ensures DiagIndex(id, n) == id.bits as nat
  {
    ModWraps(id.bits as nat, n);
  }

  /** Two granules whose ids are below the number of slots have slots of their own. */
  lemma SmallIdsApart(a: GranuleId, b: GranuleId, n: nat)
    requires a != b && a.bits as nat < n && b.bits as nat < n
    ensures DiagIndex(a, n) != DiagIndex(b, n)
  {
    SmallIdIndex(a, n);
    SmallIdIndex(b, n);
    NumberBack(a);
    NumberBack(b);
  }

  predicate Clashes(open: Book, id: GranuleId, n: nat)
    requires n > 0
  {
    exists j :: j in open && DiagIndex(j, n) == DiagIndex(id, n)
  }

  /** A count of live allocations that its uint32_t form does not disguise as an error or as zero. */
  predicate Countable(live: nat) {
    Low32(live) != UINT32_MAX && (Low32(live) == 0 ==> live == 0)
  }

  /** What a caller has to respect: an open names a granule that is not open, and finds
      room in both tables or in neither; a deregistration for an open granule names a live
      allocation. */
  predicate Orderly(l: Ledger, capacity: nat, diagCapacity: nat, call: Call)
    requires diagCapacity > 0
  {
    match call
    case OpenCall(id, _) =>
      id !in l.open && (|l.open| < capacity <==> !Clashes(l.open, id, diagCapacity))
    case DeregisterCall(id, a, _) => id in l.open ==> a in l.open[id]
    case _ => true
  }

  /** Moreover the live count of a closed granule is countable. */
  predicate Respects(l: Ledger, capacity: nat, diagCapacity: nat, call: Call)
    requires diagCapacity > 0
  {
    && Orderly(l, capacity, diagCapacity, call)
    && (call.CloseCall? && call.id in l.open ==> Countable(|l.open[call.id]|))
  }

  ghost predicate OrderlyRun(capacity: nat, diagCapacity: nat, calls: seq<Call>)
    requires diagCapacity > 0
  {
    calls == [] ||
    var last := |calls| - 1;
    && OrderlyRun(capacity, diagCapacity, calls[..last])
    && Orderly(After(capacity, calls[..last]), capacity, diagCapacity, calls[last])
  }

  ghost predicate Respectful(capacity: nat, diagCapacity: nat, calls: seq<Call>)
    requires diagCapacity > 0
  {
    calls == [] ||
    var last := |calls| - 1;
    && Respectful(capacity, diagCapacity, calls[..last])
    && Respects(After(capacity, calls[..last]), capacity, diagCapacity, calls[last])
  }

  // The history behind the ledger.

  /** The allocations registered for a granule since its last open. */
  function RegisteredSince(calls: seq<Call>, id: GranuleId): multiset<AllocId> {
    if calls == [] then multiset{}
    else
      var last := calls[|calls| - 1];
      var earlier := RegisteredSince(calls[..|calls| - 1], id);
      if last.OpenCall? && last.id == id then multiset{}
      else if last.RegisterCall? && last.id == id then earlier + multiset{last.alloc}
      else earlier
  }

  function DeregisteredSince(calls: seq<Call>, id: GranuleId): multiset<AllocId> {
    if calls == [] then multiset{}
    else
      var last := calls[|calls| - 1];
      var earlier := DeregisteredSince(calls[..|calls| - 1], id);
      if last.OpenCall? && last.id == id then multiset{}
      else if last.DeregisterCall? && last.id == id then earlier + multiset{last.alloc}
      else earlier
  }

  /** Every registered allocation of the granule has been deregistered. */
  predicate Balanced(calls: seq<Call>, id: GranuleId) {
    RegisteredSince(calls, id) == DeregisteredSince(calls, id)
  }

  /** After `calls`, `call` closes an open granule, with the given balance. */
  predicate Closes(capacity: nat, calls: seq<Call>, call: Call, balanced: bool) {
    && call.CloseCall?
    && Enter(After(capacity, calls), capacity, call).1 != -1
    && Balanced(calls, call.id) == balanced
  }

  /** How many calls of a history close a granule with the given balance. */
  function CloseCount(capacity: nat, calls: seq<Call>, balanced: bool): nat {
    if calls == [] then 0
    else
      var init := calls[..|calls| - 1];
      CloseCount(capacity, init, balanced)
      + if Closes(capacity, init, calls[|calls| - 1], balanced) then 1 else 0
  }

  /** The largest number of granules that were ever open at once. */
  function HighestOpen(capacity: nat, calls: seq<Call>): nat {
    if calls == [] then 0
    else
      var open, earlier := |After(capacity, calls).open|, HighestOpen(capacity, calls[..|calls| - 1]);
      if open > earlier then open else earlier
  }

  /** No granule is given more than 2^31 registrations between open and close, which is
      what its record array can grow to hold. */
  ghost predicate RecordsFit(capacity: nat, calls: seq<Call>) {
    calls == [] ||
    var init, last := calls[..|calls| - 1], calls[|calls| - 1];
    && RecordsFit(capacity, init)
    && (last.RegisterCall? && last.id in After(capacity, init).open ==>
          |RegisteredSince(init, last.id)| < 0x8000_0000)
  }

  lemma {:induction false} LiveFits(capacity: nat, diagCapacity: nat, calls: seq<Call>, id: GranuleId)
    requires diagCapacity > 0 && OrderlyRun(capacity, diagCapacity, calls) && RecordsFit(capacity, calls)
    requires id in After(capacity, calls).open
    ensures |After(capacity, calls).open[id]| <= |RegisteredSince(calls, id)| <= 0x8000_0000
  {
    if calls != [] {
      var init, last := calls[..|calls| - 1], calls[|calls| - 1];
      if !(last.OpenCall? && last.id == id) {
        LiveFits(capacity, diagCapacity, init, id);
      }
    }
  }

  lemma SmallIsCountable(live: nat)
    requires live < UINT32_MAX
    ensures Countable(live)
  {}

  /** Where the records fit, the contract is about opens and deregistrations only: every
      count is countable. */
  lemma {:induction false} FitRunsRespect(capacity: nat, diagCapacity: nat, calls: seq<Call>)
    requires diagCapacity > 0 && OrderlyRun(capacity, diagCapacity, calls) && RecordsFit(capacity, calls)
    ensures Respectful(capacity, diagCapacity, calls)
  {
    if calls != [] {
      var init, last := calls[..|calls| - 1], calls[|calls| - 1];
      FitRunsRespect(capacity, diagCapacity, init);
      if last.CloseCall? && last.id in After(capacity, init).open {
        LiveFits(capacity, diagCapacity, init, last.id);
        SmallIsCountable(|After(capacity, init).open[last.id]|);
      }
    }
  }

  /** The live ids of an open granule are the registered ones less the deregistered ones. */
  lemma {:induction false} LiveIsHistory(capacity: nat, diagCapacity: nat, calls: seq<Call>, id: GranuleId)
    requires diagCapacity > 0 && Respectful(capacity, diagCapacity, calls)
    requires id in After(capacity, calls).open
    ensures After(capacity, calls).open[id] + DeregisteredSince(calls, id) == RegisteredSince(calls, id)
  {
    if calls != [] {
      var init, last := calls[..|calls| - 1], calls[|calls| - 1];
      if !(last.OpenCall? && last.id == id) {
        LiveIsHistory(capacity, diagCapacity, init, id);
      }
    }
  }

  /** A close counts as drainable exactly when the history since the open is balanced. */
  lemma CloseVerdict(capacity: nat, diagCapacity: nat, calls: seq<Call>, id: GranuleId, time: Timespec)
    requires diagCapacity > 0 && Respectful(capacity, diagCapacity, calls)
    ensures Enter(After(capacity, calls), capacity, CloseCall(id, time)).1
         == (if id !in After(capacity, calls).open then -1 else if Balanced(calls, id) then 1 else 0)
  {
    var open := After(capacity, calls).open;
    if id in open {
      LiveIsHistory(capacity, diagCapacity, calls, id);
      assert open[id] == multiset{} <==> Balanced(calls, id) by {
        assert |RegisteredSince(calls, id)| == |open[id]| + |DeregisteredSince(calls, id)|;
      }
    }
  }

  /** The counters of closed and open granules are what the history says, in a uint64_t. */
  ghost predicate CountersTell(c: Counters, open: int, drained: nat, pinned: nat) {
    && c.drainableCloses == Low64(drained)
    && c.pinnedCloses == Low64(pinned)
    && c.totalCloses == Low64(drained + pinned)
    && c.openGranules == Low64(open)
  }

  lemma CountCloseTells(c: Counters, open: int, drained: nat, pinned: nat, drainable: bool)
    requires CountersTell(c, open, drained, pinned)
    ensures CountersTell(CountClose(c, drainable), open - 1,
                         if drainable then drained + 1 else drained,
                         if drainable then pinned else pinned + 1)
  {
    Low64Plus(drained, 1);
    Low64Plus(pinned, 1);
    Low64Plus(drained + pinned, 1);
    Low64Plus(open, -1);
  }

  /** How the number of open granules changes. */
  lemma OpenSize(l: Ledger, capacity: nat, call: Call)
    requires call.OpenCall? ==> call.id !in l.open
    ensures var (l', code) := Enter(l, capacity, call);
      |l'.open| == |l.open| + (if call.OpenCall? && code == 0 then 1
                               else if call.CloseCall? && code != -1 then -1 else 0)
  {
    match call
    case CloseCall(id, _) =>
      if id in l.open {
        assert (l.open - {id}).Keys == l.open.Keys - {id};
      }
    case RegisterCall(id, a, _, _, _, _) =>
      if id in l.open {
        assert l.open[id := l.open[id] + multiset{a}].Keys == l.open.Keys;
      }
    case DeregisterCall(id, a, _) =>
      if id in l.open {
        assert l.open[id := l.open[id] - multiset{a}].Keys == l.open.Keys;
      }
    case _ =>
  }

  lemma CountersTellNext(l: Ledger, capacity: nat, call: Call,
                         drained: nat, pinned: nat, drained': nat, pinned': nat)
    requires CountersTell(l.counters, |l.open|, drained, pinned)
    requires call.OpenCall? ==> call.id !in l.open
    requires var code := Enter(l, capacity, call).1;
      && drained' == (if call.CloseCall? && code == 1 then drained + 1 else drained)
      && pinned' == (if call.CloseCall? && code == 0 then pinned + 1 else pinned)
    ensures var l' := Enter(l, capacity, call).0;
      CountersTell(l'.counters, |l'.open|, drained', pinned')
  {
    OpenSize(l, capacity, call);
    if call.OpenCall? {
      Low64Plus(|l.open|, 1);
    } else if call.CloseCall? && call.id in l.open {
      CountCloseTells(l.counters, |l.open|, drained, pinned, l.open[call.id] == multiset{});
    }
  }

  lemma CloseCountNext(capacity: nat, diagCapacity: nat, calls: seq<Call>)
    requires diagCapacity > 0 && calls != [] && Respectful(capacity, diagCapacity, calls)
    ensures var init, last := calls[..|calls| - 1], calls[|calls| - 1];
      var code := Enter(After(capacity, init), capacity, last).1;
      var drained, pinned := CloseCount(capacity, init, true), CloseCount(capacity, init, false);
      && CloseCount(capacity, calls, true) == (if last.CloseCall? && code == 1 then drained + 1 else drained)
      && CloseCount(capacity, calls, false) == (if last.CloseCall? && code == 0 then pinned + 1 else pinned)
  {
    var last := calls[|calls| - 1];
    if last.CloseCall? {
      CloseVerdict(capacity, diagCapacity, calls[..|calls| - 1], last.id, last.time);
    }
  }

  /** The whole run: drainable closes are the closes whose every registered allocation was
      deregistered beforehand, pinned closes the others, and open granules are counted. */
  lemma {:induction false} WholeRun(capacity: nat, diagCapacity: nat, calls: seq<Call>)
    requires diagCapacity > 0 && Respectful(capacity, diagCapacity, calls)
    ensures var l := After(capacity, calls);
      CountersTell(l.counters, |l.open|, CloseCount(capacity, calls, true), CloseCount(capacity, calls, false))
  {
    if calls != [] {
      var init, last := calls[..|calls| - 1], calls[|calls| - 1];
      WholeRun(capacity, diagCapacity, init);
      CloseCountNext(capacity, diagCapacity, calls);
      CountersTellNext(After(capacity, init), capacity, last,
                       CloseCount(capacity, init, true), CloseCount(capacity, init, false),
                       CloseCount(capacity, calls, true), CloseCount(capacity, calls, false));
    }
  }

  /** `highest` is the peak counter, and the open granules are counted exactly. */
  ghost predicate PeakTells(l: Ledger, capacity: nat, highest: nat) {
    && |l.open| <= capacity && |l.open| == l.counters.openGranules
    && l.counters.peakOpenGranules == highest >= |l.open|
  }

  lemma PeakNext(l: Ledger, capacity: nat, call: Call, highest: nat)
    requires PeakTells(l, capacity, highest) && capacity < 0x1_0000_0000
    requires call.OpenCall? ==> call.id !in l.open
    ensures var l' := Enter(l, capacity, call).0;
      PeakTells(l', capacity, if |l'.open| > highest then |l'.open| else highest)
  {
    OpenSize(l, capacity, call);
  }

  /** The peak counter is the largest number of granules that were ever open at once. */
  lemma {:induction false} PeakIsHighest(capacity: nat, diagCapacity: nat, calls: seq<Call>)
    requires diagCapacity > 0 && Respectful(capacity, diagCapacity, calls)
    requires capacity < 0x1_0000_0000
    ensures PeakTells(After(capacity, calls), capacity, HighestOpen(capacity, calls))
  {
    if calls != [] {
      var init, last := calls[..|calls| - 1], calls[|calls| - 1];
      PeakIsHighest(capacity, diagCapacity, init);
      PeakNext(After(capacity, init), capacity, last, HighestOpen(capacity, init));
    }
  }

  predicate Registers(call: Call) {
    call.RegisterCall?
  }

  predicate Deregisters(call: Call) {
    call.DeregisterCall?
  }

  /** The allocation counters are the numbers of calls, in a uint64_t. */
  ghost predicate CallsTell(c: Counters, calls: seq<Call>) {
    && c.totalAllocs == Low64(Count(calls, Registers))
    && c.totalDeallocs == Low64(Count(calls, Deregisters))
  }

  lemma CallTells(l: Ledger, capacity: nat, call: Call, registers: nat, deregisters: nat)
    requires l.counters.totalAllocs == Low64(registers) && l.counters.totalDeallocs == Low64(deregisters)
    ensures var c := Enter(l, capacity, call).0.counters;
      && c.totalAllocs == Low64(registers + if Registers(call) then 1 else 0)
      && c.totalDeallocs == Low64(deregisters + if Deregisters(call) then 1 else 0)
  {
    Low64Plus(registers, 1);
    Low64Plus(deregisters, 1);
  }

  /** Registrations and deregistrations are counted whether or not they succeed, on every run. */
  lemma {:induction false} CallsCounted(capacity: nat, calls: seq<Call>)
    ensures CallsTell(After(capacity, calls).counters, calls)
  {
    if calls != [] {
      var init, last := calls[..|calls| - 1], calls[|calls| - 1];
      CallsCounted(capacity, init);
      CallTells(After(capacity, init), capacity, last, Count(init, Registers), Count(init, Deregisters));
    }
  }

  /** The counters of a run, in terms of its history. */
  ghost predicate Accounts(c: Counters, capacity: nat, calls: seq<Call>) {
    && c.drainableCloses == Low64(CloseCount(capacity, calls, true))
    && c.pinnedCloses == Low64(CloseCount(capacity, calls, false))
    && c.totalCloses == Low64(CloseCount(capacity, calls, true) + CloseCount(capacity, calls, false))
    && c.openGranules == |After(capacity, calls).open| <= capacity
    && c.openGranules <= c.peakOpenGranules == HighestOpen(capacity, calls)
    && CallsTell(c, calls)
  }

  lemma RateAccounted(c: Counters, capacity: nat, calls: seq<Call>)
    requires Accounts(c, capacity, calls)
    requires CloseCount(capacity, calls, true) + CloseCount(capacity, calls, false) < 0x1_0000_0000_0000_0000
    ensures RateTells(Dsr(c.drainableCloses, c.totalCloses),
                      CloseCount(capacity, calls, true), CloseCount(capacity, calls, false))
  {
    var drained, pinned := CloseCount(capacity, calls, true), CloseCount(capacity, calls, false);
    StoredExactly(drained);
    StoredExactly(drained + pinned);
    DsrTells(drained, pinned);
  }

  /** The drainable closes of a run are the closes whose every registered allocation was
      deregistered beforehand, the pinned closes the other successful ones, and the peak is
      the largest number of granules ever open. */
  lemma RunAccounted(capacity: nat, diagCapacity: nat, calls: seq<Call>)
    requires diagCapacity > 0 && Respectful(capacity, diagCapacity, calls)
    requires capacity < 0x1_0000_0000
    ensures Accounts(After(capacity, calls).counters, capacity, calls)
  {
    WholeRun(capacity, diagCapacity, calls);
    PeakIsHighest(capacity, diagCapacity, calls);
    CallsCounted(capacity, calls);
  }
}
