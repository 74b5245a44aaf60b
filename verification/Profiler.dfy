/** The public interface: global counters over one of the two storage modes. */
module Profiler {
  import opened Counting
  import opened Hash
  import opened Probe
  import opened SlotTable
  import opened GranuleDiag
  import opened ReportBuffer
  import opened Ledger
  import opened DiagSlots
  import opened Rate

  /** Where pinning reports go: to the user's callback, which only borrows them, or to the ring. */
  datatype Sink =
    | Callback(seen: Reports)
    | Ring(capacity: nat, contents: Reports, gone: seq<Fate>)

  function Emit(sink: Sink, report: PinningReport): Sink {
    match sink
    case Callback(seen) => Callback(seen + [report])
    case Ring(n, c, gone) => Ring(n, AfterPush(c, n, report), gone + DroppedBy(c, n))
  }

  datatype Storage =
    | Production(table: Table)
    | Diagnostic(slots: Slots, sink: Sink)

  datatype Profile = Profile(storage: Storage, counters: Counters)

  // The storage part of each call, by mode.

  function StoreOpen(st: Storage, id: GranuleId, time: Timespec): (Storage, int) {
    match st
    case Production(t) => var (t', code) := AfterOpen(t, id); (Production(t'), code)
    case Diagnostic(s, sink) => var (s', code) := AfterDiagOpen(s, id, time); (Diagnostic(s', sink), code)
  }

  function StoreRegister(st: Storage, id: GranuleId, alloc: AllocId, size: nat, file: nat, line: nat, time: Timespec)
    : (Storage, int)
  {
    match st
    case Production(t) => var (t', code) := AfterBump(t, id, 1); (Production(t'), code)
    case Diagnostic(s, sink) =>
      var (s', code) := AfterAdd(s, id, alloc, size, file, line, time);
      (Diagnostic(s', sink), code)
  }

  function StoreDeregister(st: Storage, id: GranuleId, alloc: AllocId, time: Timespec): (Storage, int) {
    match st
    case Production(t) => var (t', code) := AfterBump(t, id, -1); (Production(t'), code)
    case Diagnostic(s, sink) =>
      var (s', code) := AfterMark(s, id, alloc, time);
      (Diagnostic(s', sink), code)
  }

  /** The live count of the closed granule, if there was one. A production count of
      UINT32_MAX reads as an error, after the slot has been freed. */
  function StoreClose(st: Storage, id: GranuleId, time: Timespec): (Storage, Option<nat>) {
    match st
    case Production(t) =>
      var (t', live) := AfterClose(t, id);
      (Production(t'), if live == UINT32_MAX then None else Some(live))
    case Diagnostic(s, sink) =>
      var (s', found) := AfterDiagClose(s, id);
      match found
      case None => (Diagnostic(s', sink), None)
      case Some(g) =>
        var live := LiveCount(g.records);
        var sink' := if live == 0 then sink else Emit(sink, Report(g.id, g.openTime, time, g.records));
        (Diagnostic(s', sink'), Some(live))
  }

  /** Only the ring of a diagnostic profiler has reports to hand out. */
  function StoreDrain(st: Storage, max: nat): (Storage, int) {
    if st.Diagnostic? && st.sink.Ring? then
      var (c, n) := (st.sink.contents, DrainCount(st.sink.contents, max));
      (st.(sink := Ring(st.sink.capacity, c[n..], st.sink.gone + AllDelivered(c[..n]))), n)
    else (st, 0)
  }

  /** State and return code after a call. */
  function Serve(p: Profile, call: Call): (Profile, int) {
    match call
    case OpenCall(id, time) =>
      var (st, code) := StoreOpen(p.storage, id, time);
      (Profile(st, if code == 0 then CountOpen(p.counters) else p.counters), code)
    case RegisterCall(id, alloc, size, file, line, time) =>
      var (st, code) := StoreRegister(p.storage, id, alloc, size, file, line, time);
      (Profile(st, CountRegister(p.counters)), code)
    case DeregisterCall(id, alloc, time) =>
      var (st, code) := StoreDeregister(p.storage, id, alloc, time);
      (Profile(st, CountDeregister(p.counters)), code)
    case CloseCall(id, time) =>
      (match StoreClose(p.storage, id, time)
       case (st, None) => (Profile(st, p.counters), -1)
       case (st, Some(live)) => (Profile(st, CountClose(p.counters, live == 0)), if live == 0 then 1 else 0))
    case DrainCall(max) =>
      var (st, n) := StoreDrain(p.storage, max);
      (Profile(st, p.counters), n)
  }

  datatype Snapshot = Snapshot(counters: Counters, dsr: real)

  /** Open granules that are drained and open granules that are not. */
  ghost function Swept(st: Storage): (nat, nat) {
    match st
    case Production(t) => (Count(t, DrainedSlot), Count(t, PinnedSlot))
    case Diagnostic(s, _) => (Count(s, DrainedState), Count(s, PinnedState))
  }

  /** Before a registration the records of the granule still fit a 32-bit capacity. */
  predicate MayRegister(st: Storage, id: GranuleId) {
    st.Diagnostic? ==> RecordsWithin(st.slots, id, 0x7fff_ffff)
  }

  predicate MayDeregister(st: Storage, id: GranuleId) {
    st.Diagnostic? ==> RecordsWithin(st.slots, id, 0x8000_0000)
  }

  lemma DrainNothing(st: Storage)
    ensures StoreDrain(st, 0) == (st, 0)
  {
    if st.Diagnostic? && st.sink.Ring? {
      var c := st.sink.contents;
      assert c[0..] == c && st.sink.gone + AllDelivered(c[..0]) == st.sink.gone;
    }
  }

  datatype Mode = ProductionMode | DiagnosticMode

  datatype StorageKind = SlotArrayStorage | HashMapStorage

  datatype Config = Config(
    mode: Mode, storage: StorageKind, slotCapacity: nat, onPinning: bool, maxBufferedReports: nat)

  /** Capacities for which no index expression divides by zero. */
  predicate Supported(config: Config) {
    if config.mode.ProductionMode? then 0 < config.slotCapacity < 0x1_0000_0000
    else
      && 0 < config.slotCapacity < 0x1_0000_0000
      && (config.onPinning || 0 < config.maxBufferedReports < 0x1_0000_0000)
  }

  /** The state of a new profiler. */
  function NewStorage(config: Config): Storage
    requires Supported(config)
  {
    if config.mode.ProductionMode? then Production(seq(config.slotCapacity, _ => EMPTY))
    else Diagnostic(seq(config.slotCapacity, _ => None),
                    if config.onPinning then Callback([]) else Ring(config.maxBufferedReports, [], []))
  }

  /** No profiler for the unimplemented storage, nor for a production table without slots;
      where creation allocates an array of size 0, which may fail, there may be one or not. */
  method Create(config: Config) returns (prof: Drainprof?)
    requires config.slotCapacity < 0x1_0000_0000 && config.maxBufferedReports < 0x1_0000_0000
    ensures config.storage.HashMapStorage? || (config.mode.ProductionMode? && config.slotCapacity == 0)
            ==> prof == null
    ensures config.storage.SlotArrayStorage? && Supported(config) ==> prof != null
    ensures prof != null && Supported(config) ==>
              && fresh(prof) && prof.Valid() && fresh(prof.repr)
              && prof.State() == Profile(NewStorage(config), NO_COUNTS)
  {
    if config.storage.HashMapStorage? || (config.mode.ProductionMode? && config.slotCapacity == 0) {
      return null;
    }
    if !Supported(config) {
      if * {
        return null;
      }
    }
    prof := new Drainprof(config);
  }

  class Drainprof {
    const mode: Mode
    var slotArray: SlotArray?
    var slotArrayDiag: DiagArray?
    var reportBuffer: Buffer?
    var counters: Counters
    /** The reports passed to the user's callback. */
    ghost var seen: Reports
    ghost var repr: set<object>

    constructor (config: Config)
      requires config.slotCapacity < 0x1_0000_0000 && config.maxBufferedReports < 0x1_0000_0000
      requires config.mode.ProductionMode? ==> 0 < config.slotCapacity
      ensures fresh(repr)
      ensures Supported(config) ==> Valid() && State() == Profile(NewStorage(config), NO_COUNTS)
    {
      mode, counters, seen := config.mode, NO_COUNTS, [];
      slotArray, slotArrayDiag, reportBuffer := null, null, null;
      new;
      if config.mode.ProductionMode? {
        slotArray := new SlotArray(config.slotCapacity);
        repr := {this, slotArray, slotArray.slots};
      } else {
        slotArrayDiag := new DiagArray(config.slotCapacity);
        repr := {this, slotArrayDiag, slotArrayDiag.slots};
        if !config.onPinning {
          reportBuffer := new Buffer(config.maxBufferedReports);
          repr := repr + {reportBuffer, reportBuffer.reports};
        }
      }
    }

    ghost predicate ValidProduction()
      reads this, repr
    {
      && slotArray != null && slotArrayDiag == null && reportBuffer == null
      && slotArray in repr && slotArray.slots in repr
      && slotArray.Valid()
    }

    ghost predicate ValidBuffer()
      reads this, repr
    {
      reportBuffer != null ==>
        && reportBuffer in repr && reportBuffer.reports in repr
        && reportBuffer.Valid() && 0 < reportBuffer.capacity
    }

    ghost predicate ValidDiagnostic()
      reads this, repr
    {
      && slotArray == null && slotArrayDiag != null
      && slotArrayDiag in repr && slotArrayDiag.slots in repr && slotArrayDiag.repr <= repr
      && slotArrayDiag.Valid()
      && this !in slotArrayDiag.repr
      && ValidBuffer()
      && (reportBuffer != null ==> {reportBuffer, reportBuffer.reports} !! slotArrayDiag.repr)
    }

    ghost predicate Valid()
      reads this, repr
    {
      this in repr && if mode.ProductionMode? then ValidProduction() else ValidDiagnostic()
    }

    ghost function SinkState(): Sink
      reads this, repr
      requires ValidBuffer()
    {
      if reportBuffer == null then Callback(seen)
      else Ring(reportBuffer.capacity, reportBuffer.contents, reportBuffer.gone)
    }

    ghost function Stored(): Storage
      reads this, repr
      requires Valid()
    {
      if mode.ProductionMode? then Production(slotArray.Contents())
      else Diagnostic(slotArrayDiag.view, SinkState())
    }

    ghost function State(): Profile
      reads this, repr
      requires Valid()
    {
      Profile(Stored(), counters)
    }

    /** The part of granule_open that depends on the mode. */
    method OpenStored(id: GranuleId, now: Timespec) returns (result: int)
      requires Valid()
      modifies this`repr, repr - {this}
      ensures Valid() && fresh(repr - old(repr))
      ensures (Stored(), result) == StoreOpen(old(Stored()), id, now)
    {
      if mode.ProductionMode? {
        result := slotArray.Open(id);
      } else {
        result := slotArrayDiag.Open(id, now);
        repr := repr + slotArrayDiag.repr;
      }
    }

    /** The counter updates of granule_open, the peak in one step. */
    method CountOpened()
      modifies this`counters
      ensures counters == CountOpen(old(counters))
    {
      var open := Low64(counters.openGranules + 1);
      counters := counters.(openGranules := open);
      if open > counters.peakOpenGranules {
        counters := counters.(peakOpenGranules := open);
      }
    }

    method GranuleOpen(id: GranuleId, now: Timespec) returns (result: int)
      requires Valid()
      modifies repr
      ensures Valid() && fresh(repr - old(repr))
      ensures (State(), result) == Serve(old(State()), OpenCall(id, now))
    {
      result := OpenStored(id, now);
      if result != 0 {
        return;
      }
      CountOpened();
    }

    /** A pinned granule's report goes to the ring if there is one, else to the callback. */
    method HandleReport(diag: Granule, now: Timespec)
      requires Valid() && mode.DiagnosticMode? && diag.Valid()
      requires diag in slotArrayDiag.repr && diag.allocs in slotArrayDiag.repr
      requires diag.liveCount != 0
      modifies this`seen, reportBuffer, if reportBuffer == null then {} else {reportBuffer.reports}
      ensures Valid() && slotArrayDiag.view == old(slotArrayDiag.view)
      ensures SinkState() == Emit(old(SinkState()),
                Report(diag.granuleId, diag.openTime, now, old(diag.Contents())))
    {
      var report := diag.GenerateReport(now);
      if report.Some? {
        if reportBuffer != null {
          reportBuffer.Push(report);
        } else {
          seen := seen + [report.value];
        }
      }
    }

    /** The part of granule_close that depends on the mode. */
    method CloseStored(id: GranuleId, now: Timespec) returns (liveCount: Option<nat>)
      requires Valid()
      modifies this`seen, repr - {this}
      ensures Valid()
      ensures (Stored(), liveCount) == StoreClose(old(Stored()), id, now)
    {
      if mode.ProductionMode? {
        var live := slotArray.Close(id);
        return if live == UINT32_MAX then None else Some(live);
      } else {
        var code, diag := slotArrayDiag.Close(id);
        if code != 0 || diag == null {
          return None;
        }
        if diag.liveCount != 0 {
          HandleReport(diag, now);
        }
        return Some(diag.liveCount);
      }
    }

    method CountClosed(drainable: bool)
      modifies this`counters
      ensures counters == CountClose(old(counters), drainable)
    {
      counters := counters.(openGranules := Low64(counters.openGranules - 1));
      counters := counters.(totalCloses := Low64(counters.totalCloses + 1));
      if drainable {
        counters := counters.(drainableCloses := Low64(counters.drainableCloses + 1));
      } else {
        counters := counters.(pinnedCloses := Low64(counters.pinnedCloses + 1));
      }
    }

    method GranuleClose(id: GranuleId, now: Timespec) returns (drainable: int)
      requires Valid()
      modifies repr
      ensures Valid() && repr == old(repr)
      ensures (State(), drainable) == Serve(old(State()), CloseCall(id, now))
    {
      var liveCount := CloseStored(id, now);
      if liveCount.None? {
        return -1;
      }
      drainable := if liveCount.value == 0 then 1 else 0;
      CountClosed(drainable == 1);
    }

    method RegisterStored(id: GranuleId, alloc: AllocId, size: nat, file: nat, line: nat, now: Timespec)
      returns (code: int)
      requires Valid() && MayRegister(Stored(), id)
      modifies this`repr, repr - {this}
      ensures Valid() && fresh(repr - old(repr))
      ensures (Stored(), code) == StoreRegister(old(Stored()), id, alloc, size, file, line, now)
    {
      if mode.ProductionMode? {
        code := slotArray.Alloc(id);
      } else {
        code := slotArrayDiag.Register(id, alloc, size, file, line, now);
        repr := repr + slotArrayDiag.repr;
      }
    }

    /** Also the form without location, which passes file 0 and line 0. */
    method AllocRegisterLocated(id: GranuleId, alloc: AllocId, size: nat, file: nat, line: nat, now: Timespec)
      returns (code: int)
      requires Valid() && MayRegister(Stored(), id)
      modifies repr
      ensures Valid() && fresh(repr - old(repr))
      ensures (State(), code) == Serve(old(State()), RegisterCall(id, alloc, size, file, line, now))
    {
      counters := counters.(totalAllocs := Low64(counters.totalAllocs + 1));
      code := RegisterStored(id, alloc, size, file, line, now);
    }

    method DeregisterStored(id: GranuleId, alloc: AllocId, now: Timespec) returns (code: int)
      requires Valid() && MayDeregister(Stored(), id)
      modifies repr - {this}
      ensures Valid()
      ensures (Stored(), code) == StoreDeregister(old(Stored()), id, alloc, now)
    {
      if mode.ProductionMode? {
        code := slotArray.Dealloc(id);
      } else {
        code := slotArrayDiag.Deregister(id, alloc, now);
      }
    }

    method AllocDeregister(id: GranuleId, alloc: AllocId, now: Timespec) returns (code: int)
      requires Valid() && MayDeregister(Stored(), id)
      modifies repr
      ensures Valid() && repr == old(repr)
      ensures (State(), code) == Serve(old(State()), DeregisterCall(id, alloc, now))
    {
      counters := counters.(totalDeallocs := Low64(counters.totalDeallocs + 1));
      code := DeregisterStored(id, alloc, now);
    }

    /** Reads the counters, one by one in the source, all at once here. */
    method TakeSnapshot() returns (out: Snapshot)
      ensures out == Snapshot(counters, Dsr(counters.drainableCloses, counters.totalCloses))
      ensures IsShare(out.dsr, counters.drainableCloses, counters.totalCloses)
    {
      var dsr := if counters.totalCloses > 0
                 then counters.drainableCloses as real / counters.totalCloses as real
                 else 0.0;
      DsrIsShare(counters.drainableCloses, counters.totalCloses);
      return Snapshot(counters, dsr);
    }

    /** Counts the open granules themselves, by what a close would now return. */
    method Sweep() returns (out: Snapshot)
      requires Valid()
      ensures var (drainable, pinned) := Swept(Stored());
        && out == Snapshot(
                    counters.(totalCloses := drainable + pinned, drainableCloses := drainable, pinnedCloses := pinned),
                    Dsr(drainable, drainable + pinned))
        && IsShare(out.dsr, drainable, drainable + pinned)
    {
      var drainableCount, pinnedCount;
      if mode.ProductionMode? {
        drainableCount, pinnedCount := slotArray.Sweep();
      } else {
        drainableCount, pinnedCount := slotArrayDiag.Sweep();
      }
      var total := drainableCount + pinnedCount;
      var dsr := if total > 0 then drainableCount as real / total as real else 0.0;
      DsrIsShare(drainableCount, total);
      return Snapshot(counters.(totalCloses := total, drainableCloses := drainableCount,
                                pinnedCloses := pinnedCount), dsr);
    }

    method DrainReports(reports: array<Option<PinningReport>>, max: nat) returns (n: nat)
      requires Valid() && reports !in repr && max <= reports.Length
      modifies repr, reports
      ensures Valid() && repr == old(repr)
      ensures (State(), n) == Serve(old(State()), DrainCall(max))
      ensures old(Stored()).Diagnostic? && old(Stored()).sink.Ring? ==>
                && n <= |old(Stored()).sink.contents| && n <= max
                && (n == |old(Stored()).sink.contents| || n == max)
                && reports[..] == HandedOut(old(reports[..]), old(Stored()).sink.contents, n)
      ensures !(old(Stored()).Diagnostic? && old(Stored()).sink.Ring?) ==> reports[..] == old(reports[..])
    {
      if max == 0 || mode.ProductionMode? || reportBuffer == null {
        DrainNothing(Stored());
        return 0;
      }
      n := reportBuffer.Drain(reports, max);
    }
  }
}
