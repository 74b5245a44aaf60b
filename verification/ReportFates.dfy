/** What becomes of the pinning reports over a whole run of a diagnostic profiler with a ring. */
module ReportFates {
  import opened GranuleDiag
  import opened ReportBuffer
  import opened Ledger
  import opened DiagSlots
  import opened Profiler
  import opened ModeAgreement

  /** How many closes of the run found a pinned granule. */
  function PinnedCloseCount(d: Profile, calls: seq<Call>): nat {
    if calls == [] then 0
    else
      var init, last := calls[..|calls| - 1], calls[|calls| - 1];
      PinnedCloseCount(d, init)
      + if last.CloseCall? && Serve(Reached(d, init), last).1 == 0 then 1 else 0
  }

  /** The numbers that the drains of the run returned, added up. */
  function DrainedCount(d: Profile, calls: seq<Call>): int {
    if calls == [] then 0
    else
      var init, last := calls[..|calls| - 1], calls[|calls| - 1];
      DrainedCount(d, init) + if last.DrainCall? then Serve(Reached(d, init), last).1 else 0
  }

  /** The ring after `pinned` reports came in and `drained` were handed out. Something was
      dropped only if more came in than the ring holds; if nothing was handed out, exactly
      the reports beyond its room were dropped. */
  ghost predicate RingTells(sink: Sink, capacity: nat, pinned: nat, drained: int) {
    && sink.Ring? && sink.capacity == capacity && |sink.contents| <= capacity
    && CountDelivered(sink.gone) == drained
    && pinned == drained + CountDropped(sink.gone) + |sink.contents|
    && (pinned <= capacity ==> CountDropped(sink.gone) == 0)
    && (drained == 0 && pinned > capacity ==> CountDropped(sink.gone) == pinned - capacity)
  }

  lemma EmitTells(sink: Sink, capacity: nat, pinned: nat, drained: int, report: PinningReport)
    requires RingTells(sink, capacity, pinned, drained) && capacity > 0
    ensures RingTells(Emit(sink, report), capacity, pinned + 1, drained)
  {
    FatesAppend(sink.gone, DroppedBy(sink.contents, capacity));
    ApplyFates(sink.contents, capacity, Push(report));
  }

  lemma DrainTells(st: Storage, capacity: nat, pinned: nat, drained: int, max: nat)
    requires st.Diagnostic? && RingTells(st.sink, capacity, pinned, drained) && capacity > 0
    ensures var (st', n) := StoreDrain(st, max);
      st'.Diagnostic? && RingTells(st'.sink, capacity, pinned, drained + n)
  {
    var c := st.sink.contents;
    FatesAppend(st.sink.gone, AllDelivered(c[..DrainCount(c, max)]));
    ApplyFates(c, capacity, Drain(max));
  }

  lemma CallKeepsFates(d: Profile, capacity: nat, pinned: nat, drained: int, call: Call)
    requires d.storage.Diagnostic? && RingTells(d.storage.sink, capacity, pinned, drained) && capacity > 0
    ensures var (d', code) := Serve(d, call);
      && d'.storage.Diagnostic?
      && RingTells(d'.storage.sink, capacity,
                   pinned + (if call.CloseCall? && code == 0 then 1 else 0),
                   drained + (if call.DrainCall? then code else 0))
  {
    match call
    case CloseCall(id, time) =>
      if Serve(d, call).1 == 0 {
        CloseEmits(d, id, time);
        var g := d.storage.slots[Lookup(d.storage.slots, id).value].value;
        EmitTells(d.storage.sink, capacity, pinned, drained, Report(id, g.openTime, time, g.records));
      }
    case DrainCall(max) => DrainTells(d.storage, capacity, pinned, drained, max);
    case _ =>
  }

  lemma {:induction false} FatesThroughout(d: Profile, capacity: nat, calls: seq<Call>)
    requires d.storage.Diagnostic? && d.storage.sink == Ring(capacity, [], []) && capacity > 0
    ensures Reached(d, calls).storage.Diagnostic?
    ensures RingTells(Reached(d, calls).storage.sink, capacity, PinnedCloseCount(d, calls), DrainedCount(d, calls))
  {
    if calls != [] {
      var init, last := calls[..|calls| - 1], calls[|calls| - 1];
      FatesThroughout(d, capacity, init);
      CallKeepsFates(Reached(d, init), capacity, PinnedCloseCount(d, init), DrainedCount(d, init), last);
    }
  }

  /** On every run of a new profiler with a ring: the delivered reports are as many as the
      drains returned, every other report of a pinned close is dropped or still buffered, the
      first `maxBufferedReports` pinned closes drop nothing, and without deliveries exactly
      the reports beyond that number are dropped. */
  lemma RingHoldsConfigured(config: Config, calls: seq<Call>)
    requires Supported(config) && config.mode.DiagnosticMode? && !config.onPinning
    ensures var d := Profile(NewStorage(config), NO_COUNTS);
      && Reached(d, calls).storage.Diagnostic?
      && RingTells(Reached(d, calls).storage.sink, config.maxBufferedReports,
                   PinnedCloseCount(d, calls), DrainedCount(d, calls))
  {
    FatesThroughout(Profile(NewStorage(config), NO_COUNTS), config.maxBufferedReports, calls);
  }

  /** A sequence of drains of at least one report each. */
  predicate DrainsOnly(calls: seq<Call>) {
    forall call :: call in calls ==> call.DrainCall? && call.max > 0
  }

  lemma DrainNext(d: Profile, max: nat)
    requires d.storage.Diagnostic? && d.storage.sink.Ring? && max > 0
    ensures var d', c := Serve(d, DrainCall(max)).0, d.storage.sink.contents;
      && d'.storage.Diagnostic? && d'.storage.sink.Ring?
      && d'.storage.sink.contents == (if |c| <= max then [] else c[max..])
      && CountDropped(d'.storage.sink.gone) == CountDropped(d.storage.sink.gone)
  {
    var c := d.storage.sink.contents;
    var handed := c[..DrainCount(c, max)];
    FatesAppend(d.storage.sink.gone, AllDelivered(handed));
    DeliveredCount(handed);
  }

  /** After any run, drains of at least one report each, as many as there are buffered reports,
      empty the ring without dropping: every report not dropped before has been delivered. */
  lemma {:induction false} DrainsEmptyRing(d: Profile, drains: seq<Call>)
    requires d.storage.Diagnostic? && d.storage.sink.Ring? && DrainsOnly(drains)
    ensures var d' := Reached(d, drains);
      && d'.storage.Diagnostic? && d'.storage.sink.Ring?
      && |d'.storage.sink.contents|
           <= (if |d.storage.sink.contents| <= |drains| then 0 else |d.storage.sink.contents| - |drains|)
      && CountDropped(d'.storage.sink.gone) == CountDropped(d.storage.sink.gone)
  {
    if drains != [] {
      var init, last := drains[..|drains| - 1], drains[|drains| - 1];
      assert last in drains;
      DrainsEmptyRing(d, init);
      DrainNext(Reached(d, init), last.max);
    }
  }
}
