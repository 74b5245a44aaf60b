/** What the records of a granule, and so the pinning report of its close, tell about the
    calls of the run. Nothing here asks the caller to respect the contract. */
module RecordHistory {
  import opened Hash
  import opened GranuleDiag
  import opened Ledger
  import opened DiagSlots
  import opened Profiler
  import opened ModeAgreement

  /** The time of a granule's last successful open, and the registrations and deregistrations
      that name the granule since. */
  datatype History = History(openTime: Timespec, registered: seq<Call>, deregistered: seq<Call>)

  function NextHistory(h: History, id: GranuleId, call: Call, code: int): History {
    match call
    case OpenCall(j, time) => if j == id && code == 0 then History(time, [], []) else h
    case RegisterCall(j, _, _, _, _, _) => if j == id then h.(registered := h.registered + [call]) else h
    case DeregisterCall(j, _, _) => if j == id then h.(deregistered := h.deregistered + [call]) else h
    case _ => h
  }

  function HistoryOf(d: Profile, calls: seq<Call>, id: GranuleId): History {
    if calls == [] then History(0, [], [])
    else
      var init, last := calls[..|calls| - 1], calls[|calls| - 1];
      NextHistory(HistoryOf(d, init, id), id, last, Serve(Reached(d, init), last).1)
  }

  /** The record holds every argument of the registration. */
  predicate Records(rec: AllocRecord, call: Call) {
    && call.RegisterCall?
    && rec.granuleId == call.id && rec.allocId == call.alloc && rec.size == call.size
    && rec.site.file == call.file && rec.site.line == call.line && rec.site.column == 0
    && rec.allocTime == call.time
  }

  predicate Frees(call: Call, rec: AllocRecord) {
    call.DeregisterCall? && call.alloc == rec.allocId && call.time == rec.freeTime
  }

  ghost predicate FreedBy(rec: AllocRecord, calls: seq<Call>) {
    exists k: nat :: k < |calls| && Frees(calls[k], rec)
  }

  /** Record `k` is that of registration `k`, and if freed, was freed by a deregistration. */
  ghost predicate RecordTells(recs: Records, h: History, k: nat) {
    k < |recs| == |h.registered| ==>
      && Records(recs[k], h.registered[k])
      && (if recs[k].freed then FreedBy(recs[k], h.deregistered) else recs[k].freeTime == 0)
  }

  ghost predicate Tells(g: GranuleView, h: History) {
    && g.openTime == h.openTime
    && |g.records| == |h.registered|
    && forall k: nat :: RecordTells(g.records, h, k)
  }

  // One call.

  lemma AddTells(g: GranuleView, h: History, call: Call)
    requires call.RegisterCall? && call.id == g.id && Tells(g, h)
    ensures var rec := NewRecord(g.id, call.alloc, call.size, call.file, call.line, call.time);
      Tells(Added(g, rec), h.(registered := h.registered + [call]))
  {
    var rec := NewRecord(g.id, call.alloc, call.size, call.file, call.line, call.time);
    forall k: nat
      ensures RecordTells(g.records + [rec], h.(registered := h.registered + [call]), k)
    {
      assert RecordTells(g.records, h, k);
    }
  }

  lemma FreedByMore(rec: AllocRecord, calls: seq<Call>, call: Call)
    ensures FreedBy(rec, calls) ==> FreedBy(rec, calls + [call])
    ensures Frees(call, rec) ==> FreedBy(rec, calls + [call])
  {
    if k: nat :| k < |calls| && Frees(calls[k], rec) {
      assert Frees((calls + [call])[k], rec);
    }
    assert (calls + [call])[|calls|] == call;
  }

  lemma MarkTells(g: GranuleView, h: History, call: Call)
    requires call.DeregisterCall? && Tells(g, h)
    ensures Tells(Marked(g, call.alloc, call.time).0, h.(deregistered := h.deregistered + [call]))
  {
    var recs, recs' := g.records, Marked(g, call.alloc, call.time).0.records;
    var h' := h.(deregistered := h.deregistered + [call]);
    forall k: nat
      ensures RecordTells(recs', h', k)
    {
      assert RecordTells(recs, h, k);
      if k < |recs| {
        FreedByMore(recs'[k], h.deregistered, call);
      }
    }
  }

  /** The granule of slot `i`, if any, belongs there and tells its history. */
  ghost predicate SlotTells(s: Slots, i: nat, h: History) {
    i < |s| && s[i].Some? ==> DiagIndex(s[i].value.id, |s|) == i && Tells(s[i].value, h)
  }

  /** `h` is the history of the granule in slot `i` after the call. */
  lemma CallTells(d: Profile, call: Call, i: nat, h: History)
    requires d.storage.Diagnostic? && i < |d.storage.slots|
    requires SlotTells(d.storage.slots, i, h)
    ensures var (d', code) := Serve(d, call);
      && d'.storage.Diagnostic? && |d'.storage.slots| == |d.storage.slots|
      && (d'.storage.slots[i].Some? ==>
            var id := d'.storage.slots[i].value.id;
            && (d.storage.slots[i].Some? ==> d.storage.slots[i].value.id == id)
            && SlotTells(d'.storage.slots, i, NextHistory(h, id, call, code)))
  {
    var s := d.storage.slots;
    if s[i].Some? {
      var g := s[i].value;
      match call
      case RegisterCall(_, _, _, _, _, _) =>
        if call.id == g.id {
          AddTells(g, h, call);
        }
      case DeregisterCall(_, _, _) =>
        if call.id == g.id {
          MarkTells(g, h, call);
        }
      case _ =>
    }
  }

  // Whole runs.

  /** Slot `i` tells the run. */
  ghost predicate SlotTold(d: Profile, calls: seq<Call>, i: nat) {
    && Reached(d, calls).storage.Diagnostic?
    && var s := Reached(d, calls).storage.slots;
       i < |s| && s[i].Some? ==> SlotTells(s, i, HistoryOf(d, calls, s[i].value.id))
  }

  lemma SlotToldNext(d: Profile, calls: seq<Call>, call: Call, i: nat)
    requires SlotTold(d, calls, i)
    ensures SlotTold(d, calls + [call], i)
  {
    assert (calls + [call])[..|calls|] == calls;
    var p := Reached(d, calls);
    var s, st := p.storage.slots, Serve(p, call).0.storage;
    if i < |s| {
      if s[i].Some? {
        CallTells(p, call, i, HistoryOf(d, calls, s[i].value.id));
      } else if st.Diagnostic? && |st.slots| == |s| && st.slots[i].Some? {
        CallTells(p, call, i, HistoryOf(d, calls, st.slots[i].value.id));
      }
    }
  }

  ghost predicate AllFree(d: Profile) {
    d.storage.Diagnostic? && forall i: nat :: i < |d.storage.slots| ==> d.storage.slots[i].None?
  }

  /** On every run of a profiler without open granules, whether or not it respects the contract,
      record `k` of an open granule holds the arguments of the `k`-th registration that named
      it since its open, and the granule holds the time of that open. */
  lemma {:induction false} RecordsTellCalls(d: Profile, calls: seq<Call>, i: nat)
    requires AllFree(d)
    ensures SlotTold(d, calls, i)
  {
    if calls != [] {
      var init, last := calls[..|calls| - 1], calls[|calls| - 1];
      RecordsTellCalls(d, init, i);
      SlotToldNext(d, init, last, i);
      assert init + [last] == calls;
    }
  }

  /** The entry of a pinning report holds the arguments of the registration. */
  predicate EntryTells(pin: PinningAlloc, call: Call) {
    && call.RegisterCall?
    && pin.allocId == call.alloc && pin.size == call.size && pin.allocTime == call.time
    && pin.site.file == call.file && pin.site.line == call.line && pin.site.column == 0
    && pin.lifetimeDelta == -1.0
  }

  ghost predicate EntriesTell(pins: seq<PinningAlloc>, registered: seq<Call>, idx: seq<nat>) {
    && |idx| == |pins|
    && (forall j, k :: 0 <= j < k < |idx| ==> idx[j] < idx[k])
    && forall k :: 0 <= k < |idx| ==> idx[k] < |registered| && EntryTells(pins[k], registered[idx[k]])
  }

  ghost predicate ReportTells(r: PinningReport, h: History) {
    && r.openTime == h.openTime
    && r.totalAllocs == |h.registered| == r.pinningCount + r.drainedAllocs
    && |r.pinningAllocs| == r.pinningCount
    && exists idx: seq<nat> :: EntriesTell(r.pinningAllocs, h.registered, idx)
  }

  lemma GranuleReport(g: GranuleView, h: History, time: Timespec)
    requires Tells(g, h)
    ensures ReportTells(Report(g.id, g.openTime, time, g.records), h)
  {
    var r, idx := Report(g.id, g.openTime, time, g.records), LiveIndices(g.records);
    forall k | 0 <= k < |idx|
      ensures EntryTells(r.pinningAllocs[k], h.registered[idx[k]])
    {
      assert RecordTells(g.records, h, idx[k]);
    }
    assert EntriesTell(r.pinningAllocs, h.registered, idx);
  }

  /** On every run, the newest report after a pinned close is for the closed granule, has the
      times of its open and its close, counts the registrations that named it since the open,
      and its entries hold the arguments of some of these, in order and none twice. */
  lemma ReportTellsCalls(d: Profile, calls: seq<Call>, id: GranuleId, time: Timespec)
    requires AllFree(d) && Serve(Reached(d, calls), CloseCall(id, time)).1 == 0
    ensures var d' := Serve(Reached(d, calls), CloseCall(id, time)).0;
      && d'.storage.Diagnostic? && Visible(d'.storage.sink) != []
      && var reports := Visible(d'.storage.sink);
         var report := reports[|reports| - 1];
         && report.granuleId == id && report.closeTime == time
         && report.pinningCount > 0
         && ReportTells(report, HistoryOf(d, calls, id))
  {
    DiagnosticRun(d, calls);
    var d1 := Reached(d, calls);
    CloseEmits(d1, id, time);
    var i := Lookup(d1.storage.slots, id).value;
    var g := d1.storage.slots[i].value;
    RecordsTellCalls(d, calls, i);
    GranuleReport(g, HistoryOf(d, calls, id), time);
    EmitVisible(d1.storage.sink, Report(id, g.openTime, time, g.records));
  }

  // The history of a run that respects the contract.

  ghost function AllocsOf(calls: seq<Call>): multiset<AllocId> {
    if calls == [] then multiset{}
    else
      var last := calls[|calls| - 1];
      AllocsOf(calls[..|calls| - 1]) + if last.RegisterCall? then multiset{last.alloc} else multiset{}
  }

  lemma AllocsNext(calls: seq<Call>, call: Call)
    requires call.RegisterCall?
    ensures AllocsOf(calls + [call]) == AllocsOf(calls) + multiset{call.alloc}
  {
    assert (calls + [call])[..|calls|] == calls;
  }

  /** The registrations of an open granule's history are those since its last open call. */
  lemma {:induction false} HistoryIsRegistered(d: Profile, capacity: nat, calls: seq<Call>, id: GranuleId)
    requires d.storage.Diagnostic? && ShowsRecords(d, EMPTY_LEDGER)
    requires Respectful(capacity, |d.storage.slots|, calls)
    requires id in After(capacity, calls).open
    ensures AllocsOf(HistoryOf(d, calls, id).registered) == RegisteredSince(calls, id)
  {
    var init, last := calls[..|calls| - 1], calls[|calls| - 1];
    DiagnosticRun(d, init);
    FollowsRun(d, capacity, |d.storage.slots|, init);
    Follows(Reached(d, init), After(capacity, init), capacity, |d.storage.slots|, last);
    if !(last.OpenCall? && last.id == id) {
      HistoryIsRegistered(d, capacity, init, id);
      if last.RegisterCall? && last.id == id {
        AllocsNext(HistoryOf(d, init, id).registered, last);
      }
    }
  }
}
