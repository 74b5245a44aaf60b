/** Last-in first-out use of the public interface: a condition on the calls alone under
    which every close is chain-safe, so that the modes agree. */
module LifoRuns {
  import opened Hash
  import opened SlotTable
  import opened TableInvariant
  import opened TableHistory
  import opened Ledger
  import opened Profiler
  import opened ModeAgreement

  /** The open granules, in order of opening. */
  function OpenStack(capacity: nat, calls: seq<Call>): seq<GranuleId> {
    if calls == [] then []
    else
      var init, last := calls[..|calls| - 1], calls[|calls| - 1];
      var stack := OpenStack(capacity, init);
      var code := Enter(After(capacity, init), capacity, last).1;
      if last.OpenCall? && code == 0 then stack + [last.id]
      else if last.CloseCall? && code != -1 && stack != [] then stack[..|stack| - 1]
      else stack
  }

  /** A close of an open granule names the granule opened last. */
  ghost predicate ClosesLast(capacity: nat, calls: seq<Call>, call: Call) {
    call.CloseCall? && call.id in After(capacity, calls).open ==>
      var stack := OpenStack(capacity, calls);
      stack != [] && stack[|stack| - 1] == call.id
  }

  ghost predicate LastInFirstOut(capacity: nat, calls: seq<Call>) {
    calls == [] ||
    var init := calls[..|calls| - 1];
    LastInFirstOut(capacity, init) && ClosesLast(capacity, init, calls[|calls| - 1])
  }

  function FrameIds(frames: seq<Frame>): (ids: seq<GranuleId>)
    ensures |ids| == |frames|
  {
    seq(|frames|, i requires 0 <= i < |frames| => frames[i].id)
  }

  lemma StackedOpen(t: Table, frames: seq<Frame>, open: Book, id: GranuleId) returns (frames': seq<Frame>)
    requires Refines(t, Sizes(open)) && Stacked(Layout(t), frames) && id !in open
    ensures Stacked(Layout(AfterOpen(t, id).0), frames')
    ensures FrameIds(frames') == FrameIds(frames) + if AfterOpen(t, id).1 == 0 then [id] else []
  {
    forall i: nat | i < |t|
      ensures !Holds(t, i, id)
    {
      assert t[i].occupied ==> t[i].id in Sizes(open);
    }
    LifoOpen(t, frames, id);
    frames' := Push(t, frames, OpenOp(id));
  }

  lemma StackedClose(t: Table, frames: seq<Frame>, id: GranuleId) returns (frames': seq<Frame>)
    requires Stacked(Layout(t), frames) && frames != [] && frames[|frames| - 1].id == id
    ensures StepSafe(t, CloseOp(id))
    ensures Stacked(Layout(AfterClose(t, id).0), frames')
    ensures FrameIds(frames') == FrameIds(frames)[..|frames| - 1]
  {
    LifoClose(t, frames);
    frames' := frames[..|frames| - 1];
  }

  /** One call: the frames that explain the layout of the table follow the stack of opens. */
  lemma StackedNext(p: Profile, l: Ledger, frames: seq<Frame>, call: Call) returns (frames': seq<Frame>)
    requires ShowsCounts(p, l) && Stacked(Layout(p.storage.table), frames)
    requires call.OpenCall? ==> call.id !in l.open
    requires call.CloseCall? && call.id in l.open ==> frames != [] && frames[|frames| - 1].id == call.id
    ensures ChainSafeCall(p, call)
    ensures Serve(p, call).0.storage.Production?
    ensures Stacked(Layout(Serve(p, call).0.storage.table), frames')
    ensures FrameIds(frames')
         == if call.OpenCall? && Serve(p, call).1 == 0 then FrameIds(frames) + [call.id]
            else if call.CloseCall? && call.id in l.open then FrameIds(frames)[..|frames| - 1]
            else FrameIds(frames)
  {
    var t := p.storage.table;
    frames' := frames;
    match call
    case OpenCall(id, _) => frames' := StackedOpen(t, frames, l.open, id);
    case RegisterCall(id, _, _, _, _, _) => BumpKeepsLayout(t, id, 1);
    case DeregisterCall(id, _, _) => BumpKeepsLayout(t, id, -1);
    case CloseCall(id, _) =>
      if id in l.open {
        frames' := StackedClose(t, frames, id);
      } else {
        Membership(t, Sizes(l.open), id);
      }
    case DrainCall(_) =>
  }

  /** Last-in first-out runs that respect the contract are chain-safe. */
  lemma {:induction false} LifoIsChainSafe(p: Profile, capacity: nat, diagCapacity: nat, calls: seq<Call>)
    returns (frames: seq<Frame>)
    requires ShowsCounts(p, EMPTY_LEDGER) && Sized(p, capacity, diagCapacity)
    requires Respectful(capacity, diagCapacity, calls) && LastInFirstOut(capacity, calls)
    ensures ChainSafeRun(p, calls)
    ensures Reached(p, calls).storage.Production?
    ensures Stacked(Layout(Reached(p, calls).storage.table), frames)
    ensures FrameIds(frames) == OpenStack(capacity, calls)
  {
    if calls == [] {
      LayoutInv(p.storage.table);
      frames := [];
    } else {
      var init, last := calls[..|calls| - 1], calls[|calls| - 1];
      frames := LifoIsChainSafe(p, capacity, diagCapacity, init);
      FollowsRun(p, capacity, diagCapacity, init);
      var q, l := Reached(p, init), After(capacity, init);
      frames := StackedNext(q, l, frames, last);
      Follows(q, l, capacity, diagCapacity, last);
    }
  }

  /** The modes agree on every orderly last-in first-out run whose records fit: all three
      conditions are on the calls alone. */
  lemma LifoModesAgree(config: Config, diagConfig: Config, calls: seq<Call>)
    requires Supported(config) && config.mode.ProductionMode? && config.slotCapacity <= MAX_CAPACITY
    requires Supported(diagConfig) && diagConfig.mode.DiagnosticMode?
    requires OrderlyRun(config.slotCapacity, diagConfig.slotCapacity, calls)
    requires RecordsFit(config.slotCapacity, calls) && LastInFirstOut(config.slotCapacity, calls)
    ensures Agree(Profile(NewStorage(config), NO_COUNTS), Profile(NewStorage(diagConfig), NO_COUNTS), calls)
  {
    var p, d := Profile(NewStorage(config), NO_COUNTS), Profile(NewStorage(diagConfig), NO_COUNTS);
    NewProfilersShow(config);
    NewProfilersShow(diagConfig);
    FitRunsRespect(config.slotCapacity, diagConfig.slotCapacity, calls);
    var _ := LifoIsChainSafe(p, config.slotCapacity, diagConfig.slotCapacity, calls);
    DiagnosticRun(d, calls);
    ModesAgree(p, d, config.slotCapacity, diagConfig.slotCapacity, calls);
  }
}
