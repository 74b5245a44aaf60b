/** The ring of buffered pinning reports: a bounded FIFO that drops its oldest entry. */
module ReportBuffer {
  import opened Probe
  import opened GranuleDiag

  // The simple form.

  /** What became of a report that left the buffer. */
  datatype Fate =
    | Delivered(report: PinningReport)
    | Dropped(report: PinningReport)
    | Destroyed(report: PinningReport)

  datatype BufferOp = Push(report: PinningReport) | Drain(max: nat)

  type Reports = seq<PinningReport>

  function AfterPush(c: Reports, capacity: nat, report: PinningReport): Reports {
    if c != [] && |c| == capacity then c[1..] + [report] else c + [report]
  }

  function DroppedBy(c: Reports, capacity: nat): seq<Fate> {
    if c != [] && |c| == capacity then [Dropped(c[0])] else []
  }

  /** A drain hands out all that is asked for or all there is, whichever is less. */
  function DrainCount(c: Reports, max: nat): (n: nat)
    ensures n <= |c| && n <= max
    ensures n == |c| || n == max
  {
    if |c| < max then |c| else max
  }

  function AllDelivered(c: Reports): (f: seq<Fate>)
    ensures |f| == |c|
  {
    seq(|c|, k requires 0 <= k < |c| => Delivered(c[k]))
  }

  function AllDestroyed(c: Reports): (f: seq<Fate>)
    ensures |f| == |c|
  {
    seq(|c|, k requires 0 <= k < |c| => Destroyed(c[k]))
  }

  // The ring.

  /** One step around the ring. */
  function Wrap(x: nat, n: nat): nat
    requires x < 2 * n
  {
    if x < n then x else x - n
  }

  /** The index expression of the source. */
  method Advance(x: nat, n: nat) returns (r: nat)
    requires x < n < 0x1_0000_0000
    ensures r == Wrap(x + 1, n)
  {
    ModWraps(x + 1, n);
    r := Low32(x + 1) % n;
  }

  /** Exactly the slots of the window of `count` slots from `tail` hold a report. */
  ghost predicate RingOk(ring: seq<Option<PinningReport>>, tail: nat, count: nat) {
    && (tail < |ring| || (ring == [] && tail == 0))
    && count <= |ring|
    && forall i: nat :: i < |ring| ==> (ring[i].Some? <==> Dist(tail, i, |ring|) < count)
  }

  ghost function Window(ring: seq<Option<PinningReport>>, tail: nat, count: nat): (c: Reports)
    requires RingOk(ring, tail, count)
    ensures |c| == count
  {
    seq(count, k requires 0 <= k < count => ring[At(tail, k, |ring|)].value)
  }

  lemma TakeFront(ring: seq<Option<PinningReport>>, tail: nat, count: nat)
    requires RingOk(ring, tail, count) && count > 0
    ensures RingOk(ring[tail := None], Wrap(tail + 1, |ring|), count - 1)
    ensures Window(ring, tail, count)
         == [ring[tail].value] + Window(ring[tail := None], Wrap(tail + 1, |ring|), count - 1)
  {}

  lemma PutBack(ring: seq<Option<PinningReport>>, tail: nat, count: nat, report: PinningReport)
    requires RingOk(ring, tail, count) && count < |ring|
    ensures var ring' := ring[Wrap(tail + count, |ring|) := Some(report)];
      && RingOk(ring', tail, count + 1)
      && Window(ring', tail, count + 1) == Window(ring, tail, count) + [report]
  {}

  /** In a full ring the new report overwrites the oldest, and the window moves on. */
  lemma PutOver(ring: seq<Option<PinningReport>>, tail: nat, report: PinningReport)
    requires RingOk(ring, tail, |ring|) && 0 < |ring|
    ensures var ring' := ring[tail := Some(report)];
      && RingOk(ring', Wrap(tail + 1, |ring|), |ring|)
      && Window(ring', Wrap(tail + 1, |ring|), |ring|) == Window(ring, tail, |ring|)[1..] + [report]
  {}

  lemma Front(ring: seq<Option<PinningReport>>, tail: nat, count: nat)
    requires RingOk(ring, tail, count) && count > 0
    ensures ring[tail] == Some(Window(ring, tail, count)[0])
  {
    assert At(tail, 0, |ring|) == tail;
  }

  /** Both cases of a push: the tail moves if the ring is full, the head always. */
  lemma PushRing(ring: seq<Option<PinningReport>>, tail: nat, count: nat, report: PinningReport)
    returns (ring': seq<Option<PinningReport>>, tail': nat, count': nat)
    requires RingOk(ring, tail, count) && 0 < |ring|
    ensures ring' == ring[Wrap(tail + count, |ring|) := Some(report)]
    ensures tail' == if count == |ring| then Wrap(tail + 1, |ring|) else tail
    ensures count' == if count == |ring| then count else count + 1
    ensures RingOk(ring', tail', count')
    ensures Wrap(Wrap(tail + count, |ring|) + 1, |ring|) == Wrap(tail' + count', |ring|)
    ensures Window(ring', tail', count') == AfterPush(Window(ring, tail, count), |ring|, report)
  {
    ring' := ring[Wrap(tail + count, |ring|) := Some(report)];
    if count == |ring| {
      tail', count' := Wrap(tail + 1, |ring|), count;
      PutOver(ring, tail, report);
    } else {
      tail', count' := tail, count + 1;
      PutBack(ring, tail, count, report);
    }
  }

  /** The oldest report leaves and the tail moves on; the head stays where it is. */
  lemma TakeRing(ring: seq<Option<PinningReport>>, tail: nat, count: nat)
    returns (ring': seq<Option<PinningReport>>, tail': nat)
    requires RingOk(ring, tail, count) && count > 0
    ensures ring' == ring[tail := None] && tail' == Wrap(tail + 1, |ring|)
    ensures RingOk(ring', tail', count - 1)
    ensures Wrap(tail + count, |ring|) == Wrap(tail' + count - 1, |ring|)
    ensures ring[tail] == Some(Window(ring, tail, count)[0])
    ensures Window(ring', tail', count - 1) == Window(ring, tail, count)[1..]
  {
    TakeFront(ring, tail, count);
    Front(ring, tail, count);
    ring', tail' := ring[tail := None], Wrap(tail + 1, |ring|);
  }

  /** An output array after its first `n` places have received the oldest reports. */
  function HandedOut(out: seq<Option<PinningReport>>, c: Reports, n: nat): (r: seq<Option<PinningReport>>)
    requires n <= |c| && n <= |out|
    ensures |r| == |out|
  {
    seq(|out|, k requires 0 <= k < |out| => if k < n then Some(c[k]) else out[k])
  }

  lemma HandOutNext(out: seq<Option<PinningReport>>, c: Reports, n: nat)
    requires n < |c| && n < |out|
    ensures HandedOut(out, c, n + 1) == HandedOut(out, c, n)[n := Some(c[n])]
  {}

  lemma DeliveredNext(c: Reports, i: nat)
    requires i < |c|
    ensures AllDelivered(c[..i + 1]) == AllDelivered(c[..i]) + [Delivered(c[i])]
  {}

  class Buffer {
    var reports: array<Option<PinningReport>>
    var capacity: nat
    var count: nat
    var head: nat
    var tail: nat
    /** Every report that has left the buffer, in order, and what became of it. */
    ghost var gone: seq<Fate>
    /** The buffered reports, oldest first. */
    ghost var contents: Reports

    ghost predicate Valid()
      reads this, reports
    {
      && capacity == reports.Length < 0x1_0000_0000
      && RingOk(reports[..], tail, count)
      && head == (if capacity == 0 then 0 else Wrap(tail + count, capacity))
      && contents == Window(reports[..], tail, count)
    }

    constructor (capacity: nat)
      requires capacity < 0x1_0000_0000
      ensures Valid() && fresh(reports)
      ensures contents == [] && gone == [] && this.capacity == capacity
    {
      reports := new Option<PinningReport>[capacity](_ => None);
      this.capacity, count, head, tail := capacity, 0, 0, 0;
      gone, contents := [], [];
    }

    /** In a ring without slots a push would divide by zero. */
    method Push(report: Option<PinningReport>)
      requires Valid() && (report.Some? ==> 0 < capacity)
      modifies this, reports
      ensures Valid() && reports == old(reports) && capacity == old(capacity)
      ensures report.None? ==> contents == old(contents) && gone == old(gone)
      ensures report.Some? ==>
                && contents == AfterPush(old(contents), capacity, report.value)
                && gone == old(gone) + DroppedBy(old(contents), capacity)
    {
      if report.None? {
        return;
      }
      ghost var before := contents;
      ghost var ring', tail', count' := PushRing(reports[..], tail, count, report.value);
      if count == capacity {
        Front(reports[..], tail, count);
        gone := gone + [Dropped(contents[0])];
        tail := Advance(tail, capacity);
        count := count - 1;
      }
      reports[head] := report;
      head := Advance(head, capacity);
      count := count + 1;
      contents := AfterPush(before, capacity, report.value);
      assert reports[..] == ring' && tail == tail' && count == count';
    }

    /** One turn of the drain loop, with the decrement of the count that the source does
        after the loop. */
    method TakeOldest() returns (report: Option<PinningReport>)
      requires Valid() && count > 0
      modifies this`tail, this`count, this`gone, this`contents, reports
      ensures Valid() && report == Some(old(contents)[0])
      ensures contents == old(contents)[1..]
      ensures gone == old(gone) + [Delivered(old(contents)[0])]
    {
      ghost var ring', tail' := TakeRing(reports[..], tail, count);
      report := reports[tail];
      gone := gone + [Delivered(report.value)];
      reports[tail] := None;
      tail := Advance(tail, capacity);
      count := count - 1;
      contents := contents[1..];
      assert reports[..] == ring' && tail == tail';
    }

    /** The caller provides an array of at least `maxReports` entries. */
    method Drain(outReports: array<Option<PinningReport>>, maxReports: nat) returns (n: nat)
      requires Valid() && outReports != reports && maxReports <= outReports.Length
      modifies this, reports, outReports
      ensures Valid() && reports == old(reports) && capacity == old(capacity)
      ensures n == DrainCount(old(contents), maxReports)
      ensures n <= |old(contents)| && n <= maxReports && (n == |old(contents)| || n == maxReports)
      ensures outReports[..] == HandedOut(old(outReports[..]), old(contents), n)
      ensures forall k :: 0 <= k < n ==> outReports[k] == Some(old(contents)[k])
      ensures forall k :: n <= k < outReports.Length ==> outReports[k] == old(outReports[k])
      ensures contents == old(contents)[n..]
      ensures gone == old(gone) + AllDelivered(old(contents)[..n])
    {
      ghost var before, out := contents, outReports[..];
      var toDrain := if count < maxReports then count else maxReports;
      for i := 0 to toDrain
        invariant Valid() && reports == old(reports) && capacity == old(capacity)
        invariant contents == before[i..]
        invariant outReports[..] == HandedOut(out, before, i)
        invariant gone == old(gone) + AllDelivered(before[..i])
      {
        DeliveredNext(before, i);
        HandOutNext(out, before, i);
        outReports[i] := TakeOldest();
      }
      return toDrain;
    }

    /** Frees every report still buffered. The 32-bit sum in the index must not wrap, which it
        cannot in a ring of at most 2^31 slots. */
    method Destroy()
      requires Valid() && (capacity <= 0x8000_0000 || tail + count <= 0x1_0000_0000)
      modifies this`gone
      ensures gone == old(gone) + AllDestroyed(contents)
    {
      ghost var c := contents;
      for i := 0 to count
        invariant gone == old(gone) + AllDestroyed(c[..i])
      {
        var idx := ProbeIndex(tail, i, capacity);
        if reports[idx].Some? {
          gone := gone + [Destroyed(reports[idx].value)];
        }
        assert AllDestroyed(c[..i + 1]) == AllDestroyed(c[..i]) + [Destroyed(c[i])];
      }
      assert c[..count] == c;
    }
  }

  // Whole runs.

  /** Contents after an operation and the reports that left. */
  function ApplyBuffer(c: Reports, capacity: nat, op: BufferOp)
    : (Reports, seq<Fate>)
  {
    match op
    case Push(r) =>
      (AfterPush(c, capacity, r), DroppedBy(c, capacity))
    case Drain(max) =>
      var n := DrainCount(c, max);
      (c[n..], AllDelivered(c[..n]))
  }

  function RunBuffer(c: Reports, capacity: nat, ops: seq<BufferOp>)
    : (Reports, seq<Fate>)
    decreases |ops|
  {
    if ops == [] then (c, [])
    else
      var (c', gone) := ApplyBuffer(c, capacity, ops[0]);
      var (c'', gone') := RunBuffer(c', capacity, ops[1..]);
      (c'', gone + gone')
  }

  function ReportsOf(gone: seq<Fate>): seq<PinningReport> {
    seq(|gone|, k requires 0 <= k < |gone| => gone[k].report)
  }

  function PushesOf(ops: seq<BufferOp>): seq<PinningReport> {
    if ops == [] then []
    else (if ops[0].Push? then [ops[0].report] else []) + PushesOf(ops[1..])
  }

  function CountDelivered(gone: seq<Fate>): nat {
    if gone == [] then 0 else (if gone[0].Delivered? then 1 else 0) + CountDelivered(gone[1..])
  }

  function CountDropped(gone: seq<Fate>): nat {
    if gone == [] then 0 else (if gone[0].Dropped? then 1 else 0) + CountDropped(gone[1..])
  }

  lemma ApplyAccounts(c: Reports, capacity: nat, op: BufferOp)
    requires 0 < capacity && |c| <= capacity
    ensures var (c', gone) := ApplyBuffer(c, capacity, op);
      && ReportsOf(gone) + c' == c + (if op.Push? then [op.report] else [])
      && |c'| <= capacity
      && forall k :: 0 <= k < |gone| ==> !gone[k].Destroyed?
  {}

  /** Every report ever pushed has left or is still buffered, exactly once and in push
      order: the reports that left, then the contents, are the old contents and the pushes. */
  lemma {:induction false} RunAccounts(c: Reports, capacity: nat, ops: seq<BufferOp>)
    requires 0 < capacity && |c| <= capacity
    ensures var (c', gone) := RunBuffer(c, capacity, ops);
      && ReportsOf(gone) + c' == c + PushesOf(ops)
      && |c'| <= capacity
      && forall k :: 0 <= k < |gone| ==> !gone[k].Destroyed?
    decreases |ops|
  {
    if ops != [] {
      var (c1, gone1) := ApplyBuffer(c, capacity, ops[0]);
      var (c2, gone2) := RunBuffer(c1, capacity, ops[1..]);
      ApplyAccounts(c, capacity, ops[0]);
      RunAccounts(c1, capacity, ops[1..]);
      assert ReportsOf(gone1 + gone2) == ReportsOf(gone1) + ReportsOf(gone2);
      Splice(ReportsOf(gone1), ReportsOf(gone2), c, c1, c2,
             if ops[0].Push? then [ops[0].report] else [], PushesOf(ops[1..]));
    } else {
      assert c + PushesOf(ops) == c;
    }
  }

  lemma Splice<T>(g1: seq<T>, g2: seq<T>, c: seq<T>, c1: seq<T>, c2: seq<T>, p: seq<T>, q: seq<T>)
    requires g1 + c1 == c + p && g2 + c2 == c1 + q
    ensures (g1 + g2) + c2 == c + (p + q)
  {
    assert (g1 + g2) + c2 == g1 + (g2 + c2);
    assert g1 + (c1 + q) == (g1 + c1) + q;
    assert (c + p) + q == c + (p + q);
  }

  /** A run from an empty buffer that ends with a destroy: every report pushed is delivered,
      dropped or freed, exactly once and in push order. */
  lemma RunThenDestroy(capacity: nat, ops: seq<BufferOp>)
    requires 0 < capacity
    ensures var (c, gone) := RunBuffer([], capacity, ops);
      && ReportsOf(gone + AllDestroyed(c)) == PushesOf(ops)
      && (forall f :: f in gone ==> !f.Destroyed?)
      && forall f :: f in AllDestroyed(c) ==> f.Destroyed?
  {
    var (c, gone) := RunBuffer([], capacity, ops);
    RunAccounts([], capacity, ops);
    assert ReportsOf(gone + AllDestroyed(c)) == ReportsOf(gone) + c;
  }

  lemma {:induction false} FatesSplit(gone: seq<Fate>)
    requires forall k :: 0 <= k < |gone| ==> !gone[k].Destroyed?
    ensures CountDelivered(gone) + CountDropped(gone) == |gone|
  {
    if gone != [] {
      FatesSplit(gone[1..]);
    }
  }

  /** Counting form, from an empty buffer: pushes are delivered plus dropped plus buffered. */
  lemma PushesCounted(capacity: nat, ops: seq<BufferOp>)
    requires 0 < capacity
    ensures var (c, gone) := RunBuffer([], capacity, ops);
      |PushesOf(ops)| == CountDelivered(gone) + CountDropped(gone) + |c|
  {
    var (c, gone) := RunBuffer([], capacity, ops);
    RunAccounts([], capacity, ops);
    FatesSplit(gone);
    assert |ReportsOf(gone) + c| == |PushesOf(ops)|;
  }

  lemma {:induction false} FatesAppend(gone: seq<Fate>, gone': seq<Fate>)
    ensures CountDelivered(gone + gone') == CountDelivered(gone) + CountDelivered(gone')
    ensures CountDropped(gone + gone') == CountDropped(gone) + CountDropped(gone')
  {
    if gone == [] {
      assert gone + gone' == gone';
    } else {
      assert (gone + gone')[1..] == gone[1..] + gone';
      FatesAppend(gone[1..], gone');
    }
  }

  lemma {:induction false} DeliveredCount(c: Reports)
    ensures CountDelivered(AllDelivered(c)) == |c| && CountDropped(AllDelivered(c)) == 0
  {
    if c != [] {
      assert AllDelivered(c)[1..] == AllDelivered(c[1..]);
      DeliveredCount(c[1..]);
    }
  }

  /** A push drops one report exactly when the ring is full and delivers none; a drain delivers
      as many as are asked for or buffered, and drops none. */
  lemma ApplyFates(c: Reports, capacity: nat, op: BufferOp)
    requires 0 < capacity && |c| <= capacity
    ensures var (c', gone) := ApplyBuffer(c, capacity, op);
      && (op.Push? ==>
            && CountDelivered(gone) == 0
            && CountDropped(gone) == |gone| == (if |c| == capacity then 1 else 0)
            && |c'| == (if |c| == capacity then capacity else |c| + 1))
      && (op.Drain? ==>
            && CountDropped(gone) == 0
            && CountDelivered(gone) == |gone| == (if |c| < op.max then |c| else op.max)
            && |c'| == |c| - |gone|)
  {
    if op.Drain? {
      DeliveredCount(c[..DrainCount(c, op.max)]);
    }
  }

  /** Without drains, a ring that starts empty drops exactly the reports it has no room for. */
  lemma {:induction false} DropsBeyondRoom(c: Reports, capacity: nat, ops: seq<BufferOp>)
    requires 0 < capacity && |c| <= capacity
    requires forall op :: op in ops ==> op.Push?
    ensures var (c', gone) := RunBuffer(c, capacity, ops);
      && CountDelivered(gone) == 0
      && CountDropped(gone) == (if |c| + |ops| <= capacity then 0 else |c| + |ops| - capacity)
    decreases |ops|
  {
    if ops != [] {
      var (c1, gone1) := ApplyBuffer(c, capacity, ops[0]);
      ApplyFates(c, capacity, ops[0]);
      DropsBeyondRoom(c1, capacity, ops[1..]);
      FatesAppend(gone1, RunBuffer(c1, capacity, ops[1..]).1);
    }
  }

  /** Drains of at least one report each, as many as there are reports, empty the ring and
      deliver every buffered report, oldest first. */
  lemma {:induction false} DrainsDeliverAll(c: Reports, capacity: nat, ops: seq<BufferOp>)
    requires |c| <= |ops|
    requires forall op :: op in ops ==> op.Drain? && op.max > 0
    ensures RunBuffer(c, capacity, ops) == ([], AllDelivered(c))
    decreases |ops|
  {
    if ops != [] {
      var n := DrainCount(c, ops[0].max);
      DrainsDeliverAll(c[n..], capacity, ops[1..]);
      assert AllDelivered(c[..n]) + AllDelivered(c[n..]) == AllDelivered(c);
    }
  }

  /** One drain with room for all buffered reports empties the ring. */
  lemma DrainWithRoom(c: Reports, capacity: nat, max: nat)
    requires |c| <= max
    ensures ApplyBuffer(c, capacity, Drain(max)) == ([], AllDelivered(c))
  {
    assert c[..|c|] == c && c[|c|..] == [];
  }
}
