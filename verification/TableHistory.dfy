/** Whole histories of the slot table: refinement to a map, and last-in first-out runs. */
module TableHistory {
  import opened Hash
  import opened Probe
  import opened SlotTable
  import opened TableInvariant

  datatype Op =
    | OpenOp(id: GranuleId)
    | AllocOp(id: GranuleId)
    | DeallocOp(id: GranuleId)
    | CloseOp(id: GranuleId)

  function Apply(t: Table, op: Op): (r: (Table, int)) {
    match op
    case OpenOp(id) => AfterOpen(t, id)
    case AllocOp(id) => AfterBump(t, id, 1)
    case DeallocOp(id) => AfterBump(t, id, -1)
    case CloseOp(id) => var (u, live) := AfterClose(t, id); (u, live)
  }

  /** Final table and return codes of a history. */
  function Run(t: Table, ops: seq<Op>): (r: (Table, seq<int>))
    ensures |r.1| == |ops|
    decreases |ops|
  {
    if ops == [] then (t, [])
    else
      var (u, code) := Apply(t, ops[0]);
      var (v, codes) := Run(u, ops[1..]);
      (v, [code] + codes)
  }

  // The simple form: a map from open granules to registrations minus deregistrations.

  type LiveMap = map<GranuleId, int>

  function AddMap(m: LiveMap, id: GranuleId, d: int): (LiveMap, int) {
    if id in m then (m[id := m[id] + d], 0) else (m, -1)
  }

  function ApplyMap(m: LiveMap, capacity: nat, op: Op): (LiveMap, int) {
    match op
    case OpenOp(id) =>
      if id in m then (m, 0) else if |m| == capacity then (m, -1) else (m[id := 0], 0)
    case AllocOp(id) => AddMap(m, id, 1)
    case DeallocOp(id) => AddMap(m, id, -1)
    case CloseOp(id) => if id in m then (m - {id}, Low32(m[id]) as int) else (m, UINT32_MAX)
  }

  function RunMap(m: LiveMap, capacity: nat, ops: seq<Op>): (r: (LiveMap, seq<int>))
    ensures |r.1| == |ops|
    decreases |ops|
  {
    if ops == [] then (m, [])
    else
      var (m', code) := ApplyMap(m, capacity, ops[0]);
      var (m'', codes) := RunMap(m', capacity, ops[1..]);
      (m'', [code] + codes)
  }

  ghost predicate Stored(t: Table, id: GranuleId) {
    exists i: nat :: Holds(t, i, id)
  }

  /** The table stores exactly the map, each count modulo 2^32. */
  ghost predicate Mirrors(t: Table, m: LiveMap) {
    && (forall i: nat :: i < |t| && t[i].occupied ==>
          t[i].id in m && t[i].liveCount == Low32(m[t[i].id]))
    && (forall id :: id in m ==> Stored(t, id))
  }

  ghost predicate Refines(t: Table, m: LiveMap) {
    Inv(t) && Mirrors(t, m)
  }

  ghost predicate StepSafe(t: Table, op: Op) {
    op.CloseOp? && Find(t, op.id).Some? ==> ChainSafe(t, Find(t, op.id).value)
  }

  ghost predicate SafeRun(t: Table, ops: seq<Op>)
    decreases |ops|
  {
    ops == [] || (StepSafe(t, ops[0]) && SafeRun(Apply(t, ops[0]).0, ops[1..]))
  }

  // Counting slots: distinct occupied slots hold distinct granules.

  ghost function IdsOf(t: Table, s: set<nat>): set<GranuleId>
    requires forall i :: i in s ==> i < |t|
  {
    set i | i in s :: t[i].id
  }

  ghost function OccupiedSlots(t: Table): set<nat> {
    set i: nat | i < |t| && t[i].occupied
  }

  lemma {:induction false} SlotsCountIds(t: Table, s: set<nat>)
    requires StoredOnce(t)
    requires forall i :: i in s ==> i < |t| && t[i].occupied
    ensures |IdsOf(t, s)| == |s|
  {
    if s != {} {
      var i :| i in s;
      SlotsCountIds(t, s - {i});
      assert IdsOf(t, s) == IdsOf(t, s - {i}) + {t[i].id};
    }
  }

  lemma {:induction false} BoundedSet(s: set<nat>, n: nat)
    requires forall i :: i in s ==> i < n
    ensures |s| <= n
    ensures |s| == n <==> forall i: nat :: i < n ==> i in s
    decreases n
  {
    if n > 0 {
      BoundedSet(s - {n - 1}, n - 1);
      if n - 1 in s {
        assert |s| == |s - {n - 1}| + 1;
        assert forall i: nat :: i < n - 1 ==> (i in s <==> i in s - {n - 1});
      } else {
        assert s - {n - 1} == s;
      }
    } else {
      assert s == {};
    }
  }

  /** The map has as many granules as the table has occupied slots, so it is full exactly
      when the table is. */
  lemma MapCountsSlots(t: Table, m: LiveMap)
    requires Refines(t, m)
    ensures |m| == |OccupiedSlots(t)| <= |t|
    ensures |m| == |t| <==> forall i: nat :: i < |t| ==> t[i].occupied
  {
    var s := OccupiedSlots(t);
    SlotsCountIds(t, s);
    BoundedSet(s, |t|);
    forall id | id in m
      ensures id in IdsOf(t, s)
    {
      var i: nat :| Holds(t, i, id);
      assert i in s;
    }
    assert IdsOf(t, s) == m.Keys;
  }

  lemma Membership(t: Table, m: LiveMap, id: GranuleId)
    requires Refines(t, m)
    ensures id in m <==> Find(t, id).Some?
  {
    FindsNothing(t, id);
  }

  // The three table updates, seen from the map.

  lemma MirrorClaim(t: Table, m: LiveMap, k: nat, id: GranuleId)
    requires Mirrors(t, m) && id !in m
    requires k < |t| && !t[k].occupied
    ensures Mirrors(t[k := Slot(true, id, 0)], m[id := 0])
  {
    var u := t[k := Slot(true, id, 0)];
    var m' := m[id := 0];
    forall i: nat | i < |u| && u[i].occupied
      ensures u[i].id in m' && u[i].liveCount == Low32(m'[u[i].id])
    {
      assert i != k ==> u[i] == t[i];
    }
    forall j | j in m[id := 0]
      ensures Stored(u, j)
    {
      if j == id {
        assert Holds(u, k, j);
      } else {
        var i: nat :| Holds(t, i, j);
        assert Holds(u, i, j);
      }
    }
  }

  lemma MirrorCount(t: Table, m: LiveMap, k: nat, v: int)
    requires Mirrors(t, m) && StoredOnce(t)
    requires k < |t| && t[k].occupied
    ensures Mirrors(t[k := t[k].(liveCount := Low32(v))], m[t[k].id := v])
  {
    var u := t[k := t[k].(liveCount := Low32(v))];
    var m' := m[t[k].id := v];
    forall i: nat | i < |u| && u[i].occupied
      ensures u[i].id in m' && u[i].liveCount == Low32(m'[u[i].id])
    {
      assert i != k ==> u[i] == t[i] && t[i].id != t[k].id;
    }
    forall j | j in m
      ensures Stored(u, j)
    {
      var i: nat :| Holds(t, i, j);
      assert Holds(u, i, j);
    }
  }

  lemma MirrorClear(t: Table, m: LiveMap, k: nat)
    requires Mirrors(t, m) && StoredOnce(t)
    requires k < |t| && t[k].occupied
    ensures Mirrors(Clear(t, k), m - {t[k].id})
  {
    var u := Clear(t, k);
    var m' := m - {t[k].id};
    forall i: nat | i < |u| && u[i].occupied
      ensures u[i].id in m' && u[i].liveCount == Low32(m'[u[i].id])
    {
      assert u[i] == t[i] && t[i].id != t[k].id;
      assert t[i].liveCount == Low32(m[t[i].id]);
      assert m'[t[i].id] == m[t[i].id];
    }
    forall j | j in m - {t[k].id}
      ensures Stored(u, j)
    {
      var i: nat :| Holds(t, i, j);
      assert Holds(u, i, j);
    }
  }

  lemma OpenFull(t: Table, m: LiveMap, id: GranuleId)
    requires Refines(t, m) && Stop(t, id, 0).None?
    ensures id !in m && |m| == |t|
  {
    Membership(t, m, id);
    forall i: nat | i < |t|
      ensures t[i].occupied
    {
      assert Passed(t, i, id);
    }
    MapCountsSlots(t, m);
  }

  lemma OpenNew(t: Table, m: LiveMap, id: GranuleId, k: nat)
    requires Refines(t, m) && Stop(t, id, 0) == Some(k) && !t[k].occupied
    ensures id !in m && |m| != |t|
    ensures Refines(AfterOpen(t, id).0, m[id := 0])
  {
    Membership(t, m, id);
    MapCountsSlots(t, m);
    MirrorClaim(t, m, k, id);
    OpenKeeps(t, id);
  }

  lemma RefineOpen(t: Table, m: LiveMap, id: GranuleId)
    requires Refines(t, m)
    ensures Refines(AfterOpen(t, id).0, ApplyMap(m, |t|, OpenOp(id)).0)
    ensures AfterOpen(t, id).1 == ApplyMap(m, |t|, OpenOp(id)).1
  {
    match Stop(t, id, 0)
    case None => OpenFull(t, m, id);
    case Some(k) =>
      if t[k].occupied {
        Membership(t, m, id);
      } else {
        OpenNew(t, m, id, k);
      }
  }

  lemma RefineBump(t: Table, m: LiveMap, id: GranuleId, d: int)
    requires Refines(t, m)
    ensures Refines(AfterBump(t, id, d).0, AddMap(m, id, d).0)
    ensures AfterBump(t, id, d).1 == AddMap(m, id, d).1
  {
    Membership(t, m, id);
    match Find(t, id)
    case None =>
    case Some(i) =>
      assert Add32(t[i].liveCount, d) == Low32(m[id] + d) by {
        Low32Plus(m[id], d);
      }
      MirrorCount(t, m, i, m[id] + d);
      assert Inv(AfterBump(t, id, d).0) by {
        BumpKeeps(t, id, d);
      }
  }

  lemma RefineClose(t: Table, m: LiveMap, id: GranuleId)
    requires Refines(t, m)
    requires StepSafe(t, CloseOp(id))
    ensures Refines(AfterClose(t, id).0, ApplyMap(m, |t|, CloseOp(id)).0)
    ensures AfterClose(t, id).1 == ApplyMap(m, |t|, CloseOp(id)).1
  {
    Membership(t, m, id);
    if id in m {
      var s := Find(t, id).value;
      CloseKeepsIff(t, s);
      MirrorClear(t, m, s);
    }
  }

  lemma RefineStep(t: Table, m: LiveMap, op: Op)
    requires Refines(t, m) && StepSafe(t, op)
    ensures Refines(Apply(t, op).0, ApplyMap(m, |t|, op).0)
    ensures Apply(t, op).1 == ApplyMap(m, |t|, op).1
  {
    match op
    case OpenOp(id) => RefineOpen(t, m, id);
    case AllocOp(id) => RefineBump(t, m, id, 1);
    case DeallocOp(id) => RefineBump(t, m, id, -1);
    case CloseOp(id) => RefineClose(t, m, id);
  }

  lemma ApplyKeepsSize(t: Table, op: Op)
    ensures |Apply(t, op).0| == |t|
  {}

  /** Over every history whose closes are chain-safe, the table returns the codes of the
      map and still refines it at the end. */
  lemma {:induction false} RefineHistory(t: Table, m: LiveMap, ops: seq<Op>)
    requires Refines(t, m) && SafeRun(t, ops)
    ensures Refines(Run(t, ops).0, RunMap(m, |t|, ops).0)
    ensures Run(t, ops).1 == RunMap(m, |t|, ops).1
    decreases |ops|
  {
    if ops != [] {
      RefineStep(t, m, ops[0]);
      ApplyKeepsSize(t, ops[0]);
      RefineHistory(Apply(t, ops[0]).0, ApplyMap(m, |t|, ops[0]).0, ops[1..]);
    }
  }

  /** A fresh table refines the empty map, so RefineHistory covers whole lifetimes. */
  lemma FreshRefines(n: nat)
    requires 0 < n <= MAX_CAPACITY
    ensures Refines(seq(n, i => EMPTY), map[])
  {
    var t: Table := seq(n, i => EMPTY);
    assert forall i: nat :: i < |t| ==> !t[i].occupied;
  }

  /** Chain safety cannot be weakened: a close that is not chain-safe breaks the refinement
      of every map. */
  lemma UnsafeCloseBreaks(t: Table, m: LiveMap, id: GranuleId)
    requires Refines(t, m) && id in m
    ensures Refines(AfterClose(t, id).0, m - {id}) <==> StepSafe(t, CloseOp(id))
  {
    Membership(t, m, id);
    CloseKeepsIff(t, Find(t, id).value);
    if StepSafe(t, CloseOp(id)) {
      RefineClose(t, m, id);
    }
  }

  /** A close result is the exact count, and tells a count from the error value, exactly
      when the count lies in 0..2^32-2; UINT32_MAX is also returned for a missing id. */
  lemma CloseResultExact(t: Table, m: LiveMap, id: GranuleId)
    requires Refines(t, m) && id in m
    ensures AfterClose(t, id).1 == m[id] && AfterClose(t, id).1 != UINT32_MAX
       <==> 0 <= m[id] < UINT32_MAX
  {
    Membership(t, m, id);
  }

  // Last-in first-out runs.

  /** An open granule and the layout that its open found. */
  datatype Frame = Frame(id: GranuleId, before: Table)

  function Push(t: Table, stack: seq<Frame>, op: Op): seq<Frame> {
    match op
    case OpenOp(id) => if AfterOpen(t, id).1 == 0 then stack + [Frame(id, Layout(t))] else stack
    case CloseOp(id) => if stack == [] then [] else stack[..|stack| - 1]
    case _ => stack
  }

  /** Opens name fresh granules; a close names the granule opened last. */
  predicate LifoOp(t: Table, stack: seq<Frame>, op: Op) {
    match op
    case OpenOp(id) => forall i: nat :: i < |t| ==> !Holds(t, i, id)
    case CloseOp(id) => stack != [] && stack[|stack| - 1].id == id
    case _ => true
  }

  predicate LifoRun(t: Table, stack: seq<Frame>, ops: seq<Op>)
    decreases |ops|
  {
    ops == [] ||
    (LifoOp(t, stack, ops[0]) && LifoRun(Apply(t, ops[0]).0, Push(t, stack, ops[0]), ops[1..]))
  }

  /** Every close gives back the layout that its matching open found. */
  predicate Restores(t: Table, stack: seq<Frame>, ops: seq<Op>)
    decreases |ops|
  {
    ops == [] ||
    (&& (ops[0].CloseOp? && stack != [] ==>
           Layout(Apply(t, ops[0]).0) == stack[|stack| - 1].before)
     && Restores(Apply(t, ops[0]).0, Push(t, stack, ops[0]), ops[1..]))
  }

  /** Each layout of the stack is the one below it plus the granule of its frame. */
  ghost predicate Stacked(l: Table, stack: seq<Frame>)
    decreases |stack|
  {
    && Inv(l)
    && (stack == [] ||
        var top := stack[|stack| - 1];
        && |top.before| == |l|
        && Find(l, top.id).Some?
        && var i := Find(l, top.id).value;
        && !top.before[i].occupied
        && l == top.before[i := Slot(true, top.id, 0)]
        && Clear(l, i) == top.before
        && Stacked(top.before, stack[..|stack| - 1]))
  }

  lemma {:induction false} LayoutOfStop(t: Table, id: GranuleId, p: nat)
    requires p <= |t|
    ensures Stop(Layout(t), id, p) == Stop(t, id, p)
    decreases |t| - p
  {
    if p < |t| {
      LayoutOfStop(t, id, p + 1);
    }
  }

  lemma LayoutIdempotent(t: Table)
    ensures Layout(Layout(t)) == Layout(t)
  {}

  lemma LayoutInv(t: Table)
    ensures Inv(Layout(t)) <==> Inv(t)
  {
    LayoutIdempotent(t);
    LayoutDecides(t, Layout(t));
    LayoutDecides(Layout(t), t);
  }

  /** The layout below the whole stack. */
  function Base(l: Table, stack: seq<Frame>): Table {
    if stack == [] then l else stack[0].before
  }

  /** One of the first `n` frames is for the granule in slot `s`. */
  ghost predicate HeldByFrame(l: Table, stack: seq<Frame>, s: nat, n: nat) {
    exists g: nat :: g < n <= |stack| && Holds(l, s, stack[g].id)
  }

  /** Slot `s` was held below the stack, or is held for one of the first `n` frames. */
  ghost predicate HeldBefore(l: Table, stack: seq<Frame>, s: nat, n: nat) {
    (s < |Base(l, stack)| && Base(l, stack)[s].occupied) || HeldByFrame(l, stack, s, n)
  }

  /** What the top frame adds: its slot, for a granule that was nowhere before. */
  lemma TopFrame(l: Table, stack: seq<Frame>) returns (i: nat)
    requires Stacked(l, stack) && stack != []
    ensures var top, below := stack[|stack| - 1], stack[..|stack| - 1];
      && |top.before| == |l| && i < |l| && Holds(l, i, top.id)
      && l == top.before[i := Slot(true, top.id, 0)] && !top.before[i].occupied
      && Stacked(top.before, below) && Inv(l)
      && (forall k: nat :: !Holds(top.before, k, top.id))
      && Base(top.before, below) == Base(l, stack)
  {
    var top := stack[|stack| - 1];
    i := Find(l, top.id).value;
    forall k: nat
      ensures !Holds(top.before, k, top.id)
    {
      assert Holds(top.before, k, top.id) ==> k != i && Holds(l, k, top.id);
    }
  }

  lemma HeldAbove(l: Table, stack: seq<Frame>, i: nat, s: nat, n: nat)
    requires stack != [] && n < |stack|
    requires var before := stack[|stack| - 1].before;
      && |before| == |l| && i < |l| && !before[i].occupied
      && l == before[i := Slot(true, stack[|stack| - 1].id, 0)]
      && HeldBefore(before, stack[..|stack| - 1], s, n)
      && Base(before, stack[..|stack| - 1]) == Base(l, stack)
    ensures HeldBefore(l, stack, s, n)
  {
    var before, below := stack[|stack| - 1].before, stack[..|stack| - 1];
    if HeldByFrame(before, below, s, n) {
      var g: nat :| g < n <= |below| && Holds(before, s, below[g].id);
      assert Holds(l, s, stack[g].id);
    }
  }

  /** Every slot in use was held below the stack or is held for one of its frames. */
  lemma {:induction false} HeldByStack(l: Table, stack: seq<Frame>, s: nat)
    requires Stacked(l, stack) && s < |l| && l[s].occupied
    ensures HeldBefore(l, stack, s, |stack|)
    decreases |stack|
  {
    if stack != [] {
      var n := |stack| - 1;
      var i := TopFrame(l, stack);
      if s == i {
        assert Holds(l, s, stack[n].id);
      } else {
        HeldByStack(stack[n].before, stack[..n], s);
        HeldAbove(l, stack, i, s, n);
        if HeldByFrame(l, stack, s, n) {
          var g: nat :| g < n && Holds(l, s, stack[g].id);
          assert g < |stack|;
        }
      }
    }
  }

  /** The granule of every frame is in the table. */
  lemma {:induction false} FrameStored(l: Table, stack: seq<Frame>, f: nat) returns (i: nat)
    requires Stacked(l, stack) && f < |stack|
    ensures Holds(l, i, stack[f].id)
    decreases |stack|
  {
    var n := |stack| - 1;
    var before := stack[n].before;
    var k := TopFrame(l, stack);
    if f == n {
      return k;
    }
    i := FrameStored(before, stack[..n], f);
    assert i != k && l[i] == before[i];
  }

  /** Every slot on the probe path of a granule of the stack, before its own slot, was held
      below the stack or is held for a granule opened before it. */
  lemma {:induction false} PathHeldByElders(l: Table, stack: seq<Frame>, f: nat, i: nat, s: nat)
    requires Stacked(l, stack) && f < |stack| && Holds(l, i, stack[f].id)
    requires s < |l| && Before(l, s, i)
    ensures HeldBefore(l, stack, s, f)
    decreases |stack|
  {
    var n := |stack| - 1;
    var before := stack[n].before;
    var k := TopFrame(l, stack);
    if f == n {
      assert i == k && Reachable(l, i);
      HeldByStack(before, stack[..n], s);
    } else {
      var j := FrameStored(before, stack[..n], f);
      assert i == j;
      PathHeldByElders(before, stack[..n], f, i, s);
    }
    HeldAbove(l, stack, k, s, f);
  }

  lemma LifoPush(l: Table, stack: seq<Frame>, id: GranuleId, k: nat)
    requires Stacked(l, stack) && Layout(l) == l
    requires Stop(l, id, 0) == Some(k) && !l[k].occupied
    ensures Stacked(l[k := Slot(true, id, 0)], stack + [Frame(id, l)])
  {
    var u := l[k := Slot(true, id, 0)];
    var stack' := stack + [Frame(id, l)];
    assert stack'[..|stack'| - 1] == stack;
    OpenKeeps(l, id);
    assert Layout(l)[k] == EMPTY;
    assert Clear(u, k) == l;
  }

  lemma LayoutOfClaim(t: Table, k: nat, id: GranuleId)
    requires k < |t|
    ensures Layout(t[k := Slot(true, id, 0)]) == Layout(t)[k := Slot(true, id, 0)]
  {}

  lemma LifoOpen(t: Table, stack: seq<Frame>, id: GranuleId)
    requires Stacked(Layout(t), stack) && LifoOp(t, stack, OpenOp(id))
    ensures Stacked(Layout(AfterOpen(t, id).0), Push(t, stack, OpenOp(id)))
  {
    LayoutIdempotent(t);
    LayoutOfStop(t, id, 0);
    match Stop(t, id, 0)
    case None =>
    case Some(k) =>
      assert !Holds(t, k, id);
      assert !t[k].occupied;
      LifoPush(Layout(t), stack, id, k);
      LayoutOfClaim(t, k, id);
  }

  lemma LifoClose(t: Table, stack: seq<Frame>)
    requires Stacked(Layout(t), stack) && stack != []
    ensures StepSafe(t, CloseOp(stack[|stack| - 1].id))
    ensures Layout(AfterClose(t, stack[|stack| - 1].id).0) == stack[|stack| - 1].before
  {
    var top := stack[|stack| - 1];
    LayoutInv(t);
    LayoutOfStop(t, top.id, 0);
    var i := Find(t, top.id).value;
    var u := Clear(t, i);
    assert Layout(u) == Clear(Layout(t), i);
    LayoutInv(u);
    CloseKeepsIff(t, i);
  }

  /** Every history that closes in reverse order of opening is chain-safe, and each close
      restores the layout that preceded its matching open. */
  lemma {:induction false} LifoSafe(t: Table, stack: seq<Frame>, ops: seq<Op>)
    requires Stacked(Layout(t), stack) && LifoRun(t, stack, ops)
    ensures SafeRun(t, ops) && Restores(t, stack, ops)
    decreases |ops|
  {
    if ops != [] {
      var op := ops[0];
      match op {
        case OpenOp(id) => LifoOpen(t, stack, id);
        case AllocOp(id) => BumpKeepsLayout(t, id, 1);
        case DeallocOp(id) => BumpKeepsLayout(t, id, -1);
        case CloseOp(id) => LifoClose(t, stack);
      }
      LifoSafe(Apply(t, op).0, Push(t, stack, op), ops[1..]);
    }
  }

  /** From any table that satisfies the invariant, such as a fresh one. */
  lemma LifoHistory(t: Table, ops: seq<Op>)
    requires Inv(t) && LifoRun(t, [], ops)
    ensures SafeRun(t, ops) && Restores(t, [], ops)
  {
    LayoutInv(t);
    LifoSafe(t, [], ops);
  }
}
