/** Every interleaving refines the map from open granule to live count: each step is one
    operation of the map, or none. */
module StepsRefinement {
  import opened Hash
  import opened Probe
  import opened SlotTable
  import opened TableHistory
  import opened Steps
  import opened StepsInvariant
  import opened StepsResults
  import TableInvariant

  // The map of a state.

  /** Registrations less deregistrations of every granule that holds a slot. */
  ghost function HeldMap(owner: seq<Owner>): LiveMap
    requires Unique(owner)
  {
    map i | 0 <= i < |owner| && owner[i].Held? :: owner[i].id := owner[i].regs - owner[i].deregs
  }

  lemma HeldEntry(owner: seq<Owner>, i: nat)
    requires Unique(owner) && i < |owner| && owner[i].Held?
    ensures owner[i].id in HeldMap(owner)
    ensures HeldMap(owner)[owner[i].id] == owner[i].regs - owner[i].deregs
  {}

  lemma HeldKey(owner: seq<Owner>, id: GranuleId)
    requires Unique(owner)
    ensures id in HeldMap(owner) <==> !NotHeld(owner, id)
  {
    if i :| 0 <= i < |owner| && HoldsId(owner[i], id) {
      HeldEntry(owner, i);
    }
  }

  /** The table that the owners stand for. */
  function TableOf(owner: seq<Owner>): (t: seq<Slot>)
    ensures |t| == |owner|
  {
    seq(|owner|, i requires 0 <= i < |owner| =>
      if owner[i].Held? then Slot(true, owner[i].id, Low32(owner[i].regs - owner[i].deregs)) else EMPTY)
  }

  lemma TableInv(owner: seq<Owner>)
    requires 0 < |owner| <= MAX_CAPACITY && Unique(owner) && NoGaps(owner)
    ensures TableInvariant.Inv(TableOf(owner))
  {}

  lemma TableRefines(owner: seq<Owner>)
    requires 0 < |owner| <= MAX_CAPACITY && Unique(owner) && NoGaps(owner)
    ensures Refines(TableOf(owner), HeldMap(owner))
  {
    var t: Table := TableOf(owner);
    TableInv(owner);
    forall i: nat | i < |t| && t[i].occupied
      ensures t[i].id in HeldMap(owner) && t[i].liveCount == Low32(HeldMap(owner)[t[i].id])
    {
      HeldEntry(owner, i);
    }
    forall id | id in HeldMap(owner)
      ensures TableHistory.Stored(t, id)
    {
      HeldKey(owner, id);
      var i: nat :| i < |owner| && HoldsId(owner[i], id);
      assert Holds(t, i, id);
    }
  }

  lemma TableHeld(owner: seq<Owner>)
    ensures (forall i: nat :: i < |owner| ==> TableOf(owner)[i].occupied)
       <==> forall i: nat :: i < |owner| ==> owner[i].Held?
  {
    forall i: nat | i < |owner|
      ensures TableOf(owner)[i].occupied == owner[i].Held?
    {}
  }

  lemma FullTable(t: Table, m: LiveMap)
    requires Refines(t, m)
    ensures |m| == |t| <==> forall i: nat :: i < |t| ==> t[i].occupied
  {
    MapCountsSlots(t, m);
  }

  /** The map is full exactly when every slot is held. */
  lemma FullWhenHeld(owner: seq<Owner>)
    requires 0 < |owner| <= MAX_CAPACITY && Unique(owner) && NoGaps(owner)
    ensures |HeldMap(owner)| == |owner| <==> forall i: nat :: i < |owner| ==> owner[i].Held?
  {
    var m := HeldMap(owner);
    assert Refines(TableOf(owner), m) by {
      TableRefines(owner);
    }
    FullTable(TableOf(owner), m);
    TableHeld(owner);
  }

  // How one step changes the owners.

  /** The slot stays free or held for the same granule, with the same net count. */
  predicate SameAt(o: Owner, o': Owner) {
    && o'.Held? == o.Held?
    && (o.Held? ==> o'.id == o.id && o'.regs - o'.deregs == o.regs - o.deregs)
  }

  ghost predicate SameNet(owner: seq<Owner>, owner': seq<Owner>) {
    |owner'| == |owner| && forall i :: 0 <= i < |owner| ==> SameAt(owner[i], owner'[i])
  }

  lemma MapSame(owner: seq<Owner>, owner': seq<Owner>)
    requires Unique(owner) && SameNet(owner, owner')
    ensures Unique(owner') && HeldMap(owner') == HeldMap(owner)
  {
    forall i: nat | i < |owner| && owner[i].Held?
      ensures owner[i].id in HeldMap(owner) && owner'[i].id in HeldMap(owner')
      ensures HeldMap(owner)[owner[i].id] == HeldMap(owner')[owner'[i].id]
    {
      HeldEntry(owner, i);
      HeldEntry(owner', i);
    }
  }

  /** The map has exactly the net counts of the held slots. */
  ghost predicate Tells(owner: seq<Owner>, m: LiveMap) {
    && (forall i: nat :: i < |owner| && owner[i].Held? ==>
          owner[i].id in m && m[owner[i].id] == owner[i].regs - owner[i].deregs)
    && forall id :: id in m ==> !NotHeld(owner, id)
  }

  lemma HeldTells(owner: seq<Owner>)
    requires Unique(owner)
    ensures Tells(owner, HeldMap(owner))
  {
    forall i: nat | i < |owner| && owner[i].Held?
      ensures owner[i].id in HeldMap(owner)
      ensures HeldMap(owner)[owner[i].id] == owner[i].regs - owner[i].deregs
    {
      HeldEntry(owner, i);
    }
  }

  lemma TellsOnce(owner: seq<Owner>, m: LiveMap, m': LiveMap)
    requires Tells(owner, m) && Tells(owner, m')
    ensures m == m'
  {
    forall id | id in m || id in m'
      ensures id in m && id in m' && m[id] == m'[id]
    {
      var i: nat :| i < |owner| && HoldsId(owner[i], id);
    }
  }

  lemma TellsClaim(owner: seq<Owner>, i: nat, id: GranuleId, m: LiveMap)
    requires Unique(owner) && i < |owner| && owner[i].Free? && NotHeld(owner, id) && Tells(owner, m)
    ensures var owner' := owner[i := Held(id, Claimed, 0, 0)];
      Unique(owner') && Tells(owner', m[id := 0])
  {
    var owner' := owner[i := Held(id, Claimed, 0, 0)];
    assert HoldsId(owner'[i], id);
    forall j: nat | j < |owner|
      ensures !HoldsId(owner[j], id)
    {}
    forall g | g in m
      ensures !NotHeld(owner', g)
    {
      var k: nat :| k < |owner| && HoldsId(owner[k], g);
      assert HoldsId(owner'[k], g);
    }
  }

  lemma MapClaim(owner: seq<Owner>, i: nat, id: GranuleId)
    requires Unique(owner) && i < |owner| && owner[i].Free? && NotHeld(owner, id)
    ensures var owner' := owner[i := Held(id, Claimed, 0, 0)];
      Unique(owner') && HeldMap(owner') == HeldMap(owner)[id := 0]
  {
    var owner' := owner[i := Held(id, Claimed, 0, 0)];
    HeldTells(owner);
    TellsClaim(owner, i, id, HeldMap(owner));
    HeldTells(owner');
    TellsOnce(owner', HeldMap(owner'), HeldMap(owner)[id := 0]);
  }

  lemma TellsCount(owner: seq<Owner>, i: nat, o: Owner, m: LiveMap)
    requires Unique(owner) && i < |owner| && owner[i].Held? && o.Held? && o.id == owner[i].id
    requires Tells(owner, m)
    ensures Unique(owner[i := o]) && Tells(owner[i := o], m[o.id := o.regs - o.deregs])
  {
    var owner' := owner[i := o];
    forall g | g in m
      ensures !NotHeld(owner', g)
    {
      var k: nat :| k < |owner| && HoldsId(owner[k], g);
      assert HoldsId(owner'[k], g);
    }
  }

  lemma MapCount(owner: seq<Owner>, i: nat, o: Owner)
    requires Unique(owner) && i < |owner| && owner[i].Held? && o.Held? && o.id == owner[i].id
    ensures var owner' := owner[i := o];
      Unique(owner') && HeldMap(owner') == HeldMap(owner)[o.id := o.regs - o.deregs]
  {
    HeldTells(owner);
    TellsCount(owner, i, o, HeldMap(owner));
    HeldTells(owner[i := o]);
    TellsOnce(owner[i := o], HeldMap(owner[i := o]), HeldMap(owner)[o.id := o.regs - o.deregs]);
  }

  lemma TellsRelease(owner: seq<Owner>, i: nat, m: LiveMap)
    requires Unique(owner) && i < |owner| && owner[i].Held? && Tells(owner, m)
    ensures Unique(owner[i := Free]) && Tells(owner[i := Free], m - {owner[i].id})
  {
    var owner' := owner[i := Free];
    forall id | id in m - {owner[i].id}
      ensures !NotHeld(owner', id)
    {
      var k: nat :| k < |owner| && HoldsId(owner[k], id);
      assert HoldsId(owner'[k], id);
    }
  }

  lemma MapRelease(owner: seq<Owner>, i: nat)
    requires Unique(owner) && i < |owner| && owner[i].Held?
    ensures var owner' := owner[i := Free];
      Unique(owner') && HeldMap(owner') == HeldMap(owner) - {owner[i].id}
  {
    HeldTells(owner);
    TellsRelease(owner, i, HeldMap(owner));
    HeldTells(owner[i := Free]);
    TellsOnce(owner[i := Free], HeldMap(owner[i := Free]), HeldMap(owner) - {owner[i].id});
  }

  /** A counted use of a held slot is an addition to the map. */
  lemma CountApplies(owner: seq<Owner>, i: nat, d: int, n: nat)
    requires Unique(owner) && i < |owner| && owner[i].Held? && (d == 1 || d == -1)
    ensures Unique(owner[i := CountUse(owner[i], d)])
    ensures (HeldMap(owner[i := CountUse(owner[i], d)]), 0)
         == ApplyMap(HeldMap(owner), n, if d == 1 then AllocOp(owner[i].id) else DeallocOp(owner[i].id))
  {
    HeldEntry(owner, i);
    MapCount(owner, i, CountUse(owner[i], d));
  }

  /** A release is a close of the map, which answers the net count in 32 bits. */
  lemma ReleaseApplies(owner: seq<Owner>, i: nat, n: nat)
    requires Unique(owner) && i < |owner| && owner[i].Held?
    ensures Unique(owner[i := Free])
    ensures (HeldMap(owner[i := Free]), Low32(owner[i].regs - owner[i].deregs) as int)
         == ApplyMap(HeldMap(owner), n, CloseOp(owner[i].id))
  {
    HeldEntry(owner, i);
    MapRelease(owner, i);
  }

  // The operation of a step.

  /** The operation that the next step of thread `t` performs on the map: an open takes
      effect at its claim, a register or deregister at its fetch-add or fetch-sub, and a
      close at its release. */
  function OpAt(s: State, t: nat): Option<Op>
    requires Shape(s) && t < |s.pcs|
  {
    match s.pcs[t]
    case OpenCas(id, p) => if s.slots[SlotAt(id, p, |s.slots|)].occupied then None else Some(OpenOp(id))
    case FetchAdd(id, _) => Some(AllocOp(id))
    case FetchSub(id, _) => Some(DeallocOp(id))
    case CloseRelease(id, _, _) => Some(CloseOp(id))
    case _ => None
  }

  function CodeAt(pc: Pc): int {
    if pc.CloseRelease? then pc.live else 0
  }

  /** The steps that write no slot. */
  predicate Reads(pc: Pc) {
    pc.OpenLoad? || pc.OpenLoadId? || pc.OpenCas? || pc.FindLoad? || pc.FindLoadId? || pc.CloseLoad?
  }

  lemma OpenReads(s: State, t: nat, spurious: bool)
    requires Shape(s) && t < |s.pcs| && OpAt(s, t).None?
    requires s.pcs[t].OpenLoad? || s.pcs[t].OpenLoadId? || s.pcs[t].OpenCas?
    ensures Step(s, t, spurious).0.owner == s.owner
  {}

  lemma UseReads(s: State, t: nat, spurious: bool)
    requires Shape(s) && t < |s.pcs|
    requires s.pcs[t].FindLoad? || s.pcs[t].FindLoadId? || s.pcs[t].CloseLoad?
    ensures Step(s, t, spurious).0.owner == s.owner
  {}

  lemma OpenWrites(s: State, t: nat, spurious: bool, k: nat)
    requires Shape(s) && t < |s.pcs| && k < |s.owner|
    requires Opening(s.pcs[t]).Some? && !Reads(s.pcs[t])
    ensures SameAt(s.owner[k], Step(s, t, spurious).0.owner[k])
  {}

  lemma CloseWrites(s: State, t: nat, spurious: bool, k: nat)
    requires Shape(s) && t < |s.pcs| && k < |s.owner|
    requires s.pcs[t].CloseCount? || s.pcs[t].CloseId?
    ensures SameAt(s.owner[k], Step(s, t, spurious).0.owner[k])
  {}

  lemma SilentStep(s: State, t: nat, spurious: bool)
    requires Shape(s) && t < |s.pcs| && OpAt(s, t).None?
    ensures SameNet(s.owner, Step(s, t, spurious).0.owner)
  {
    if s.pcs[t].OpenLoad? || s.pcs[t].OpenLoadId? || s.pcs[t].OpenCas? {
      OpenReads(s, t, spurious);
    } else if Reads(s.pcs[t]) {
      UseReads(s, t, spurious);
    } else {
      forall k: nat | k < |s.owner|
        ensures SameAt(s.owner[k], Step(s, t, spurious).0.owner[k])
      {
        if Opening(s.pcs[t]).Some? {
          OpenWrites(s, t, spurious, k);
        } else if s.pcs[t].CloseCount? || s.pcs[t].CloseId? {
          CloseWrites(s, t, spurious, k);
        }
      }
    }
  }

  /** State `s'` follows `s` by one operation of the map, which answers `code`, or by none. */
  ghost predicate Refined(s: State, s': State, op: Option<Op>, code: int) {
    && Unique(s.owner) && Unique(s'.owner)
    && match op
       case None => HeldMap(s'.owner) == HeldMap(s.owner)
       case Some(o) => (HeldMap(s'.owner), code) == ApplyMap(HeldMap(s.owner), |s.slots|, o)
  }

  lemma ClaimRefines(s: State, t: nat, id: GranuleId, p: nat)
    requires p < |s.slots| && Ready(s, t, OpenCas(id, p), SlotAt(id, p, |s.slots|))
    requires !s.slots[SlotAt(id, p, |s.slots|)].occupied
    ensures Refined(s, CasOccupied(s, t, id, p, SlotAt(id, p, |s.slots|)).0, Some(OpenOp(id)), 0)
  {
    var i := SlotAt(id, p, |s.slots|);
    assert PcInv(s.owner, s.pcs[t]) && SlotAgrees(s.slots[i], s.owner[i]);
    HeldKey(s.owner, id);
    FullWhenHeld(s.owner);
    MapClaim(s.owner, i, id);
  }

  lemma FetchRefines(s: State, t: nat, id: GranuleId, i: nat, d: int)
    requires Fits(s, t, i) && Unique(s.owner) && HoldsId(s.owner[i], id) && (d == 1 || d == -1)
    ensures Refined(s, FetchCount(s, t, i, d), Some(if d == 1 then AllocOp(id) else DeallocOp(id)), 0)
  {
    CountApplies(s.owner, i, d, |s.slots|);
  }

  lemma ReleaseRefines(s: State, t: nat, id: GranuleId, i: nat, live: nat)
    requires Fits(s, t, i) && Unique(s.owner) && HoldsId(s.owner[i], id) && Reports(s.owner, i, live)
    ensures Refined(s, Release(s, t, i, live), Some(CloseOp(id)), live)
  {
    ReleaseApplies(s.owner, i, |s.slots|);
  }

  /** Every step from a state of the invariant is one operation of the map, or none, and the
      value a close reports is the answer of the map. */
  lemma StepRefines(s: State, t: nat, spurious: bool)
    requires Inv(s) && Shape(s) && t < |s.pcs|
    ensures Refined(s, Step(s, t, spurious).0, OpAt(s, t), CodeAt(s.pcs[t]))
  {
    assert PcInv(s.owner, s.pcs[t]);
    match s.pcs[t]
    case OpenCas(id, p) =>
      if s.slots[SlotAt(id, p, |s.slots|)].occupied {
        SilentStep(s, t, spurious);
        MapSame(s.owner, Step(s, t, spurious).0.owner);
      } else {
        ClaimRefines(s, t, id, p);
      }
    case FetchAdd(id, i) => FetchRefines(s, t, id, i, 1);
    case FetchSub(id, i) => FetchRefines(s, t, id, i, -1);
    case CloseRelease(id, i, live) => ReleaseRefines(s, t, id, i, live);
    case _ =>
      SilentStep(s, t, spurious);
      MapSame(s.owner, Step(s, t, spurious).0.owner);
  }

  /** An open gives up exactly when the map is full at that moment. */
  lemma FullEvent(s: State, t: nat, spurious: bool)
    requires Inv(s) && Shape(s) && t < |s.pcs| && ReadSafe(s, t)
    requires Step(s, t, spurious).1.OpenFull?
    ensures |HeldMap(s.owner)| == |s.slots|
  {
    StepEvents(s, t, spurious);
    forall i: nat | i < |s.owner|
      ensures s.owner[i].Held?
    {
      assert SlotAgrees(s.slots[i], s.owner[i]);
    }
    FullWhenHeld(s.owner);
  }

  // Whole runs.

  /** Step `j` of the run performs `op`, and answers as the map does. */
  ghost predicate Performs(run: seq<State>, j: nat, op: Option<Op>) {
    && j + 1 < |run|
    && exists t: nat ::
         && (Begins(run[j], run[j + 1], t) || Moves(run[j], run[j + 1], t))
         && Shape(run[j]) && t < |run[j].pcs| && op == OpAt(run[j], t)
         && Refined(run[j], run[j + 1], op, CodeAt(run[j].pcs[t]))
  }

  function Performed(ops: seq<Option<Op>>): seq<Op> {
    if ops == [] then []
    else
      var last := ops[|ops| - 1];
      Performed(ops[..|ops| - 1]) + if last.Some? then [last.value] else []
  }

  lemma {:induction false} RunMapNext(m: LiveMap, capacity: nat, ops: seq<Op>, op: Op)
    ensures RunMap(m, capacity, ops + [op]).0 == ApplyMap(RunMap(m, capacity, ops).0, capacity, op).0
    decreases |ops|
  {
    if ops == [] {
      assert [op][1..] == [];
    } else {
      assert (ops + [op])[1..] == ops[1..] + [op];
      RunMapNext(ApplyMap(m, capacity, ops[0]).0, capacity, ops[1..], op);
    }
  }

  lemma BeginRefines(s: State, s': State, t: nat)
    requires Inv(s) && Begins(s, s', t)
    ensures Shape(s) && OpAt(s, t).None? && Refined(s, s', None, CodeAt(s.pcs[t])) && |s'.slots| == |s.slots|
  {
    InvShape(s);
  }

  lemma NextPerforms(run: seq<State>, j: nat) returns (op: Option<Op>)
    requires Execution(run) && j + 1 < |run|
    ensures Performs(run, j, op) && |run[j + 1].slots| == |run[j].slots|
  {
    var s, s' := run[j], run[j + 1];
    ReachableInv(run, j);
    ReachableInv(run, j + 1);
    assert Linked(run, j);
    var t: nat :| Begins(s, s', t) || Moves(s, s', t);
    if Begins(s, s', t) {
      BeginRefines(s, s', t);
    } else {
      var spurious :| s' == Step(s, t, spurious).0;
      StepRefines(s, t, spurious);
    }
    op := OpAt(s, t);
  }

  ghost predicate AllPerform(run: seq<State>, ops: seq<Option<Op>>) {
    forall j: nat :: j < |ops| ==> Performs(run, j, ops[j])
  }

  lemma AllPerformNext(run: seq<State>, ops: seq<Option<Op>>, op: Option<Op>)
    requires AllPerform(run, ops) && Performs(run, |ops|, op)
    ensures AllPerform(run, ops + [op])
  {
    forall j: nat | j < |ops| + 1
      ensures Performs(run, j, (ops + [op])[j])
    {
      assert j < |ops| ==> (ops + [op])[j] == ops[j];
    }
  }

  /** The operations that the first `k` steps perform, and where they lead the empty map. */
  ghost predicate Linear(run: seq<State>, k: nat, ops: seq<Option<Op>>) {
    && k < |run| && |ops| == k && AllPerform(run, ops)
    && |run[k].slots| == |run[0].slots| && Unique(run[k].owner)
    && RunMap(map[], |run[0].slots|, Performed(ops)).0 == HeldMap(run[k].owner)
  }

  lemma PerformsMap(run: seq<State>, j: nat, op: Option<Op>)
    requires Performs(run, j, op)
    ensures Unique(run[j].owner) && Unique(run[j + 1].owner)
    ensures HeldMap(run[j + 1].owner)
         == if op.Some? then ApplyMap(HeldMap(run[j].owner), |run[j].slots|, op.value).0
            else HeldMap(run[j].owner)
  {}

  lemma PerformedNext(m: LiveMap, n: nat, ops: seq<Option<Op>>, op: Option<Op>)
    ensures RunMap(m, n, Performed(ops + [op])).0
         == var m' := RunMap(m, n, Performed(ops)).0;
            if op.Some? then ApplyMap(m', n, op.value).0 else m'
  {
    assert (ops + [op])[..|ops|] == ops;
    if op.Some? {
      RunMapNext(m, n, Performed(ops), op.value);
    } else {
      assert Performed(ops) + [] == Performed(ops);
    }
  }

  lemma LinearNext(run: seq<State>, k: nat, ops: seq<Option<Op>>, op: Option<Op>)
    requires Linear(run, k, ops) && Performs(run, k, op) && |run[k + 1].slots| == |run[k].slots|
    ensures Linear(run, k + 1, ops + [op])
  {
    PerformedNext(map[], |run[0].slots|, ops, op);
    PerformsMap(run, k, op);
    AllPerformNext(run, ops, op);
  }

  /** Every execution linearizes: the operations its steps perform, taken in order, lead the
      empty map to the map of its last state. */
  lemma {:induction false} Linearizes(run: seq<State>, k: nat) returns (ops: seq<Option<Op>>)
    requires Execution(run) && k < |run|
    ensures Linear(run, k, ops)
  {
    if k == 0 {
      ReachableInv(run, 0);
      ops := [];
    } else {
      var init := Linearizes(run, k - 1);
      var op := NextPerforms(run, k - 1);
      LinearNext(run, k - 1, init, op);
      ops := init + [op];
    }
  }
}
