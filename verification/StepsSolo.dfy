/** A call that runs without interference does to the shared memory what the sequential
    method does: the step system and the sequential table are models of one program. */
module StepsSolo {
  import opened Hash
  import opened Probe
  import opened SlotTable
  import opened Steps

  /** Thread `t` takes one step, not spurious. */
  ghost predicate Takes(s: State, s': State, t: nat) {
    Shape(s) && t < |s.pcs| && s' == Step(s, t, false).0
  }

  ghost predicate TakesAt(run: seq<State>, t: nat, k: nat) {
    k + 1 < |run| && Takes(run[k], run[k + 1], t)
  }

  /** A run from one state to the other in which no other thread takes a step. */
  ghost predicate Alone(run: seq<State>, s: State, s': State, t: nat) {
    && run != [] && run[0] == s && run[|run| - 1] == s'
    && forall k: nat :: k + 1 < |run| ==> TakesAt(run, t, k)
  }

  ghost predicate Leads(s: State, s': State, t: nat) {
    exists run :: Alone(run, s, s', t)
  }

  lemma LeadsOn(a: State, b: State, c: State, t: nat)
    requires Leads(a, b, t) && Leads(b, c, t)
    ensures Leads(a, c, t)
  {
    var q :| Alone(q, a, b, t);
    var r :| Alone(r, b, c, t);
    var run := q + r[1..];
    forall k: nat | k + 1 < |run|
      ensures TakesAt(run, t, k)
    {
      if k + 1 < |q| {
        assert TakesAt(q, t, k);
      } else {
        assert run[k] == r[k - (|q| - 1)] && run[k + 1] == r[k + 1 - (|q| - 1)];
        assert TakesAt(r, t, k - (|q| - 1));
      }
    }
    assert Alone(run, a, c, t);
  }

  lemma LeadsStep(s: State, t: nat)
    requires Shape(s) && t < |s.pcs|
    ensures Leads(s, Step(s, t, false).0, t)
  {
    var run := [s, Step(s, t, false).0];
    assert TakesAt(run, t, 0);
    assert Alone(run, s, Step(s, t, false).0, t);
  }

  lemma LeadsTwice(s: State, t: nat)
    requires Shape(s) && t < |s.pcs| && Shape(Step(s, t, false).0)
    ensures Leads(s, Step(Step(s, t, false).0, t, false).0, t)
  {
    LeadsStep(s, t);
    LeadsStep(Step(s, t, false).0, t);
    LeadsOn(s, Step(s, t, false).0, Step(Step(s, t, false).0, t, false).0, t);
  }

  lemma ShapeGoto(s: State, t: nat, pc: Pc)
    requires Shape(s) && t < |s.pcs| && InRange(pc, |s.slots|)
    ensures Shape(Goto(s, t, pc))
  {}

  lemma GotoGoto(s: State, t: nat, pc: Pc, pc': Pc)
    requires t < |s.pcs|
    ensures Goto(Goto(s, t, pc), t, pc') == Goto(s, t, pc')
  {
    assert s.pcs[t := pc][t := pc'] == s.pcs[t := pc'];
  }

  /** The probe of a thread and of the sequential loops. */
  lemma SameProbe(s: State, id: GranuleId, p: nat)
    requires p < |s.slots|
    ensures SlotAt(id, p, |s.slots|) == Index32(Home(id, |s.slots|), p, |s.slots|)
  {
    Index32Walks(Home(id, |s.slots|), p, |s.slots|);
  }

  /** Everything but the history variables: memory, counters and the places of all threads. */
  ghost predicate Is(s: State, slots: Table, c: Counters, pcs: seq<Pc>) {
    s.slots == slots && s.c == c && s.pcs == pcs
  }

  // Opens.

  function Counted(c: Counters): Counters {
    c.(open := c.open + 1, peak := Max(c.peak, c.open + 1))
  }

  lemma PeakAlone(s: State, t: nat, id: GranuleId, i: nat) returns (s': State)
    requires Shape(s) && t < |s.pcs| && s.pcs[t] == PeakLoad(id, i, s.c.open)
    ensures Leads(s, s', t)
    ensures Is(s', s.slots, s.c.(peak := Max(s.c.peak, s.c.open)), s.pcs[t := Idle])
  {
    var s1 := Step(s, t, false).0;
    LeadsStep(s, t);
    if s.c.open > s.c.peak {
      s' := Step(s1, t, false).0;
      LeadsStep(s1, t);
      LeadsOn(s, s1, s', t);
    } else {
      s' := s1;
    }
  }

  lemma CountAlone(s: State, t: nat, id: GranuleId, i: nat) returns (s': State)
    requires Shape(s) && t < |s.pcs| && s.pcs[t] == CountOpen(id, i)
    ensures Leads(s, s', t) && Is(s', s.slots, Counted(s.c), s.pcs[t := Idle])
  {
    var s1 := Step(s, t, false).0;
    LeadsStep(s, t);
    s' := PeakAlone(s1, t, id, i);
    LeadsOn(s, s1, s', t);
  }

  /** The two stores after a claim. */
  lemma StoresAlone(s: State, t: nat, id: GranuleId, i: nat) returns (s': State)
    requires Shape(s) && t < |s.pcs| && s.pcs[t] == OpenStoreId(id, i) && s.slots[i].occupied
    ensures Leads(s, s', t) && Shape(s')
    ensures Is(s', s.slots[i := Slot(true, id, 0)], s.c, s.pcs[t := CountOpen(id, i)])
  {
    LeadsTwice(s, t);
    s' := Step(Step(s, t, false).0, t, false).0;
  }

  lemma CasAlone(s: State, t: nat, id: GranuleId, p: nat) returns (s': State)
    requires Shape(s) && t < |s.pcs| && s.pcs[t] == OpenCas(id, p)
    requires !s.slots[SlotAt(id, p, |s.slots|)].occupied
    ensures Leads(s, s', t) && Shape(s')
    ensures var i := SlotAt(id, p, |s.slots|);
      Is(s', s.slots[i := s.slots[i].(occupied := true)], s.c, s.pcs[t := OpenStoreId(id, i)])
  {
    s' := Step(s, t, false).0;
    LeadsStep(s, t);
  }

  lemma ClaimAlone(s: State, t: nat, id: GranuleId, p: nat) returns (s': State)
    requires Shape(s) && t < |s.pcs| && s.pcs[t] == OpenCas(id, p)
    requires !s.slots[SlotAt(id, p, |s.slots|)].occupied
    ensures Leads(s, s', t)
    ensures Is(s', s.slots[SlotAt(id, p, |s.slots|) := Slot(true, id, 0)], Counted(s.c), s.pcs[t := Idle])
  {
    var i := SlotAt(id, p, |s.slots|);
    var s1 := CasAlone(s, t, id, p);
    var s2 := StoresAlone(s1, t, id, i);
    s' := CountAlone(s2, t, id, i);
    LeadsOn(s, s1, s2, t);
    LeadsOn(s, s2, s', t);
    assert s1.slots[i := Slot(true, id, 0)] == s.slots[i := Slot(true, id, 0)];
    assert s.pcs[t := OpenStoreId(id, i)][t := CountOpen(id, i)][t := Idle] == s.pcs[t := Idle];
  }

  /** The table and the counters after an open that starts at probe `p`. */
  function Claimed(slots: Table, id: GranuleId, p: nat): Table
    requires p <= |slots|
  {
    match Stop(slots, id, p)
    case None => slots
    case Some(i) => if slots[i].occupied then slots else slots[i := Slot(true, id, 0)]
  }

  /** An open passes one occupied slot, or ends there. */
  lemma PassAlone(s: State, t: nat, id: GranuleId, p: nat) returns (s': State)
    requires Shape(s) && t < |s.pcs| && s.pcs[t] == OpenLoad(id, p)
    requires s.slots[SlotAt(id, p, |s.slots|)].occupied
    ensures var i := SlotAt(id, p, |s.slots|);
      s' == Goto(s, t, if s.slots[i].id == id then CountOpen(id, i)
                       else if p + 1 < |s.slots| then OpenLoad(id, p + 1) else Idle)
    ensures Leads(s, s', t) && Shape(s')
  {
    var i := SlotAt(id, p, |s.slots|);
    var pc := if s.slots[i].id == id then CountOpen(id, i)
              else if p + 1 < |s.slots| then OpenLoad(id, p + 1) else Idle;
    ShapeGoto(s, t, OpenLoadId(id, p));
    LeadsTwice(s, t);
    s' := Step(Step(s, t, false).0, t, false).0;
    GotoGoto(s, t, OpenLoadId(id, p), pc);
    ShapeGoto(s, t, pc);
  }

  lemma FreeAlone(s: State, t: nat, id: GranuleId, p: nat) returns (s': State)
    requires Shape(s) && t < |s.pcs| && s.pcs[t] == OpenLoad(id, p)
    requires !s.slots[SlotAt(id, p, |s.slots|)].occupied
    ensures Leads(s, s', t)
    ensures Is(s', s.slots[SlotAt(id, p, |s.slots|) := Slot(true, id, 0)], Counted(s.c), s.pcs[t := Idle])
  {
    var s1 := Step(s, t, false).0;
    LeadsStep(s, t);
    ShapeGoto(s, t, OpenCas(id, p));
    s' := ClaimAlone(s1, t, id, p);
    LeadsOn(s, s1, s', t);
    assert s.pcs[t := OpenCas(id, p)][t := Idle] == s.pcs[t := Idle];
  }

  lemma ClaimedNext(slots: SmallTable, id: GranuleId, p: nat)
    requires p < |slots|
    ensures var i := SlotAt(id, p, |slots|);
      (Claimed(slots, id, p), Stop(slots, id, p).Some?)
      == if !slots[i].occupied then (slots[i := Slot(true, id, 0)], true)
         else if slots[i].id == id then (slots, true)
         else if p + 1 < |slots| then (Claimed(slots, id, p + 1), Stop(slots, id, p + 1).Some?)
         else (slots, false)
  {
    Index32Walks(Home(id, |slots|), p, |slots|);
  }

  /** The open finds its granule in the slot. */
  lemma RepeatAlone(s: State, t: nat, id: GranuleId, p: nat) returns (s': State)
    requires Shape(s) && t < |s.pcs| && s.pcs[t] == OpenLoad(id, p)
    requires var slot := s.slots[SlotAt(id, p, |s.slots|)]; slot.occupied && slot.id == id
    ensures Leads(s, s', t) && Is(s', s.slots, Counted(s.c), s.pcs[t := Idle])
  {
    var i := SlotAt(id, p, |s.slots|);
    var s1 := PassAlone(s, t, id, p);
    s' := CountAlone(s1, t, id, i);
    LeadsOn(s, s1, s', t);
    assert s.pcs[t := CountOpen(id, i)][t := Idle] == s.pcs[t := Idle];
  }

  /** What an open from probe `p` leaves. */
  ghost predicate Opens(s: State, s': State, t: nat, id: GranuleId, p: nat)
    requires p <= |s.slots| && t < |s.pcs|
  {
    Is(s', Claimed(s.slots, id, p), if Stop(s.slots, id, p).Some? then Counted(s.c) else s.c,
       s.pcs[t := Idle])
  }

  lemma OpensOn(s: State, s': State, t: nat, id: GranuleId, p: nat)
    requires t < |s.pcs| && p + 1 < |s.slots|
    requires var slot := s.slots[SlotAt(id, p, |s.slots|)]; slot.occupied && slot.id != id
    requires Opens(Goto(s, t, OpenLoad(id, p + 1)), s', t, id, p + 1)
    ensures Opens(s, s', t, id, p)
  {
    ClaimedNext(s.slots, id, p);
    assert s.pcs[t := OpenLoad(id, p + 1)][t := Idle] == s.pcs[t := Idle];
  }

  lemma {:induction false} ProbeAlone(s: State, t: nat, id: GranuleId, p: nat) returns (s': State)
    requires Shape(s) && t < |s.pcs| && s.pcs[t] == OpenLoad(id, p)
    ensures Leads(s, s', t) && Opens(s, s', t, id, p)
    decreases |s.slots| - p
  {
    var slot := s.slots[SlotAt(id, p, |s.slots|)];
    if slot.occupied && slot.id != id && p + 1 < |s.slots| {
      var s1 := PassAlone(s, t, id, p);
      s' := ProbeAlone(s1, t, id, p + 1);
      LeadsOn(s, s1, s', t);
      OpensOn(s, s', t, id, p);
    } else {
      ClaimedNext(s.slots, id, p);
      if !slot.occupied {
        s' := FreeAlone(s, t, id, p);
      } else if slot.id == id {
        s' := RepeatAlone(s, t, id, p);
      } else {
        s' := PassAlone(s, t, id, p);
      }
    }
  }

  /** An open that runs alone, from any state, leaves the table that the sequential open
      leaves, and counts itself exactly when that returns 0. */
  lemma OpenAlone(s: State, t: nat, id: GranuleId) returns (s': State)
    requires Shape(s) && t < |s.pcs| && s.pcs[t] == OpenLoad(id, 0)
    ensures Leads(s, s', t)
    ensures var (slots, code) := AfterOpen(s.slots, id);
      Is(s', slots, if code == 0 then Counted(s.c) else s.c, s.pcs[t := Idle])
  {
    s' := ProbeAlone(s, t, id, 0);
  }

  // Registers, deregisters and closes.

  /** Where a search that starts at probe `p` ends. */
  function Found(slots: Table, id: GranuleId, p: nat): Option<nat>
    requires p <= |slots|
  {
    match Stop(slots, id, p)
    case None => None
    case Some(i) => if slots[i].occupied then Some(i) else None
  }

  /** The thread gets to `pc` alone, and everything else is as before. */
  ghost predicate Arrives(s: State, t: nat, pc: Pc)
    requires t < |s.pcs|
  {
    Leads(s, Goto(s, t, pc), t) && Shape(Goto(s, t, pc))
  }

  lemma ArrivesOn(s: State, t: nat, pc: Pc, pc': Pc)
    requires t < |s.pcs| && Arrives(s, t, pc) && Arrives(Goto(s, t, pc), t, pc')
    ensures Arrives(s, t, pc')
  {
    GotoGoto(s, t, pc, pc');
    LeadsOn(s, Goto(s, t, pc), Goto(s, t, pc'), t);
  }

  /** A search passes one occupied slot, or ends there. */
  lemma SlotAlone(s: State, t: nat, use: Use, id: GranuleId, p: nat)
    requires Shape(s) && t < |s.pcs| && s.pcs[t] == FindLoad(use, id, p)
    requires s.slots[SlotAt(id, p, |s.slots|)].occupied
    ensures var i := SlotAt(id, p, |s.slots|);
      Arrives(s, t, if s.slots[i].id == id then UseSlot(use, id, i)
                    else if p + 1 < |s.slots| then FindLoad(use, id, p + 1) else Idle)
  {
    var i := SlotAt(id, p, |s.slots|);
    var pc := if s.slots[i].id == id then UseSlot(use, id, i)
              else if p + 1 < |s.slots| then FindLoad(use, id, p + 1) else Idle;
    ShapeGoto(s, t, FindLoadId(use, id, p));
    LeadsTwice(s, t);
    GotoGoto(s, t, FindLoadId(use, id, p), pc);
    ShapeGoto(s, t, pc);
  }

  /** A search ends at an empty slot. */
  lemma MissAlone(s: State, t: nat, use: Use, id: GranuleId, p: nat)
    requires Shape(s) && t < |s.pcs| && s.pcs[t] == FindLoad(use, id, p)
    requires !s.slots[SlotAt(id, p, |s.slots|)].occupied
    ensures Arrives(s, t, Idle)
  {
    LeadsStep(s, t);
    ShapeGoto(s, t, Idle);
  }

  /** Where a search from probe `p` leads the thread. */
  function Destination(slots: Table, use: Use, id: GranuleId, p: nat): Pc
    requires p <= |slots|
  {
    match Found(slots, id, p)
    case None => Idle
    case Some(i) => UseSlot(use, id, i)
  }

  lemma DestinationNext(slots: SmallTable, use: Use, id: GranuleId, p: nat)
    requires p < |slots|
    ensures var i := SlotAt(id, p, |slots|);
      Destination(slots, use, id, p)
      == if !slots[i].occupied then Idle
         else if slots[i].id == id then UseSlot(use, id, i)
         else if p + 1 < |slots| then Destination(slots, use, id, p + 1) else Idle
  {
    Index32Walks(Home(id, |slots|), p, |slots|);
  }

  lemma {:induction false} SearchAlone(s: State, t: nat, use: Use, id: GranuleId, p: nat)
    requires Shape(s) && t < |s.pcs| && s.pcs[t] == FindLoad(use, id, p)
    ensures Arrives(s, t, Destination(s.slots, use, id, p))
    decreases |s.slots| - p
  {
    var slot := s.slots[SlotAt(id, p, |s.slots|)];
    DestinationNext(s.slots, use, id, p);
    if !slot.occupied {
      MissAlone(s, t, use, id, p);
    } else {
      SlotAlone(s, t, use, id, p);
      if slot.id != id && p + 1 < |s.slots| {
        var pc := FindLoad(use, id, p + 1);
        SearchAlone(Goto(s, t, pc), t, use, id, p + 1);
        ArrivesOn(s, t, pc, Destination(s.slots, use, id, p + 1));
      }
    }
  }

  /** A register or deregister that runs alone counts as the sequential one does. */
  lemma BumpAlone(s: State, t: nat, use: Use, id: GranuleId) returns (s': State)
    requires Shape(s) && t < |s.pcs| && s.pcs[t] == FindLoad(use, id, 0) && use != Close
    ensures Leads(s, s', t)
    ensures Is(s', AfterBump(s.slots, id, if use == Register then 1 else -1).0, s.c, s.pcs[t := Idle])
  {
    SearchAlone(s, t, use, id, 0);
    var s1 := Goto(s, t, Destination(s.slots, use, id, 0));
    s' := s1;
    if Found(s.slots, id, 0).Some? {
      s' := Step(s1, t, false).0;
      LeadsStep(s1, t);
      LeadsOn(s, s1, s', t);
    }
  }

  function ClosedCounters(c: Counters, live: nat): Counters {
    if live == UINT32_MAX then c
    else
      c.(open := Decrement64(c.open), total := c.total + 1,
         drainable := if live == 0 then c.drainable + 1 else c.drainable,
         pinned := if live == 0 then c.pinned else c.pinned + 1)
  }

  lemma VerdictAlone(s: State, t: nat, live: nat) returns (s': State)
    requires Shape(s) && t < |s.pcs| && s.pcs[t] == UncountOpen(live) && live != UINT32_MAX
    ensures Leads(s, s', t) && Is(s', s.slots, ClosedCounters(s.c, live), s.pcs[t := Idle])
  {
    var s1 := Step(s, t, false).0;
    var s2 := Step(s1, t, false).0;
    s' := Step(s2, t, false).0;
    LeadsStep(s, t);
    LeadsStep(s1, t);
    LeadsStep(s2, t);
    LeadsOn(s, s1, s2, t);
    LeadsOn(s, s2, s', t);
  }

  lemma ClearAlone(s: State, t: nat, id: GranuleId, i: nat, live: nat) returns (s': State)
    requires Shape(s) && t < |s.pcs| && s.pcs[t] == CloseId(id, i, live)
    ensures Leads(s, s', t) && Shape(s')
    ensures Is(s', s.slots[i := Slot(false, ZERO, s.slots[i].liveCount)], s.c,
               s.pcs[t := if live == UINT32_MAX then Idle else UncountOpen(live)])
  {
    LeadsTwice(s, t);
    s' := Step(Step(s, t, false).0, t, false).0;
  }

  lemma ReleaseAlone(s: State, t: nat, id: GranuleId, i: nat) returns (s': State)
    requires Shape(s) && t < |s.pcs| && s.pcs[t] == CloseLoad(id, i) && s.slots[i].occupied
    ensures Leads(s, s', t) && Shape(s')
    ensures var live := s.slots[i].liveCount;
      Is(s', s.slots[i := EMPTY], s.c, s.pcs[t := if live == UINT32_MAX then Idle else UncountOpen(live)])
  {
    LeadsTwice(s, t);
    var s2 := Step(Step(s, t, false).0, t, false).0;
    assert Shape(s2) && s2.pcs == s.pcs[t := CloseId(id, i, s.slots[i].liveCount)];
    assert s2.slots == s.slots[i := s.slots[i].(liveCount := 0)] && s2.c == s.c;
    s' := ClearAlone(s2, t, id, i, s.slots[i].liveCount);
    LeadsOn(s, s2, s', t);
  }

  /** From its slot to its end. */
  lemma FinishAlone(s: State, t: nat, id: GranuleId, i: nat) returns (s': State)
    requires Shape(s) && t < |s.pcs| && s.pcs[t] == CloseLoad(id, i) && s.slots[i].occupied
    ensures Leads(s, s', t)
    ensures Is(s', s.slots[i := EMPTY], ClosedCounters(s.c, s.slots[i].liveCount), s.pcs[t := Idle])
  {
    var s1 := ReleaseAlone(s, t, id, i);
    s' := s1;
    if s.slots[i].liveCount != UINT32_MAX {
      s' := VerdictAlone(s1, t, s.slots[i].liveCount);
      LeadsOn(s, s1, s', t);
      assert s.pcs[t := s1.pcs[t]][t := Idle] == s.pcs[t := Idle];
    }
  }

  lemma CloseOf(slots: Table, id: GranuleId)
    ensures AfterClose(slots, id) == match Found(slots, id, 0)
              case None => (slots, UINT32_MAX)
              case Some(i) => (slots[i := EMPTY], slots[i].liveCount)
  {}

  /** A close that runs alone leaves the table that the sequential close leaves, and counts
      itself, by the count it read, unless that is the error value. */
  lemma CloseAlone(s: State, t: nat, id: GranuleId) returns (s': State)
    requires Shape(s) && t < |s.pcs| && s.pcs[t] == FindLoad(Close, id, 0)
    ensures Leads(s, s', t)
    ensures var (slots, live) := AfterClose(s.slots, id);
      Is(s', slots, ClosedCounters(s.c, live), s.pcs[t := Idle])
  {
    SearchAlone(s, t, Close, id, 0);
    CloseOf(s.slots, id);
    var s1 := Goto(s, t, Destination(s.slots, Close, id, 0));
    s' := s1;
    if Found(s.slots, id, 0).Some? {
      s' := FinishAlone(s1, t, id, Found(s.slots, id, 0).value);
      LeadsOn(s, s1, s', t);
      assert s.pcs[t := s1.pcs[t]][t := Idle] == s.pcs[t := Idle];
    }
  }
}
