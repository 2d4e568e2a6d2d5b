/**
 Steps that keep every slot in its incarnation: a protocol step of one slot, a new observation, the
 turning of an observation into a future. Each keeps the lifecycle invariant, part by part: counts,
 names, borrows, what handles know, what slots hold, the ledger of outcomes.
*/
module LifecycleInvariant {
  import opened SlotMemory
  import opened Space
  import opened Lifecycle
  import P = SlotProtocol
  import SlotInvariant
  import opened SlotBorrowing

  // ---- Counting ------------------------------------------------------------------------------------

  lemma {:induction false} RefsUpdate(handles: seq<Handle>, h: nat, handle: Handle, i: SlotId)
    requires h < |handles|
    ensures HandleRefs(handles[h := handle], i)
            == HandleRefs(handles, i) - (if Refers(handles[h], i) then 1 else 0) + (if Refers(handle, i) then 1 else 0)
  {
    if h == 0 {
      assert handles[h := handle][1..] == handles[1..];
    } else {
      assert handles[h := handle][1..] == handles[1..][h - 1 := handle];
      RefsUpdate(handles[1..], h - 1, handle, i);
    }
  }

  lemma {:induction false} RefsAppend(handles: seq<Handle>, handle: Handle, i: SlotId)
    ensures HandleRefs(handles + [handle], i) == HandleRefs(handles, i) + (if Refers(handle, i) then 1 else 0)
  {
    if handles != [] {
      assert (handles + [handle])[1..] == handles[1..] + [handle];
      RefsAppend(handles[1..], handle, i);
    }
  }

  lemma RefsPositive(handles: seq<Handle>, h: nat, i: SlotId)
    requires h < |handles| && Refers(handles[h], i)
    ensures HandleRefs(handles, i) > 0
  {
    RefsUpdate(handles, h, Gone, i);
  }

  /** A slot with a single handle reference is referred to by no other handle. */
  lemma RefsUnique(handles: seq<Handle>, h: nat, g: nat, i: SlotId)
    requires h < |handles| && g < |handles| && h != g
    requires Refers(handles[h], i) && Refers(handles[g], i)
    ensures HandleRefs(handles, i) >= 2
  {
    RefsUpdate(handles, h, Gone, i);
    RefsPositive(handles[h := Gone], g, i);
  }

  lemma Regroup(a: multiset<Outcome>, b: multiset<Outcome>, c: multiset<Outcome>)
    ensures (a + b) + c == a + (b + c)
  {
  }

  lemma {:induction false} CellsUpdate(protos: seq<P.State>, i: nat, p: P.State)
    requires i < |protos|
    ensures LiveCells(protos[i := p]) + Live(protos[i].mem.cell) == LiveCells(protos) + Live(p.mem.cell)
  {
    if i == 0 {
      assert protos[i := p][1..] == protos[1..];
    } else {
      assert protos[i := p][1..] == protos[1..][i - 1 := p];
      CellsUpdate(protos[1..], i - 1, p);
      Regroup(Live(protos[0].mem.cell), LiveCells(protos[1..][i - 1 := p]), Live(protos[i].mem.cell));
      Regroup(Live(protos[0].mem.cell), LiveCells(protos[1..]), Live(p.mem.cell));
    }
  }

  lemma {:induction false} CellsAppend(protos: seq<P.State>, p: P.State)
    ensures LiveCells(protos + [p]) == LiveCells(protos) + Live(p.mem.cell)
  {
    if protos == [] {
      assert protos + [p] == [p];
    } else {
      assert (protos + [p])[1..] == protos[1..] + [p];
      CellsAppend(protos[1..], p);
    }
  }

  // ---- Adding a reference ----------------------------------------------------------------------

  lemma AddCounts(s: State, i: SlotId, handle: Handle)
    requires Shape(s) && Counted(s) && i < |s.protos| && handle.Observation? && handle.slot == i
    ensures Shape(AddHandle(s, i, handle)) && Counted(AddHandle(s, i, handle))
  {
    var s' := AddHandle(s, i, handle);
    forall j | 0 <= j < |s'.space.strong|
        ensures s'.space.strong[j] == HeldBySpace(s'.space, j) + HandleRefs(s'.handles, j) {
      RefsAppend(s.handles, handle, j);
    }
  }

  /** A slot that `into_outcome` found unique is listed nowhere and referred to by no other handle. */
  lemma UnwrappedIsAlone(s: State, u: nat)
    requires Shape(s) && Counted(s) && u < |s.handles| && s.handles[u].Unwrapped? && HandleOk(s, u)
    ensures var i := s.handles[u].slot;
            && !Listed(s.space.table, i) && i !in s.space.pool
            && forall h :: 0 <= h < |s.handles| && h != u ==> !Refers(s.handles[h], i)
  {
    var i := s.handles[u].slot;
    RefsPositive(s.handles, u, i);
    forall h | 0 <= h < |s.handles| && h != u ensures !Refers(s.handles[h], i) {
      if Refers(s.handles[h], i) {
        RefsUnique(s.handles, u, h, i);
      }
    }
  }

  // ---- Frames ------------------------------------------------------------------------------------------

  /** The slots are as they were, and a slot is live now exactly if it was. */
  lemma SlotsStay(s: State, s': State)
    requires Shape(s) && Shape(s') && SlotsOk(s)
    requires s'.protos == s.protos && s'.incs == s.incs && s'.published == s.published && s'.taken == s.taken
    requires forall i :: 0 <= i < |s.protos| ==>
               (s.space.strong[i] > 0 <==> s'.space.strong[i] > 0)
                   && (s.space.strong[i] == 0 <==> s'.space.strong[i] == 0)
    ensures SlotsOk(s')
  {
    forall i | 0 <= i < |s'.protos| ensures SlotOk(s', i) {
      assert SlotOk(s, i);
    }
  }

  /** No running operation loses the handle it borrows. */
  lemma BorrowsStay(s: State, s': State)
    requires Shape(s) && Shape(s') && BorrowsOk(s)
    requires s'.protos == s.protos && s'.authority == s.authority
    requires |s.handles| <= |s'.handles|
    requires forall h :: 0 <= h < |s.handles| ==> SameBorrow(s.handles[h], s'.handles[h])
    ensures BorrowsOk(s')
  {
    forall i | 0 <= i < |s'.protos| ensures Borrowed(s', i) {
      assert Borrowed(s, i);
    }
  }

  /** `b` still lends whatever `a` lent. */
  predicate SameBorrow(a: Handle, b: Handle) {
    || b == a
    || (a.Subject? && b.Subject? && b.slot == a.slot)
    || (!a.Observation? && !a.Future? && !a.Subject? && !a.Publisher?)
  }

  /** Handles that are not subjects come and go without the table noticing. */
  lemma TableStays(s: State, s': State)
    requires Shape(s) && Shape(s') && TableInv(s)
    requires s'.space.table == s.space.table && s'.subjectOf == s.subjectOf
    requires s.space.nextGeneration <= s'.space.nextGeneration
    requires |s.handles| <= |s'.handles|
    requires forall h :: 0 <= h < |s'.handles| ==>
               if h < |s.handles| then SameSubject(s.handles[h], s'.handles[h]) else !s'.handles[h].Subject?
    ensures TableInv(s')
  {
    forall k | k in s'.space.table ensures EntryOk(s', k) {
      assert EntryOk(s, k);
      assert SameSubject(s.handles[s.subjectOf[k]], s'.handles[s.subjectOf[k]]);
    }
    forall h | 0 <= h < |s'.handles| ensures SubjectListed(s', h) {
      if h < |s.handles| {
        assert SubjectListed(s, h);
        assert SameSubject(s.handles[h], s'.handles[h]);
      }
    }
  }

  /** Both are the same subject, or neither is a subject. */
  predicate SameSubject(a: Handle, b: Handle) {
    if a.Subject? then b.Subject? && b.key == a.key && b.generation == a.generation && b.slot == a.slot
    else !b.Subject?
  }

  /** Handle `b` is what handle `a` became, with no claim that `a` did not have. */
  predicate Weakens(a: Handle, b: Handle) {
    && SameSubject(a, b)
    && (Current(b) ==> Current(a) && b.slot == a.slot && b.inc == a.inc)
  }

  /** Handles may weaken and the pool may shrink. */
  lemma NamesStay(s: State, s': State)
    requires Shape(s) && Shape(s') && TableInv(s) && PoolInv(s) && IncInv(s)
    requires s'.space.table == s.space.table && s'.subjectOf == s.subjectOf
    requires s'.space.nextGeneration == s.space.nextGeneration
    requires s'.incs == s.incs && s'.nextInc == s.nextInc
    requires |s.handles| == |s'.handles|
    requires forall h :: 0 <= h < |s'.handles| ==> Weakens(s.handles[h], s'.handles[h])
    requires s'.space.pool == s.space.pool || (s.space.pool != [] && s'.space.pool == s.space.pool[1..])
    ensures TableInv(s') && PoolInv(s') && IncInv(s')
  {
    forall h | 0 <= h < |s'.handles| ensures SameSubject(s.handles[h], s'.handles[h]) {
      assert Weakens(s.handles[h], s'.handles[h]);
    }
    TableStays(s, s');
    assert forall i :: i in s'.space.pool ==> i in s.space.pool;
    forall h | 0 <= h < |s'.handles| && Current(s'.handles[h])
      ensures s'.handles[h].slot !in s'.space.pool && s'.handles[h].inc == s'.incs[s'.handles[h].slot]
    {
      assert Weakens(s.handles[h], s'.handles[h]);
    }
  }

  // ---- observe and clone ------------------------------------------------------------------------------

  lemma AddCore(s: State, i: SlotId, handle: Handle)
    requires Core(s) && i < |s.protos| && handle == Observation(i, s.incs[i]) && i !in s.space.pool
    ensures Core(AddHandle(s, i, handle))
  {
    AddCounts(s, i, handle);
    TableStays(s, AddHandle(s, i, handle));
  }

  lemma AddHandlesOk(s: State, i: SlotId, handle: Handle)
    requires Core(s) && HandlesOk(s) && i < |s.protos| && handle == Observation(i, s.incs[i])
    requires Listed(s.space.table, i) || exists h :: 0 <= h < |s.handles| && s.handles[h] == handle
    requires Shape(AddHandle(s, i, handle))
    ensures HandlesOk(AddHandle(s, i, handle))
  {
    var s' := AddHandle(s, i, handle);
    forall h | 0 <= h < |s'.handles| ensures HandleOk(s', h) {
      if h < |s.handles| {
        assert HandleOk(s, h);
        if s.handles[h].Unwrapped? { UnwrappedIsAlone(s, h); }
      }
    }
  }

  /** A clone, or a fresh observation of a listed slot: one more handle of the current incarnation. */
  lemma AddKeepsInv(s: State, i: SlotId, handle: Handle)
    requires Inv(s) && i < |s.protos| && handle == Observation(i, s.incs[i])
    requires i !in s.space.pool && s.space.strong[i] > 0
    requires Listed(s.space.table, i) || exists h :: 0 <= h < |s.handles| && s.handles[h] == handle
    ensures Inv(AddHandle(s, i, handle))
  {
    var s' := AddHandle(s, i, handle);
    AddCore(s, i, handle);
    AddHandlesOk(s, i, handle);
    BorrowsStay(s, s');
    SlotsStay(s, s');
  }

  // ---- A protocol step of one slot ------------------------------------------------------------------------

  /** What the handle `h` may do to its slot, seen from outside: the slot's protocol goes from its state to `p`. */
  ghost predicate Moves(s: State, h: nat, step: P.Step, p: P.State)
    requires Shape(s)
  {
    && h < |s.handles| && !s.handles[h].Gone?
    && Authorises(s.protos[s.handles[h].slot], h, s.handles[h], step)
    && KeepsBorrows(s.protos[s.handles[h].slot], p, step)
    && KeepsOutcome(s.protos[s.handles[h].slot], p, step)
  }

  lemma MovedCounts(s: State, h: nat, step: P.Step, p: P.State)
    requires Shape(s) && Counted(s) && Moves(s, h, step, p)
    ensures Shape(SlotMoved(s, h, step, p)) && Counted(SlotMoved(s, h, step, p))
  {
    var s' := SlotMoved(s, h, step, p);
    assert s'.handles == s.handles[h := s'.handles[h]];
    forall i | 0 <= i < |s'.space.strong|
        ensures s'.space.strong[i] == HeldBySpace(s'.space, i) + HandleRefs(s'.handles, i) {
      RefsUpdate(s.handles, h, s'.handles[h], i);
    }
  }

  lemma MovedCore(s: State, h: nat, step: P.Step, p: P.State)
    requires Core(s) && Moves(s, h, step, p)
    ensures Core(SlotMoved(s, h, step, p))
  {
    MovedCounts(s, h, step, p);
    NamesStay(s, SlotMoved(s, h, step, p));
  }

  lemma MovedHandles(s: State, h: nat, step: P.Step, p: P.State)
    requires Shape(s) && HandlesOk(s) && Moves(s, h, step, p) && Shape(SlotMoved(s, h, step, p))
    ensures HandlesOk(SlotMoved(s, h, step, p))
  {
    var s' := SlotMoved(s, h, step, p);
    assert HandleOk(s, h);
    forall g | 0 <= g < |s'.handles| ensures HandleOk(s', g) {
      assert HandleOk(s, g);
    }
  }

  /** Another slot's borrows do not notice that a subject completed. */
  lemma OtherBorrows(s: State, s': State, h: nat, i: SlotId)
    requires Shape(s) && Shape(s') && i < |s.protos| == |s'.protos| && Borrowed(s, i) && s'.protos[i] == s.protos[i]
    requires h < |s.handles| == |s'.handles| && s'.handles == s.handles[h := s'.handles[h]]
            && s'.authority == s.authority
    requires SameBorrow(s.handles[h], s'.handles[h])
    ensures Borrowed(s', i)
  {
  }

  lemma OwnBorrows(s: State, s': State, h: nat, step: P.Step, p: P.State)
    requires Shape(s) && Shape(s') && HandleOk'(s, h) && Moves(s, h, step, p) && Borrowed(s, s.handles[h].slot)
    requires |s'.protos| == |s.protos| && s'.protos[s.handles[h].slot] == p && s'.authority == s.authority
    requires |s'.handles| == |s.handles| && s'.handles == s.handles[h := s'.handles[h]]
            && SameBorrow(s.handles[h], s'.handles[h])
    ensures Borrowed(s', s.handles[h].slot)
  {
  }

  lemma MovedBorrows(s: State, h: nat, step: P.Step, p: P.State)
    requires Shape(s) && BorrowsOk(s) && HandleOk'(s, h) && Moves(s, h, step, p) && Shape(SlotMoved(s, h, step, p))
    ensures BorrowsOk(SlotMoved(s, h, step, p))
  {
    var s' := SlotMoved(s, h, step, p);
    forall i | 0 <= i < |s'.protos| ensures Borrowed(s', i) {
      assert Borrowed(s, i);
      if i != s.handles[h].slot {
        OtherBorrows(s, s', h, i);
      } else {
        OwnBorrows(s, s', h, step, p);
      }
    }
  }

  predicate HandleOk'(s: State, h: nat)
    requires Shape(s)
  {
    h < |s.handles| && HandleOk(s, h)
  }

  lemma OtherSlotOk(s: State, h: nat, step: P.Step, p: P.State, i: SlotId)
    requires Shape(s) && IncInv(s) && Moves(s, h, step, p) && Shape(SlotMoved(s, h, step, p))
    requires i < |s.protos| && i != s.handles[h].slot && SlotOk(s, i) && Current(s.handles[h])
    ensures SlotOk(SlotMoved(s, h, step, p), i)
  {
  }

  lemma MovedSlots(s: State, h: nat, step: P.Step, p: P.State)
    requires Shape(s) && IncInv(s) && SlotsOk(s) && Moves(s, h, step, p) && P.Inv(p)
    requires Shape(SlotMoved(s, h, step, p)) && s.space.strong[s.handles[h].slot] > 0 && Current(s.handles[h])
    ensures SlotsOk(SlotMoved(s, h, step, p))
  {
    var s' := SlotMoved(s, h, step, p);
    forall i | 0 <= i < |s'.protos| ensures SlotOk(s', i) {
      assert SlotOk(s, i);
      if i != s.handles[h].slot {
        OtherSlotOk(s, h, step, p, i);
      }
    }
  }

  lemma CancelCells(a: multiset<Outcome>, b: multiset<Outcome>, x: multiset<Outcome>)
    requires a + x == b + x
    ensures a == b
  {
    forall v ensures a[v] == b[v] {
      assert (a + x)[v] == (b + x)[v];
    }
  }

  lemma EnterCell(a: multiset<Outcome>, b: multiset<Outcome>, c: multiset<Outcome>, x: multiset<Outcome>)
    ensures a + b + c + x == (a + x) + b + c
  {
  }

  lemma MovedLedger(s: State, i: SlotId, step: P.Step, p: P.State)
    requires i < |s.protos| && Ledger(s) && KeepsOutcome(s.protos[i], p, step)
    ensures s.passed + (if step.StartComplete? then multiset{step.v} else multiset{})
            == LiveCells(s.protos[i := p]) + s.moved + s.destroyed
  {
    CellsUpdate(s.protos, i, p);
    if step.StartComplete? {
      EnterCell(LiveCells(s.protos), s.moved, s.destroyed, multiset{step.v});
    } else {
      CancelCells(LiveCells(s.protos[i := p]), LiveCells(s.protos), Live(p.mem.cell));
    }
  }

  lemma MovedBooks(s: State, h: nat, step: P.Step, p: P.State)
    requires Shape(s) && IncInv(s) && Ledger(s) && HistoryInv(s) && Moves(s, h, step, p)
    requires Current(s.handles[h]) && s.handles[h].inc !in s.taken
    ensures Ledger(SlotMoved(s, h, step, p)) && HistoryInv(SlotMoved(s, h, step, p))
  {
    MovedLedger(s, s.handles[h].slot, step, p);
  }

  lemma MovedKeepsInv(s: State, h: nat, step: P.Step, p: P.State)
    requires Inv(s) && Moves(s, h, step, p) && P.Inv(p) && Current(s.handles[h])
    ensures Inv(SlotMoved(s, h, step, p))
  {
    RefsPositive(s.handles, h, s.handles[h].slot);
    assert HandleOk(s, h);
    assert SlotOk(s, s.handles[h].slot);
    MovedCore(s, h, step, p);
    MovedHandles(s, h, step, p);
    MovedBorrows(s, h, step, p);
    MovedSlots(s, h, step, p);
    MovedBooks(s, h, step, p);
  }

  lemma SlotStepKeepsInv(s: State, h: nat, step: P.Step)
    requires Inv(s) && Enabled(s, SlotStep(h, step))
    ensures Inv(Apply(s, SlotStep(h, step)))
  {
    var i := s.handles[h].slot;
    RefsPositive(s.handles, h, i);
    assert SlotOk(s, i);
    SlotInvariant.StepKeepsInv(s.protos[i], step);
    StepKeepsBorrows(s.protos[i], step);
    MovedKeepsInv(s, h, step, P.Apply(s.protos[i], step));
  }

  // ---- Steps without a handle of their own ----------------------------------------------------------------

  predicate Quiet(step: P.Step) {
    step.NewThread? || step.OutsideUnpark? || step.OutsidePark?
  }

  function Stepped(s: State, i: SlotId, p: P.State): State
    requires i < |s.protos|
  {
    s.(protos := s.protos[i := p])
  }

  lemma SteppedSlots(s: State, i: SlotId, step: P.Step, p: P.State)
    requires Shape(s) && SlotsOk(s) && i < |s.protos| && s.space.strong[i] > 0 && Quiet(step)
    requires KeepsOutcome(s.protos[i], p, step) && P.Inv(p)
    ensures SlotsOk(Stepped(s, i, p))
  {
    var s' := Stepped(s, i, p);
    forall j | 0 <= j < |s'.protos| ensures SlotOk(s', j) { assert SlotOk(s, j); }
  }

  lemma SteppedBorrows(s: State, i: SlotId, step: P.Step, p: P.State)
    requires Shape(s) && BorrowsOk(s) && i < |s.protos| && Quiet(step) && KeepsBorrows(s.protos[i], p, step)
    requires Shape(Stepped(s, i, p))
    ensures BorrowsOk(Stepped(s, i, p))
  {
    var s' := Stepped(s, i, p);
    forall j | 0 <= j < |s'.protos| ensures Borrowed(s', j) { assert Borrowed(s, j); }
  }

  lemma SteppedHandles(s: State, i: SlotId, step: P.Step, p: P.State)
    requires Shape(s) && HandlesOk(s) && i < |s.protos| && Quiet(step)
    requires KeepsBorrows(s.protos[i], p, step) && KeepsOutcome(s.protos[i], p, step) && Shape(Stepped(s, i, p))
    ensures HandlesOk(Stepped(s, i, p))
  {
    var s' := Stepped(s, i, p);
    forall h | 0 <= h < |s'.handles| ensures HandleOk(s', h) { assert HandleOk(s, h); }
  }

  lemma SteppedKeepsInv(s: State, i: SlotId, step: P.Step, p: P.State)
    requires Inv(s) && i < |s.protos| && s.space.strong[i] > 0 && Quiet(step)
    requires KeepsBorrows(s.protos[i], p, step) && KeepsOutcome(s.protos[i], p, step) && P.Inv(p)
    ensures Inv(Stepped(s, i, p))
  {
    NamesStay(s, Stepped(s, i, p));
    SteppedBorrows(s, i, step, p);
    SteppedHandles(s, i, step, p);
    SteppedSlots(s, i, step, p);
    MovedLedger(s, i, step, p);
  }

  // ---- into_future ------------------------------------------------------------------------------------------

  function Futured(s: State, h: nat, p: P.State): State
    requires Shape(s) && h < |s.handles| && s.handles[h].Observation?
  {
    var Observation(i, inc) := s.handles[h];
    s.(handles := s.handles[h := Future(i, inc, |s.protos[i].futures|)], protos := s.protos[i := p])
  }

  lemma RenameCounts(s: State, h: nat, handle: Handle)
    requires Shape(s) && Counted(s) && h < |s.handles|
    requires !s.handles[h].Gone? && !handle.Gone? && handle.slot == s.handles[h].slot
    ensures forall i :: 0 <= i < |s.space.strong| ==> HandleRefs(s.handles[h := handle], i) == HandleRefs(s.handles, i)
  {
    forall i | 0 <= i < |s.space.strong| ensures HandleRefs(s.handles[h := handle], i) == HandleRefs(s.handles, i) {
      RefsUpdate(s.handles, h, handle, i);
    }
  }

  lemma FuturedCore(s: State, h: nat, p: P.State)
    requires Core(s) && h < |s.handles| && s.handles[h].Observation?
    ensures Core(Futured(s, h, p))
  {
    RenameCounts(s, h, Futured(s, h, p).handles[h]);
    NamesStay(s, Futured(s, h, p));
  }

  lemma FuturedBorrows(s: State, h: nat, p: P.State)
    requires Shape(s) && BorrowsOk(s) && h < |s.handles| && s.handles[h].Observation?
    requires Unborrowed(s.protos[s.handles[h].slot], h)
    requires KeepsBorrows(s.protos[s.handles[h].slot], p, P.NewFuture(h))
    requires Shape(Futured(s, h, p))
    ensures BorrowsOk(Futured(s, h, p))
  {
    var s' := Futured(s, h, p);
    forall j | 0 <= j < |s'.protos| ensures Borrowed(s', j) { assert Borrowed(s, j); }
  }

  lemma FuturedHandles(s: State, h: nat, p: P.State)
    requires Shape(s) && HandlesOk(s) && h < |s.handles| && s.handles[h].Observation?
    requires KeepsBorrows(s.protos[s.handles[h].slot], p, P.NewFuture(h))
    requires KeepsOutcome(s.protos[s.handles[h].slot], p, P.NewFuture(h))
    requires Shape(Futured(s, h, p))
    ensures HandlesOk(Futured(s, h, p))
  {
    var s' := Futured(s, h, p);
    forall g | 0 <= g < |s'.handles| ensures HandleOk(s', g) { assert HandleOk(s, g); }
  }

  lemma FuturedKeepsInv(s: State, h: nat, p: P.State)
    requires Inv(s) && h < |s.handles| && s.handles[h].Observation? && Unborrowed(s.protos[s.handles[h].slot], h)
    requires KeepsBorrows(s.protos[s.handles[h].slot], p, P.NewFuture(h))
    requires KeepsOutcome(s.protos[s.handles[h].slot], p, P.NewFuture(h)) && P.Inv(p)
    ensures Inv(Futured(s, h, p))
  {
    var s' := Futured(s, h, p);
    RefsPositive(s.handles, h, s.handles[h].slot);
    FuturedCore(s, h, p);
    FuturedBorrows(s, h, p);
    FuturedHandles(s, h, p);
    forall j | 0 <= j < |s'.protos| ensures SlotOk(s', j) { assert SlotOk(s, j); }
    MovedLedger(s, s.handles[h].slot, P.NewFuture(h), p);
  }

  // ---- Losing a handle ------------------------------------------------------------------------------------------

  /** A slot to which only dying subjects refer has no running operation. */
  lemma UnheldIsQuiescent(s: State, i: SlotId)
    requires Shape(s) && i < |s.protos| && Borrowed(s, i)
    requires forall h :: 0 <= h < |s.handles| && Refers(s.handles[h], i) ==>
            s.handles[h].Dying? || s.handles[h].Unwrapped?
    ensures Quiescent(s.protos[i])
  {
  }

  /** Nothing that is running borrows handle `h`. */
  predicate Idle(s: State, h: nat)
    requires Shape(s) && h < |s.handles|
  {
    match s.handles[h]
    case Subject(_, _, i, _, _) => !P.CompleterBusy(s.protos[i].completer)
    case Publisher(i, _) => !P.CompleterBusy(s.protos[i].completer)
    case Observation(i, _) => Unborrowed(s.protos[i], h)
    case Future(i, _, id) => id < |s.protos[i].futures| && s.protos[i].futures[id].pc.FutDropped?
    case _ => true
  }

  /** An idle handle may become a handle that lends nothing, or go, and no running operation notices. */
  lemma IdleLoses(s: State, h: nat, s': State)
    requires Shape(s) && BorrowsOk(s) && h < |s.handles| && Idle(s, h)
    requires |s'.handles| == |s.handles| && s'.handles == s.handles[h := s'.handles[h]]
    requires s'.authority == s.authority && |s'.protos| == |s.protos| && Shape(s')
    requires forall i :: 0 <= i < |s.protos| ==> s'.protos[i] == s.protos[i].(mem := s'.protos[i].mem)
    ensures BorrowsOk(s')
  {
    forall i | 0 <= i < |s'.protos| ensures Borrowed(s', i) {
      assert Borrowed(s, i);
      assert s'.protos[i] == s.protos[i].(mem := s'.protos[i].mem);
    }
  }
}
