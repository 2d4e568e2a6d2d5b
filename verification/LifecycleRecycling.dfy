/**
 Steps that end or begin an incarnation, or may: registering on a new or recycled slot, retirement
 and pooling, release of a reference and of the last one, the exclusive take, and emptying the pool.
 Each keeps the lifecycle invariant, part by part, and `reset` and the final drop find a slot at rest.
*/
module LifecycleRecycling {
  import opened Options
  import opened SlotMemory
  import opened Space
  import opened Lifecycle
  import opened LifecycleInvariant
  import opened SlotBorrowing
  import P = SlotProtocol
  import SlotInvariant

  // ---- Giving up a reference -------------------------------------------------------------------------------

  lemma GoneCounts(s: State, h: nat, i: SlotId)
    requires h < |s.handles| && Refers(s.handles[h], i)
    ensures forall j :: j != i ==> HandleRefs(s.handles[h := Gone], j) == HandleRefs(s.handles, j)
    ensures HandleRefs(s.handles[h := Gone], i) == HandleRefs(s.handles, i) - 1
  {
    forall j
      ensures HandleRefs(s.handles[h := Gone], j)
              == HandleRefs(s.handles, j) - if Refers(s.handles[h], j) then 1 else 0
    {
      RefsUpdate(s.handles, h, Gone, j);
    }
  }

  /** One reference goes, from the handles and from the count alike. */
  lemma DropCounts(s: State, h: nat, s': State)
    requires Shape(s) && Counted(s) && h < |s.handles| && !s.handles[h].Gone? && Shape(s')
    requires s'.handles == s.handles[h := Gone] && s'.space.table == s.space.table && s'.space.pool == s.space.pool
    requires s'.space.strong == s.space.strong[s.handles[h].slot := s.space.strong[s.handles[h].slot] - 1]
    ensures Counted(s')
  {
    GoneCounts(s, h, s.handles[h].slot);
  }

  lemma ReleaseShape(s: State, h: nat)
    requires Shape(s) && h < |s.handles| && !s.handles[h].Gone? && !s.handles[h].Subject?
    ensures var s' := ReleaseEffect(s, h);
            && Shape(s') && s'.handles == s.handles[h := Gone] && s'.incs == s.incs && s'.nextInc == s.nextInc
            && s'.space == s.space.(strong := s'.space.strong) && s'.subjectOf == s.subjectOf
  {
  }

  lemma ReleaseNames(s: State, h: nat)
    requires Shape(s) && TableInv(s) && PoolInv(s) && IncInv(s)
    requires h < |s.handles| && !s.handles[h].Gone? && !s.handles[h].Subject?
    ensures var s' := ReleaseEffect(s, h); Shape(s') && TableInv(s') && PoolInv(s') && IncInv(s')
  {
    var s' := ReleaseEffect(s, h);
    ReleaseShape(s, h);
    NamesStay(s, s');
  }

  lemma ReleaseCore(s: State, h: nat)
    requires Core(s) && h < |s.handles| && !s.handles[h].Gone? && !s.handles[h].Subject?
    ensures Core(ReleaseEffect(s, h))
  {
    ReleaseNames(s, h);
    DropCounts(s, h, ReleaseEffect(s, h));
  }

  /** Whoever loses its last reference is referred to by nobody. */
  lemma LastReference(s: State, h: nat)
    requires Shape(s) && Counted(s) && h < |s.handles| && !s.handles[h].Gone?
    requires s.space.strong[s.handles[h].slot] == 1
    ensures forall g :: 0 <= g < |s.handles| && g != h ==> !Refers(s.handles[g], s.handles[h].slot)
  {
    var i := s.handles[h].slot;
    forall g | 0 <= g < |s.handles| && g != h ensures !Refers(s.handles[g], i) {
      if Refers(s.handles[g], i) {
        RefsUnique(s.handles, h, g, i);
      }
    }
  }

  lemma ReleaseHandles(s: State, h: nat)
    requires Shape(s) && Counted(s) && HandlesOk(s) && h < |s.handles| && !s.handles[h].Gone?
    requires Shape(ReleaseEffect(s, h))
    ensures HandlesOk(ReleaseEffect(s, h))
  {
    var s' := ReleaseEffect(s, h);
    forall g | 0 <= g < |s'.handles| ensures HandleOk(s', g) {
      assert HandleOk(s, g);
      if s.handles[g].Unwrapped? && g != h {
        UnwrappedIsAlone(s, g);
      }
    }
  }

  /** The protocol of a slot is at rest when its last handle, itself idle, lets go. */
  lemma LastIdleIsQuiescent(s: State, h: nat)
    requires Shape(s) && Counted(s) && BorrowsOk(s) && h < |s.handles| && !s.handles[h].Gone? && Idle(s, h)
    requires s.space.strong[s.handles[h].slot] == 1
    ensures Quiescent(s.protos[s.handles[h].slot])
  {
    var i := s.handles[h].slot;
    LastReference(s, h);
    assert Borrowed(s, i);
    var s1 := s.(handles := s.handles[h := Gone]);
    IdleLoses(s, h, s1);
    assert Borrowed(s1, i);
    UnheldIsQuiescent(s1, i);
  }

  /** Destroying a live cell moves its value from the cells to the destroyed ones. */
  lemma LeaveCell(protos: seq<P.State>, i: nat, p: P.State, moved: multiset<Outcome>, destroyed: multiset<Outcome>,
      x: multiset<Outcome>)
    requires i < |protos| && p.mem.cell.None? && x == Live(protos[i].mem.cell)
    ensures LiveCells(protos[i := p]) + moved + (destroyed + x) == LiveCells(protos) + moved + destroyed
    ensures LiveCells(protos[i := p]) + (moved + x) + destroyed == LiveCells(protos) + moved + destroyed
  {
    CellsUpdate(protos, i, p);
    assert LiveCells(protos) == LiveCells(protos[i := p]) + x;
  }

  lemma UnrefShape(s: State, i: SlotId)
    requires Shape(s) && i < |s.protos|
    ensures Shape(Unref(s, i))
  {
  }

  /** The slots and the books when slot `i` loses a reference, the last one only at rest. */
  lemma UnrefSlots(s: State, i: SlotId)
    requires Shape(s) && SlotsOk(s) && i < |s.protos| && s.space.strong[i] > 0 && Shape(Unref(s, i))
    requires s.space.strong[i] == 1 ==> Quiescent(s.protos[i])
    ensures SlotsOk(Unref(s, i))
  {
    forall j | 0 <= j < |s.protos| ensures SlotOk(Unref(s, i), j) {
      assert SlotOk(s, j);
      if j == i && s.space.strong[i] == 1 {
        DropIsClean(s.protos[i]);
      }
    }
  }

  lemma UnrefLedger(s: State, i: SlotId)
    requires Shape(s) && SlotsOk(s) && Ledger(s) && i < |s.protos| && s.space.strong[i] > 0
    requires s.space.strong[i] == 1 ==> Quiescent(s.protos[i])
    ensures Ledger(Unref(s, i))
  {
    if s.space.strong[i] == 1 {
      assert SlotOk(s, i);
      DropIsClean(s.protos[i]);
      LeaveCell(s.protos, i, s.protos[i].(mem := DropMem(s.protos[i].mem)), s.moved, s.destroyed,
          Destroyed(s.protos[i].mem));
    }
  }

  lemma ReleaseMemory(s: State, h: nat)
    requires Core(s) && BorrowsOk(s) && SlotsOk(s) && Ledger(s) && h < |s.handles| && !s.handles[h].Gone? && Idle(s, h)
    requires Shape(ReleaseEffect(s, h))
    ensures SlotsOk(ReleaseEffect(s, h)) && Ledger(ReleaseEffect(s, h))
  {
    var i := s.handles[h].slot;
    RefsPositive(s.handles, h, i);
    if s.space.strong[i] == 1 {
      LastIdleIsQuiescent(s, h);
    }
    var s1 := s.(handles := s.handles[h := Gone]);
    SlotsStay(s, s1);
    UnrefSlots(s1, i);
    UnrefLedger(s1, i);
  }

  lemma ReleaseBorrows(s: State, h: nat)
    requires Shape(s) && Counted(s) && BorrowsOk(s) && HandlesOk(s)
    requires h < |s.handles| && !s.handles[h].Gone? && Idle(s, h) && Shape(ReleaseEffect(s, h))
    ensures BorrowsOk(ReleaseEffect(s, h)) && HandlesOk(ReleaseEffect(s, h))
  {
    ReleaseHandles(s, h);
    IdleLoses(s, h, ReleaseEffect(s, h));
  }

  lemma ReleaseHistory(s: State, h: nat)
    requires Shape(s) && HistoryInv(s) && h < |s.handles| && !s.handles[h].Gone?
    ensures HistoryInv(ReleaseEffect(s, h))
  {
  }

  lemma ReleaseKeepsInv(s: State, h: nat)
    requires Inv(s) && h < |s.handles| && !s.handles[h].Gone? && !s.handles[h].Subject? && Idle(s, h)
    ensures Inv(ReleaseEffect(s, h))
  {
    ReleaseCore(s, h);
    ReleaseBorrows(s, h);
    ReleaseMemory(s, h);
    ReleaseHistory(s, h);
  }

  // ---- into_outcome --------------------------------------------------------------------------------------------

  lemma UnwrapCore(s: State, h: nat)
    requires Core(s) && h < |s.handles| && s.handles[h].Observation?
    ensures Core(UnwrapEffect(s, h))
  {
    RenameCounts(s, h, UnwrapEffect(s, h).handles[h]);
    NamesStay(s, UnwrapEffect(s, h));
  }

  lemma UnwrapHandles(s: State, h: nat)
    requires Shape(s) && HandlesOk(s) && h < |s.handles| && s.handles[h].Observation? && Shape(UnwrapEffect(s, h))
    ensures HandlesOk(UnwrapEffect(s, h))
  {
    forall g | 0 <= g < |s.handles| ensures HandleOk(UnwrapEffect(s, h), g) { assert HandleOk(s, g); }
  }

  lemma UnwrapKeepsInv(s: State, h: nat)
    requires Inv(s) && h < |s.handles| && s.handles[h].Observation? && Idle(s, h)
    ensures Inv(UnwrapEffect(s, h))
  {
    var s' := UnwrapEffect(s, h);
    UnwrapCore(s, h);
    UnwrapHandles(s, h);
    IdleLoses(s, h, s');
    SlotsStay(s, s');
  }

  lemma TakeCore(s: State, h: nat)
    requires Core(s) && h < |s.handles| && s.handles[h].Unwrapped?
    ensures Core(TakeEffect(s, h))
  {
    DropCounts(s, h, TakeEffect(s, h));
    NamesStay(s, TakeEffect(s, h));
  }

  /** What the exclusive owner finds: the outcome of its incarnation if published, and nothing else. */
  lemma TakeFinds(s: State, h: nat)
    requires Inv(s) && h < |s.handles| && s.handles[h].Unwrapped?
    ensures var Unwrapped(i, inc) := s.handles[h]; var mem := s.protos[i].mem;
            && s.space.strong[i] == 1 && Quiescent(s.protos[i]) && inc == s.incs[i]
            && (mem.word.completed <==> mem.cell.Some?)
            && (mem.word.completed <==> inc in s.published)
            && (mem.word.completed ==> mem.cell == Some(s.published[inc]))
            && Destroyed(MoveOut(mem)) == multiset{}
            && MoveOut(mem).cell.None?
            && inc !in s.taken
  {
    var i := s.handles[h].slot;
    assert HandleOk(s, h);
    LastIdleIsQuiescent(s, h);
    assert SlotOk(s, i);
  }

  lemma TakeSlots(s: State, h: nat)
    requires Shape(s) && IncInv(s) && SlotsOk(s) && h < |s.handles| && s.handles[h].Unwrapped?
    requires s.space.strong[s.handles[h].slot] == 1 && MoveOut(s.protos[s.handles[h].slot].mem).cell.None?
    requires Shape(TakeEffect(s, h))
    ensures SlotsOk(TakeEffect(s, h))
  {
    var s' := TakeEffect(s, h);
    forall j | 0 <= j < |s'.protos| ensures SlotOk(s', j) { assert SlotOk(s, j); }
  }

  lemma TakeHandles(s: State, h: nat)
    requires Shape(s) && Counted(s) && HandlesOk(s) && h < |s.handles| && s.handles[h].Unwrapped?
    requires Shape(TakeEffect(s, h))
    ensures HandlesOk(TakeEffect(s, h))
  {
    var s' := TakeEffect(s, h);
    forall g | 0 <= g < |s'.handles| ensures HandleOk(s', g) {
      assert HandleOk(s, g);
      if g != h && s.handles[g].Unwrapped? {
        UnwrappedIsAlone(s, g);
      }
    }
  }

  lemma TakeBooks(s: State, h: nat)
    requires Inv(s) && h < |s.handles| && s.handles[h].Unwrapped?
    ensures Ledger(TakeEffect(s, h)) && HistoryInv(TakeEffect(s, h))
  {
    var s' := TakeEffect(s, h);
    TakeFinds(s, h);
    LeaveCell(s.protos, s.handles[h].slot, s'.protos[s.handles[h].slot], s.moved, s.destroyed,
              Live(s.protos[s.handles[h].slot].mem.cell));
    assert s.destroyed + multiset{} == s.destroyed;
  }

  lemma TakeKeepsInv(s: State, h: nat)
    requires Inv(s) && h < |s.handles| && s.handles[h].Unwrapped?
    ensures Inv(TakeEffect(s, h))
  {
    TakeFinds(s, h);
    TakeCore(s, h);
    IdleLoses(s, h, TakeEffect(s, h));
    TakeHandles(s, h);
    TakeSlots(s, h);
    TakeBooks(s, h);
  }

  // ---- Subject::drop -------------------------------------------------------------------------------------------

  /** The table entry that a subject's drop removes is its own: the generation test always succeeds. */
  lemma SubjectIsListed(s: State, h: nat)
    requires Shape(s) && TableInv(s) && h < |s.handles| && s.handles[h].Subject?
    ensures var Subject(key, generation, i, _, _) := s.handles[h];
            && key in s.space.table && s.space.table[key] == Entry(generation, i)
            && Listed(s.space.table, i) && !Listed(s.space.table - {key}, i)
            && forall j :: j != i ==> (Listed(s.space.table - {key}, j) <==> Listed(s.space.table, j))
  {
    var Subject(key, generation, i, _, _) := s.handles[h];
    var rest := s.space.table - {key};
    assert SubjectListed(s, h) && EntryOk(s, key);
    forall j | j != i ensures Listed(rest, j) <==> Listed(s.space.table, j) {
      if Listed(s.space.table, j) {
        var k :| k in s.space.table && s.space.table[k].slot == j;
        assert k in rest && rest[k].slot == j;
      }
    }
  }

  lemma RetireCounts(s: State, h: nat)
    requires Core(s) && h < |s.handles| && s.handles[h].Subject?
    ensures Shape(RetireEffect(s, h)) && Counted(RetireEffect(s, h))
  {
    var s' := RetireEffect(s, h);
    SubjectIsListed(s, h);
    RenameCounts(s, h, s'.handles[h]);
  }

  /** The subject found its own reference to be the only one left: no other handle refers to the slot. */
  lemma PooledIsUnheld(s: State, h: nat)
    requires Core(s) && h < |s.handles| && s.handles[h].Subject?
    requires s.handles[h].slot in RetireEffect(s, h).space.pool
    ensures forall g :: 0 <= g < |s.handles| && g != h ==> !Refers(s.handles[g], s.handles[h].slot)
    ensures |s.space.pool| < SLOT_POOL_CAP
  {
    var i := s.handles[h].slot;
    SubjectIsListed(s, h);
    forall g | 0 <= g < |s.handles| && g != h ensures !Refers(s.handles[g], i) {
      if Refers(s.handles[g], i) {
        RefsUnique(s.handles, h, g, i);
      }
    }
  }

  lemma RetirePool(s: State, h: nat)
    requires Core(s) && h < |s.handles| && s.handles[h].Subject? && Shape(RetireEffect(s, h))
    ensures PoolInv(RetireEffect(s, h))
  {
    var s' := RetireEffect(s, h);
    SubjectIsListed(s, h);
    if s.handles[h].slot in s'.space.pool {
      PooledIsUnheld(s, h);
    }
  }

  lemma RetireNames(s: State, h: nat)
    requires Shape(s) && TableInv(s) && IncInv(s) && h < |s.handles| && s.handles[h].Subject?
            && Shape(RetireEffect(s, h))
    ensures TableInv(RetireEffect(s, h)) && IncInv(RetireEffect(s, h))
  {
    var s' := RetireEffect(s, h);
    assert SubjectListed(s, h) && EntryOk(s, s.handles[h].key);
    forall k | k in s'.space.table ensures EntryOk(s', k) { assert EntryOk(s, k); }
    forall g | 0 <= g < |s'.handles| ensures SubjectListed(s', g) { assert SubjectListed(s, g); }
  }

  lemma RetireCore(s: State, h: nat)
    requires Core(s) && h < |s.handles| && s.handles[h].Subject?
    ensures Core(RetireEffect(s, h))
  {
    RetireCounts(s, h);
    RetirePool(s, h);
    RetireNames(s, h);
  }

  lemma RetireHandles(s: State, h: nat)
    requires Core(s) && HandlesOk(s) && h < |s.handles| && s.handles[h].Subject? && Shape(RetireEffect(s, h))
    ensures HandlesOk(RetireEffect(s, h))
  {
    var s' := RetireEffect(s, h);
    SubjectIsListed(s, h);
    forall g | 0 <= g < |s'.handles| ensures HandleOk(s', g) {
      assert HandleOk(s, g);
      if s.handles[g].Unwrapped? {
        UnwrappedIsAlone(s, g);
      }
    }
  }

  lemma RetireKeepsInv(s: State, h: nat)
    requires Inv(s) && h < |s.handles| && s.handles[h].Subject? && Idle(s, h)
    ensures Inv(RetireEffect(s, h))
  {
    var s' := RetireEffect(s, h);
    RetireCore(s, h);
    RetireHandles(s, h);
    IdleLoses(s, h, s');
    SubjectIsListed(s, h);
    RefsPositive(s.handles, h, s.handles[h].slot);
    SlotsStay(s, s');
  }

  // ---- subject and pair ----------------------------------------------------------------------------------------

  lemma NoRefsBeyond(handles: seq<Handle>, n: nat, i: SlotId)
    requires forall h :: 0 <= h < |handles| && !handles[h].Gone? ==> handles[h].slot < n
    requires n <= i
    ensures HandleRefs(handles, i) == 0
  {
    if handles != [] {
      NoRefsBeyond(handles[1..], n, i);
    }
  }

  /** A rejected registration changes nothing: the popped slot is back where it was. */
  lemma ConflictChangesNothing(s: State, key: Key)
    requires Shape(s) && key in s.space.table
    ensures SubjectEffect(s, key) == s
  {
    var pool := s.space.pool;
    if pool != [] {
      assert pool[..|pool| - 1] + [pool[|pool| - 1]] == pool;
    }
  }

  lemma ListedAfterInsert(table: map<Key, Entry>, key: Key, entry: Entry)
    requires key !in table
    ensures forall j :: Listed(table[key := entry], j) <==> Listed(table, j) || j == entry.slot
  {
    var table' := table[key := entry];
    forall j ensures Listed(table', j) <==> Listed(table, j) || j == entry.slot {
      if Listed(table, j) {
        var k :| k in table && table[k].slot == j;
        assert k in table' && table'[k].slot == j;
      }
      assert key in table' && table'[key].slot == entry.slot;
    }
  }

  lemma CreatedCounts(s: State, key: Key)
    requires Core(s) && key !in s.space.table && s.space.pool == []
    ensures Shape(SubjectEffect(s, key)) && Counted(SubjectEffect(s, key))
  {
    var s' := SubjectEffect(s, key);
    var i := |s.space.strong|;
    ListedAfterInsert(s.space.table, key, Entry(s.space.nextGeneration, i));
    NoRefsBeyond(s.handles, i, i);
    assert s'.space.table == s.space.table[key := Entry(s.space.nextGeneration, i)];
    assert !Listed(s.space.table, i);
    forall j | 0 <= j < |s'.space.strong|
        ensures s'.space.strong[j] == HeldBySpace(s'.space, j) + HandleRefs(s'.handles, j) {
      RefsAppend(s.handles, s'.handles[|s.handles|], j);
      assert s'.handles == s.handles + [s'.handles[|s.handles|]];
      if j < i { assert s.space.strong[j] == HeldBySpace(s.space, j) + HandleRefs(s.handles, j); }
    }
  }

  lemma CreatedNames(s: State, key: Key)
    requires Core(s) && key !in s.space.table && s.space.pool == [] && Shape(SubjectEffect(s, key))
    ensures TableInv(SubjectEffect(s, key)) && PoolInv(SubjectEffect(s, key)) && IncInv(SubjectEffect(s, key))
  {
    InsertedTable(s, key, SubjectEffect(s, key));
  }

  /** A registration enters one entry, for the new subject, under a generation nobody has. */
  lemma InsertedTable(s: State, key: Key, s': State)
    requires Shape(s) && TableInv(s) && key !in s.space.table && Shape(s')
    requires |s'.handles| == |s.handles| + 1 && s'.handles == s.handles + [s'.handles[|s.handles|]]
    requires s'.handles[|s.handles|].Subject? && s'.handles[|s.handles|].key == key
    requires s'.handles[|s.handles|].generation == s.space.nextGeneration < s'.space.nextGeneration
    requires s'.space.table == s.space.table[key := Entry(s.space.nextGeneration, s'.handles[|s.handles|].slot)]
    requires s'.subjectOf == s.subjectOf[key := |s.handles|]
    requires forall k :: k in s.space.table ==> s.space.table[k].slot != s'.handles[|s.handles|].slot
    ensures TableInv(s')
  {
    forall k | k in s'.space.table ensures EntryOk(s', k) {
      if k != key { assert EntryOk(s, k); }
    }
    forall h | 0 <= h < |s'.handles| ensures SubjectListed(s', h) {
      if h < |s.handles| { assert SubjectListed(s, h); }
    }
    forall k | k in s.space.table ensures s.space.table[k].generation < s.space.nextGeneration {
      assert EntryOk(s, k);
    }
  }

  /** The slots that were there stay as they were; a new one is fresh. */
  lemma ExtendedSlots(s: State, s': State)
    requires Shape(s) && Shape(s') && BorrowsOk(s) && SlotsOk(s)
    requires s'.protos == s.protos + [P.Fresh(FreshMem(), {})] && s'.incs == s.incs + [s.nextInc]
    requires s'.authority == s.authority + [|s.handles|] && s'.nextInc == s.nextInc + 1
    requires |s.handles| <= |s'.handles| && s'.handles[..|s.handles|] == s.handles
    requires s'.space.strong == s.space.strong + [2]
    requires s'.published == s.published && s'.taken == s.taken && HistoryInv(s)
    ensures BorrowsOk(s') && SlotsOk(s')
  {
    var i := |s.protos|;
    SlotInvariant.FreshInv(FreshMem(), {});
    assert forall h :: 0 <= h < |s.handles| ==> s'.handles[h] == s'.handles[..|s.handles|][h];
    forall j | 0 <= j < |s'.protos| ensures Borrowed(s', j) {
      if j < i { assert Borrowed(s, j); }
    }
    forall j | 0 <= j < |s'.protos| ensures SlotOk(s', j) {
      if j < i { assert SlotOk(s, j); }
    }
  }

  lemma ExtendedHandles(s: State, s': State)
    requires Shape(s) && Shape(s') && HandlesOk(s)
    requires s'.protos == s.protos + [P.Fresh(FreshMem(), {})] && s'.incs == s.incs + [s.nextInc]
    requires |s.handles| <= |s'.handles| && s'.handles[..|s.handles|] == s.handles
    requires s'.authority == s.authority + [|s.handles|] && s'.space.strong == s.space.strong + [2]
    requires s'.published == s.published && s'.taken == s.taken && s'.nextInc == s.nextInc + 1
    ensures forall h :: 0 <= h < |s.handles| ==> HandleOk(s', h)
  {
    assert forall h :: 0 <= h < |s.handles| ==> s'.handles[h] == s'.handles[..|s.handles|][h];
    forall h | 0 <= h < |s.handles| ensures HandleOk(s', h) { assert HandleOk(s, h); }
  }

  lemma ExtendedRest(s: State, s': State)
    requires Inv(s) && Shape(s')
    requires s'.protos == s.protos + [P.Fresh(FreshMem(), {})] && s'.incs == s.incs + [s.nextInc]
    requires s'.authority == s.authority + [|s.handles|] && s'.nextInc == s.nextInc + 1
    requires |s.handles| <= |s'.handles| && s'.handles[..|s.handles|] == s.handles
    requires s'.space.strong == s.space.strong + [2]
    requires s'.published == s.published && s'.taken == s.taken
    requires s'.passed == s.passed && s'.moved == s.moved && s'.destroyed == s.destroyed
    ensures BorrowsOk(s') && SlotsOk(s') && Ledger(s') && HistoryInv(s')
    ensures forall h :: 0 <= h < |s.handles| ==> HandleOk(s', h)
  {
    ExtendedSlots(s, s');
    ExtendedHandles(s, s');
    CellsAppend(s.protos, P.Fresh(FreshMem(), {}));
    assert LiveCells(s.protos) + multiset{} == LiveCells(s.protos);
  }

  lemma CreatedKeepsInv(s: State, key: Key)
    requires Inv(s) && key !in s.space.table && s.space.pool == []
    ensures Inv(SubjectEffect(s, key))
  {
    CreatedCounts(s, key);
    CreatedNames(s, key);
    ExtendedRest(s, SubjectEffect(s, key));
  }

  lemma PairCore(s: State)
    requires Core(s)
    ensures Core(PairEffect(s))
  {
    var s' := PairEffect(s);
    PairCounts(s);
    TableStays(s, s');
  }

  lemma PairCounts(s: State)
    requires Shape(s) && Counted(s)
    ensures Shape(PairEffect(s)) && Counted(PairEffect(s))
  {
    var s' := PairEffect(s);
    var i := |s.space.strong|;
    NoRefsBeyond(s.handles, i, i);
    forall j | 0 <= j < |s'.space.strong|
        ensures s'.space.strong[j] == HeldBySpace(s'.space, j) + HandleRefs(s'.handles, j) {
      RefsAppend(s.handles, s'.handles[|s.handles|], j);
      RefsAppend(s.handles + [s'.handles[|s.handles|]], s'.handles[|s.handles| + 1], j);
      assert s'.handles == s.handles + [s'.handles[|s.handles|]] + [s'.handles[|s.handles| + 1]];
    }
  }

  lemma PairKeepsInv(s: State)
    requires Inv(s)
    ensures Inv(PairEffect(s))
  {
    PairCore(s);
    ExtendedRest(s, PairEffect(s));
  }

  // ---- Recycling ---------------------------------------------------------------------------------------------------

  predicate Recycles(s: State, key: Key) {
    Shape(s) && key !in s.space.table && s.space.pool != []
  }

  function Popped(s: State): SlotId
    requires s.space.pool != []
  {
    s.space.pool[|s.space.pool| - 1]
  }

  /** `reset` never runs while anyone reads, registers on, or drains the slot; it leaves a fresh slot. */
  lemma PoppedIsClean(s: State)
    requires Inv(s) && s.space.pool != []
    ensures Popped(s) in s.space.pool && Popped(s) < |s.protos|
    ensures var p := s.protos[Popped(s)];
            && s.space.strong[Popped(s)] > 0
            && Quiescent(p)
            && P.Inv(P.Fresh(ResetMem(p.mem), p.tokens))
            && ResetMem(p.mem) == FreshMem().(boxed := p.mem.boxed)
            && Destroyed(p.mem) == Live(p.mem.cell)
  {
    var i := Popped(s);
    assert i in s.space.pool;
    assert Borrowed(s, i) && SlotOk(s, i);
    UnheldIsQuiescent(s, i);
    ResetIsFresh(s.protos[i]);
  }

  lemma PopLeavesRest(pool: seq<SlotId>)
    requires pool != []
    ensures forall i :: i in pool <==> i in pool[..|pool| - 1] || i == pool[|pool| - 1]
  {
    assert pool == pool[..|pool| - 1] + [pool[|pool| - 1]];
  }

  lemma RecycledCounts(s: State, key: Key)
    requires Core(s) && Recycles(s, key)
    ensures Shape(SubjectEffect(s, key)) && Counted(SubjectEffect(s, key))
  {
    var s' := SubjectEffect(s, key);
    var i := Popped(s);
    PopLeavesRest(s.space.pool);
    assert i in s.space.pool;
    assert InBounds(s'.space) by {
      forall k | k in s'.space.table ensures s'.space.table[k].slot < |s'.space.strong| {
        if k != key { assert k in s.space.table; }
      }
      forall j | j in s'.space.pool ensures j < |s'.space.strong| {
        assert j in s.space.pool;
      }
    }
    ListedAfterInsert(s.space.table, key, Entry(s.space.nextGeneration, i));
    forall j | 0 <= j < |s'.space.strong|
        ensures s'.space.strong[j] == HeldBySpace(s'.space, j) + HandleRefs(s'.handles, j) {
      RefsAppend(s.handles, s'.handles[|s.handles|], j);
    }
  }

  lemma RecycledNames(s: State, key: Key)
    requires Core(s) && Recycles(s, key) && Shape(SubjectEffect(s, key))
    ensures TableInv(SubjectEffect(s, key)) && PoolInv(SubjectEffect(s, key)) && IncInv(SubjectEffect(s, key))
  {
    assert Popped(s) in s.space.pool;
    PopLeavesRest(s.space.pool);
    InsertedTable(s, key, SubjectEffect(s, key));
  }

  lemma RecycledBorrows(s: State, key: Key)
    requires Inv(s) && Recycles(s, key) && Shape(SubjectEffect(s, key))
    ensures BorrowsOk(SubjectEffect(s, key))
  {
    var s' := SubjectEffect(s, key);
    assert Popped(s) in s.space.pool;
    forall j | 0 <= j < |s'.protos| ensures Borrowed(s', j) { assert Borrowed(s, j); }
  }

  lemma RecycledHandles(s: State, key: Key)
    requires Inv(s) && Recycles(s, key) && Shape(SubjectEffect(s, key))
    ensures HandlesOk(SubjectEffect(s, key))
  {
    var s' := SubjectEffect(s, key);
    assert Popped(s) in s.space.pool;
    forall h | 0 <= h < |s'.handles| ensures HandleOk(s', h) {
      if h < |s.handles| { assert HandleOk(s, h); }
    }
  }

  lemma RecycledMemory(s: State, key: Key)
    requires Inv(s) && Recycles(s, key) && Shape(SubjectEffect(s, key))
    ensures SlotsOk(SubjectEffect(s, key)) && Ledger(SubjectEffect(s, key)) && HistoryInv(SubjectEffect(s, key))
  {
    var s' := SubjectEffect(s, key);
    var i := Popped(s);
    PoppedIsClean(s);
    forall j | 0 <= j < |s'.protos| ensures SlotOk(s', j) { assert SlotOk(s, j); }
    LeaveCell(s.protos, i, s'.protos[i], s.moved, s.destroyed, Destroyed(s.protos[i].mem));
  }

  lemma RecycledKeepsInv(s: State, key: Key)
    requires Inv(s) && Recycles(s, key)
    ensures Inv(SubjectEffect(s, key))
  {
    RecycledCounts(s, key);
    RecycledNames(s, key);
    RecycledBorrows(s, key);
    RecycledHandles(s, key);
    RecycledMemory(s, key);
  }

  // ---- Dropping the pool --------------------------------------------------------------------------------------------

  lemma FirstLeavesPool(pool: seq<SlotId>)
    requires pool != [] && forall a, b :: 0 <= a < b < |pool| ==> pool[a] != pool[b]
    ensures forall i :: i in pool[1..] <==> i in pool && i != pool[0]
  {
    forall i ensures i in pool[1..] <==> i in pool && i != pool[0] {
      assert pool == [pool[0]] + pool[1..];
    }
  }

  lemma DropPooledCount(s: State, s': State, i: SlotId, j: SlotId)
    requires Shape(s) && Counted(s) && j < |s.space.strong| == |s'.space.strong| && i in s.space.pool
    requires s'.handles == s.handles && s'.space.table == s.space.table
    requires j in s'.space.pool <==> j in s.space.pool && j != i
    requires s'.space.strong[j] == s.space.strong[j] - if j == i then 1 else 0
    ensures s'.space.strong[j] == HeldBySpace(s'.space, j) + HandleRefs(s'.handles, j)
  {
  }

  lemma DropPooledCounts(s: State, i: SlotId, rest: seq<SlotId>)
    requires Shape(s) && Counted(s) && i in s.space.pool
    requires forall j :: j in rest <==> j in s.space.pool && j != i
    ensures var s' := Unref(s.(space := s.space.(pool := rest)), i); Shape(s') && Counted(s')
  {
    var s' := Unref(s.(space := s.space.(pool := rest)), i);
    forall j | 0 <= j < |s'.space.strong|
        ensures s'.space.strong[j] == HeldBySpace(s'.space, j) + HandleRefs(s'.handles, j) {
      DropPooledCount(s, s', i, j);
    }
  }

  lemma PooledIsClean(s: State, i: SlotId)
    requires Shape(s) && Counted(s) && PoolInv(s) && BorrowsOk(s) && SlotsOk(s) && i in s.space.pool
    ensures s.space.strong[i] > 0 && Quiescent(s.protos[i]) && P.Inv(s.protos[i])
  {
    assert Borrowed(s, i) && SlotOk(s, i);
    UnheldIsQuiescent(s, i);
  }

  /** The slots and the ledger do not look at the pool. */
  lemma PoolAside(s: State, rest: seq<SlotId>)
    requires Shape(s) && SlotsOk(s) && Ledger(s) && forall j :: j in rest ==> j < |s.protos|
    ensures var s1 := s.(space := s.space.(pool := rest)); Shape(s1) && SlotsOk(s1) && Ledger(s1)
  {
    SlotsStay(s, s.(space := s.space.(pool := rest)));
  }

  lemma DropPooledMemory(s: State, i: SlotId, rest: seq<SlotId>)
    requires Shape(s) && SlotsOk(s) && Ledger(s) && i < |s.protos|
    requires s.space.strong[i] > 0 && Quiescent(s.protos[i])
    requires forall j :: j in rest ==> j < |s.protos|
    ensures var s' := Unref(s.(space := s.space.(pool := rest)), i); Shape(s') && SlotsOk(s') && Ledger(s')
  {
    PoolAside(s, rest);
    UnrefMemory(s.(space := s.space.(pool := rest)), i);
  }

  lemma UnrefMemory(s: State, i: SlotId)
    requires Shape(s) && SlotsOk(s) && Ledger(s) && i < |s.protos| && s.space.strong[i] > 0 && Quiescent(s.protos[i])
    ensures Shape(Unref(s, i)) && SlotsOk(Unref(s, i)) && Ledger(Unref(s, i))
  {
    UnrefShape(s, i);
    UnrefSlots(s, i);
    UnrefLedger(s, i);
  }

  lemma DropPooledNames(s: State)
    requires Shape(s) && TableInv(s) && PoolInv(s) && IncInv(s)
    requires s.space.pool != [] && s.space.pool[0] < |s.protos| && Shape(DropPooledEffect(s))
    ensures var s' := DropPooledEffect(s); TableInv(s') && PoolInv(s') && IncInv(s')
  {
    NamesStay(s, DropPooledEffect(s));
  }

  /** What is borrowed does not depend on memory or counts. */
  lemma MemoryKeepsBorrows(s: State, s': State)
    requires Shape(s) && BorrowsOk(s) && Shape(s') && |s'.protos| == |s.protos|
    requires s'.handles == s.handles && s'.authority == s.authority
    requires forall j :: 0 <= j < |s.protos| ==> s'.protos[j] == s.protos[j].(mem := s'.protos[j].mem)
    ensures BorrowsOk(s')
  {
    forall j | 0 <= j < |s'.protos| ensures Borrowed(s', j) {
      assert Borrowed(s, j);
      assert s'.protos[j] == s.protos[j].(mem := s'.protos[j].mem);
    }
  }

  lemma DropPooledBorrows(s: State)
    requires Shape(s) && BorrowsOk(s)
    requires s.space.pool != [] && s.space.pool[0] < |s.protos| && Shape(DropPooledEffect(s))
    ensures BorrowsOk(DropPooledEffect(s))
  {
    MemoryKeepsBorrows(s, DropPooledEffect(s));
  }

  lemma DropPooledHandles(s: State)
    requires Shape(s) && Counted(s) && HandlesOk(s)
    requires s.space.pool != [] && s.space.pool[0] < |s.protos| && Shape(DropPooledEffect(s))
    ensures HandlesOk(DropPooledEffect(s))
  {
    var s' := DropPooledEffect(s);
    assert s.space.pool[0] in s.space.pool;
    forall h | 0 <= h < |s'.handles| ensures HandleOk(s', h) {
      assert HandleOk(s, h);
      if s.handles[h].Unwrapped? { UnwrappedIsAlone(s, h); }
    }
  }

  lemma DropPooledCore(s: State)
    requires Core(s) && s.space.pool != [] && s.space.pool[0] < |s.protos|
    ensures Core(DropPooledEffect(s))
  {
    var i, rest := s.space.pool[0], s.space.pool[1..];
    assert i in s.space.pool;
    FirstLeavesPool(s.space.pool);
    DropPooledCounts(s, i, rest);
    DropPooledNames(s);
  }

  lemma DropPooledRest(s: State)
    requires Shape(s) && Counted(s) && PoolInv(s) && BorrowsOk(s) && SlotsOk(s) && Ledger(s)
    requires s.space.pool != [] && s.space.pool[0] < |s.protos|
    ensures Shape(DropPooledEffect(s)) && SlotsOk(DropPooledEffect(s)) && Ledger(DropPooledEffect(s))
  {
    assert s.space.pool[0] in s.space.pool;
    PooledIsClean(s, s.space.pool[0]);
    assert forall j :: j in s.space.pool[1..] ==> j in s.space.pool;
    DropPooledMemory(s, s.space.pool[0], s.space.pool[1..]);
  }

  lemma DropPooledKeepsInv(s: State)
    requires Inv(s) && s.space.pool != [] && s.space.pool[0] < |s.protos|
    ensures Inv(DropPooledEffect(s))
  {
    DropPooledRest(s);
    DropPooledCore(s);
    DropPooledBorrows(s);
    DropPooledHandles(s);
  }

  lemma CloseKeepsInv(s: State)
    requires Inv(s)
    ensures Inv(s.(closed := true))
  {
    var s' := s.(closed := true);
    NamesStay(s, s');
    BorrowsStay(s, s');
    SlotsStay(s, s');
    forall h | 0 <= h < |s'.handles| ensures HandleOk(s', h) { assert HandleOk(s, h); }
  }
}
