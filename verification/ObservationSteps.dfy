/** The object and the machine. */
module ObservationSteps {
  // For a reachable state of the machine, and an object whose table, pool, counts and slots are that
  // state's: what `subject`, `observe` and a subject's drop leave in the object is what the machine's
  // steps leave in the state.

  import opened SlotMemory
  import opened Space
  import opened ObservationSpaces
  import opened Lifecycle
  import opened LifecycleRecycling
  import opened LifecycleHistory

  /** The memory of every slot of the machine. */
  function MemoriesIn(s: State): (ms: seq<SlotMem>)
    ensures |ms| == |s.protos| && forall i :: 0 <= i < |ms| ==> ms[i] == s.protos[i].mem
  {
    seq(|s.protos|, i requires 0 <= i < |s.protos| => s.protos[i].mem)
  }

  // ---- subject ---------------------------------------------------------------------------------------------

  lemma CreatedMemories(s: State, key: Key)
    requires Shape(s) && key !in s.space.table && s.space.pool == []
    ensures SubjectLocked(s.space, key).1 == Created(|s.protos|)
    ensures MemoriesIn(SubjectEffect(s, key)) == MemoriesIn(s) + [FreshMem()]
  {
  }

  lemma RecycledMemories(s: State, key: Key)
    requires Shape(s) && Recycles(s, key) && LifecycleRecycling.Popped(s) < |s.protos|
    ensures SubjectLocked(s.space, key).1 == Recycled(LifecycleRecycling.Popped(s))
    ensures var i := LifecycleRecycling.Popped(s);
            MemoriesIn(SubjectEffect(s, key)) == MemoriesIn(s)[i := ResetMem(s.protos[i].mem)]
  {
  }

  /** The slots of the object after `Register` are those of the machine after its step. */
  lemma RegisterIsTheStep(s: State, key: Key)
    requires Reachable(s) && Shape(s)
    ensures SubjectLocked(s.space, key).0 == SubjectEffect(s, key).space
    ensures RegisteredMemories(MemoriesIn(s), SubjectLocked(s.space, key).1) == MemoriesIn(SubjectEffect(s, key))
  {
    ReachableInv(s);
    if key in s.space.table {
      ConflictChangesNothing(s, key);
    } else if s.space.pool == [] {
      CreatedMemories(s, key);
    } else {
      PoppedIsClean(s);
      RecycledMemories(s, key);
    }
  }

  /**
   The slot that `Register` hands out is pending, with an empty cell and an empty registry, whatever
   its last generation left in it; it was not in use, and no other slot changes.
  */
  lemma RegisteredSlotIsPending(s: State, key: Key)
    requires Reachable(s) && Shape(s) && key !in s.space.table
    ensures var r := SubjectLocked(s.space, key).1;
            && !r.Conflict?
            && (r.Recycled? <==> s.space.pool != [])
            && var after := RegisteredMemories(MemoriesIn(s), r);
            && r.slot < |after| && after[r.slot] == FreshMem().(boxed := after[r.slot].boxed)
            && (forall j :: 0 <= j < |s.protos| && j != r.slot ==> j < |after| && after[j] == s.protos[j].mem)
            && (forall h :: 0 <= h < |s.handles| && Current(s.handles[h]) ==> s.handles[h].slot != r.slot)
  {
    ReachableInv(s);
    if s.space.pool == [] {
      CreatedMemories(s, key);
    } else {
      PoppedIsClean(s);
      RecycledMemories(s, key);
    }
  }

  // ---- observe ---------------------------------------------------------------------------------------------

  /**
   The machine's `Observe` is one more handle on the slot listed under the key, which is the slot of
   the key's undropped subject, in that subject's incarnation; it is enabled exactly if there is one.
  */
  lemma ObserveIsTheStep(s: State, key: Key)
    requires Reachable(s) && Shape(s) && !s.closed
    ensures Enabled(s, Observe(key)) <==>
              exists h :: 0 <= h < |s.handles| && s.handles[h].Subject? && s.handles[h].key == key
    ensures forall h :: 0 <= h < |s.handles| && s.handles[h].Subject? && s.handles[h].key == key ==>
              && s.space.table[key].slot == s.handles[h].slot
              && Apply(s, Observe(key)).handles == s.handles + [Observation(s.handles[h].slot, s.handles[h].inc)]
              && Apply(s, Observe(key)).space.strong
                 == s.space.strong[s.handles[h].slot := s.space.strong[s.handles[h].slot] + 1]
              && Apply(s, Observe(key)).protos == s.protos
  {
    ReachableInv(s);
    if key in s.space.table {
      assert EntryOk(s, key);
    }
    forall h | 0 <= h < |s.handles| && s.handles[h].Subject? && s.handles[h].key == key
      ensures key in s.space.table && s.space.table[key].slot == s.handles[h].slot
      ensures s.incs[s.handles[h].slot] == s.handles[h].inc
    {
      SubjectIsListed(s, h);
      assert Current(s.handles[h]);
    }
  }

  // ---- Subject::drop -----------------------------------------------------------------------------------------

  /** The generation of an undropped subject is the one listed, so its drop removes its own entry and no other. */
  lemma RetireIsTheStep(s: State, h: nat)
    requires Reachable(s) && Shape(s) && h < |s.handles| && s.handles[h].Subject?
    ensures var Subject(key, generation, i, _, _) := s.handles[h];
            && RetireEffect(s, h).space == RetireLocked(s.space, key, generation, i)
            && key in s.space.table && s.space.table[key] == Entry(generation, i)
            && RetireLocked(s.space, key, generation, i).table == s.space.table - {key}
  {
    ReachableInv(s);
    SubjectIsListed(s, h);
  }
}
