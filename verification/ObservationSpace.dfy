/** The space's key table and slot pool as the library updates them, under the entries lock. */
module ObservationSpaces {
  import opened Options
  import opened SlotMemory
  import opened Space
  import opened SmallMaps
  import opened CompletionSlots
  import opened WaiterLists

  /** The registries of some slots. */
  ghost function Registries(slots: seq<Slot>): set<WaiterList>
    reads slots
  {
    set s | s in slots && s.waiters != null :: s.waiters
  }

  ghost function MemoriesOf(slots: seq<Slot>): (ms: seq<SlotMem>)
    reads slots, Registries(slots)
    ensures |ms| == |slots| && forall i :: 0 <= i < |slots| ==> ms[i] == slots[i].Mem()
  {
    seq(|slots|, i requires 0 <= i < |slots| reads slots, Registries(slots) => slots[i].Mem())
  }

  /** The space and the slot that `pool.pop()` yields. */
  function Popped(sp: Space): (Space, Option<SlotId>) {
    if sp.pool == [] then (sp, None) else (sp.(pool := sp.pool[..|sp.pool| - 1]), Some(sp.pool[|sp.pool| - 1]))
  }

  /** The space after a generation was numbered and the popped slot, or a new one, taken for the subject. */
  function Taken(sp: Space, pooled: Option<SlotId>): (Space, Registration) {
    var sp1 := sp.(nextGeneration := sp.nextGeneration + 1);
    if pooled.Some? then (sp1, Recycled(pooled.value)) else (sp1.(strong := sp.strong + [1]), Created(|sp.strong|))
  }

  /** The space after a clone of a slot was listed. */
  function Listed(sp: Space, key: Key, entry: Entry): Space
    requires entry.slot < |sp.strong|
  {
    sp.(table := sp.table[key := entry], strong := sp.strong[entry.slot := sp.strong[entry.slot] + 1])
  }

  /** The space after a vacant key was registered on the popped slot, or on a new one. */
  function WithEntry(sp: Space, key: Key, pooled: Option<SlotId>): (Space, Registration)
    requires pooled.Some? ==> pooled.value < |sp.strong|
  {
    var (sp1, r) := Taken(sp, pooled);
    (Listed(sp1, key, Entry(sp.nextGeneration, r.slot)), r)
  }

  lemma EntryInBounds(sp: Space, key: Key, pooled: Option<SlotId>)
    requires InBounds(sp) && (pooled.Some? ==> pooled.value < |sp.strong|)
    ensures InBounds(WithEntry(sp, key, pooled).0)
  {
  }

  /** The section of `subject` is a pop followed by an insertion when the key is vacant. */
  lemma VacantIsRegistered(sp: Space, key: Key, sp1: Space, pooled: Option<SlotId>)
    requires InBounds(sp) && key !in sp.table && (sp1, pooled) == Popped(sp)
    ensures pooled.Some? ==> pooled.value < |sp1.strong|
    ensures WithEntry(sp1, key, pooled) == SubjectLocked(sp, key)
  {
    if sp.pool != [] {
      assert sp.pool[|sp.pool| - 1] in sp.pool;
    }
    assert (sp.strong + [1])[|sp.strong| := 2] == sp.strong + [2];
  }

  lemma TakenIsConflict(sp: Space, key: Key)
    requires InBounds(sp) && key in sp.table
    ensures SubjectLocked(sp, key) == (sp, Conflict)
  {
    if sp.pool != [] {
      assert sp.pool[..|sp.pool| - 1] + [sp.pool[|sp.pool| - 1]] == sp.pool;
    }
  }

  /** What a registration does to the memory of the slots: nothing, a new slot, or the reset of the recycled one. */
  function RegisteredMemories(memories: seq<SlotMem>, r: Registration): seq<SlotMem> {
    match r
    case Conflict => memories
    case Created(_) => memories + [FreshMem()]
    case Recycled(i) => if i < |memories| then memories[i := ResetMem(memories[i])] else memories
  }

  /** `strong` stands for the counts that the `Arc`s of all slots keep; `slots` is what they point to. */
  class ObservationSpace {
    var nextGeneration: nat
    const table: SmallMap
    var pool: seq<SlotId>
    var strong: seq<int>
    var slots: seq<Slot>

    /** Every slot is an object of its own, with a registry of its own. */
    ghost predicate Apart()
      reads this`slots, slots
    {
      forall a, b :: 0 <= a < b < |slots| ==>
        && slots[a] != slots[b]
        && (slots[a].waiters != null ==> slots[a].waiters != slots[b].waiters)
    }

    ghost predicate Valid()
      reads this, table, slots
    {
      && SmallMaps.Valid(table.storage)
      && InBounds(Contents())
      && |slots| == |strong|
      && Apart()
    }

    /** The value of the space that the lifecycle machine works on. */
    ghost function Contents(): Space
      reads this, table
    {
      Space(nextGeneration, View(table.storage), pool, strong)
    }

    /** The memory of every slot. */
    ghost function Memories(): (ms: seq<SlotMem>)
      reads this`slots, slots, Registries(slots)
      ensures |ms| == |slots|
    {
      MemoriesOf(slots)
    }

    constructor ()
      ensures Valid() && fresh(table) && View(table.storage) == map[]
      ensures nextGeneration == 1 && pool == [] && strong == [] && slots == []
    {
      nextGeneration, pool, strong, slots := 1, [], [], [];
      table := new SmallMap();
    }

    /** `subject`, from the lock to the unlock: pop, test, number, reset or allocate, insert. */
    method Register(key: Key) returns (r: Registration)
      requires Valid() && nextGeneration < LAST_GENERATION
      modifies this, table, slots, Registries(slots)
      ensures Valid() && (Contents(), r) == SubjectLocked(old(Contents()), key)
      ensures Memories() == RegisteredMemories(old(Memories()), r)
    {
      ghost var before := Contents();
      var pooled := Pop();
      assert Registries(slots) == old(Registries(slots));
      var vacant := table.IsVacant(key);
      if vacant {
        VacantIsRegistered(before, key, Contents(), pooled);
        r := RegisterVacant(key, pooled);
      } else {
        PutBack(before, pooled);
        TakenIsConflict(before, key);
        r := Conflict;
      }
    }

    /** The rest of `subject` once the key is known to be vacant. */
    method RegisterVacant(key: Key, pooled: Option<SlotId>) returns (r: Registration)
      requires Valid() && key !in View(table.storage) && (pooled.Some? ==> pooled.value < |strong|)
      modifies this`nextGeneration, this`strong, this`slots, table, slots, Registries(slots)
      ensures Valid() && (Contents(), r) == WithEntry(old(Contents()), key, pooled)
      ensures Memories() == RegisteredMemories(old(Memories()), r)
    {
      EntryInBounds(Contents(), key, pooled);
      var entry;
      entry, r := TakeSlot(pooled);
      List(key, entry);
    }

    /** `insert_vacant` with a clone of the slot; the slots are not touched. */
    method List(key: Key, entry: Entry)
      requires SmallMaps.Valid(table.storage) && key !in View(table.storage)
      requires Apart() && |slots| == |strong| && entry.slot < |strong|
      modifies this`strong, table
      ensures SmallMaps.Valid(table.storage) && Apart() && |slots| == |strong|
      ensures Contents() == Listed(old(Contents()), key, entry) && Memories() == old(Memories())
    {
      strong := strong[entry.slot := strong[entry.slot] + 1];
      table.InsertVacant(key, entry);
    }

    /** `pool.pop()`. */
    method Pop() returns (pooled: Option<SlotId>)
      requires Valid()
      modifies this`pool
      ensures Valid() && Memories() == old(Memories())
      ensures (Contents(), pooled) == Popped(old(Contents())) && (pooled.Some? ==> pooled.value < |strong|)
    {
      pooled := None;
      if |pool| > 0 {
        pooled := Some(pool[|pool| - 1]);
        assert pool[|pool| - 1] in pool;
        pool := pool[..|pool| - 1];
        assert forall i :: i in pool ==> i in old(pool);
      }
    }

    /** The popped slot is pooled again. */
    method PutBack(ghost before: Space, pooled: Option<SlotId>)
      requires Valid() && InBounds(before) && (Contents(), pooled) == Popped(before)
      modifies this`pool
      ensures Valid() && Contents() == before && Memories() == old(Memories())
    {
      if pooled.Some? {
        pool := pool + [pooled.value];
      }
      assert Contents() == before;
    }

    /** Number the generation; reset the pooled slot, whose reference goes to the subject, or allocate one. */
    method TakeSlot(pooled: Option<SlotId>) returns (entry: Entry, r: Registration)
      requires Apart() && |slots| == |strong| && (pooled.Some? ==> pooled.value < |slots|)
      modifies this`nextGeneration, this`strong, this`slots, slots, Registries(slots)
      ensures Apart() && |slots| == |strong| && table.storage == old(table.storage)
      ensures (Contents(), r) == Taken(old(Contents()), pooled) && entry == Entry(old(nextGeneration), r.slot)
      ensures Memories() == RegisteredMemories(old(Memories()), r)
    {
      entry := Entry(nextGeneration, if pooled.Some? then pooled.value else |slots|);
      nextGeneration := nextGeneration + 1;
      if pooled.Some? {
        ResetSlot(pooled.value);
        r := Recycled(pooled.value);
      } else {
        r := Created(|slots|);
        AllocateSlot();
      }
    }

    /** `slot.reset()` on one of the slots. */
    method ResetSlot(slot: SlotId)
      requires slot < |slots| && Apart()
      modifies slots, Registries(slots)
      ensures table.storage == old(table.storage)
      ensures Apart() && Memories() == old(Memories())[slot := ResetMem(old(Memories())[slot])]
    {
      var destroyed := slots[slot].Reset();
    }

    /** `Arc::new(Slot::new())`. */
    method AllocateSlot()
      requires Apart()
      modifies this`slots, this`strong
      ensures Apart() && Memories() == old(Memories()) + [FreshMem()] && |slots| == |old(slots)| + 1
      ensures strong == old(strong) + [1]
    {
      var slot := new Slot();
      slots, strong := slots + [slot], strong + [1];
    }

    /** `observe`: clone the slot of the retained generation. */
    method Observe(key: Key) returns (slot: Option<SlotId>)
      requires Valid()
      modifies this`strong
      ensures Valid() && nextGeneration == old(nextGeneration) && pool == old(pool)
      ensures table.storage == old(table.storage)
      ensures slot.None? <==> key !in View(table.storage)
      ensures slot.None? ==> strong == old(strong)
      ensures key in View(table.storage) ==>
                var i := View(table.storage)[key].slot;
                slot == Some(i) && strong == old(strong)[i := old(strong)[i] + 1]
    {
      var found := table.Get(key);
      if found.Some? {
        slot := Some(found.value.slot);
        strong := strong[found.value.slot := strong[found.value.slot] + 1];
      } else {
        slot := None;
      }
    }

    /** `Subject::drop`, from the lock to the unlock. */
    method Retire(key: Key, generation: nat, slot: SlotId)
      requires Valid() && slot < |strong|
      modifies this`strong, this`pool, table
      ensures Valid() && Contents() == RetireLocked(old(Contents()), key, generation, slot)
      ensures !(key in old(View(table.storage)) && old(View(table.storage))[key].generation == generation) ==>
                Contents() == old(Contents())
    {
      ghost var before := Contents();
      var found := table.Get(key);
      var removed := table.RemoveIf(key, generation);
      if removed {
        // The removed entry drops its reference.
        strong := strong[found.value.slot := strong[found.value.slot] - 1];
        if strong[slot] == 1 && |pool| < SLOT_POOL_CAP {
          pool := pool + [slot];
          strong := strong[slot := strong[slot] + 1];
        }
      }
      assert forall k :: k in View(table.storage) ==> k in before.table;
    }
  }
}
