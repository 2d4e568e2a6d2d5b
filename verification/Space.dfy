/** Key table, slot pool and reference counts. */
module Space {
  // A slot is known by its index; `strong` is the strong count of its `Arc`, zero once it is freed.
  // The functions are the sections that the library runs under the entries lock.


  type Key = nat
  type SlotId = nat

  const SLOT_POOL_CAP := 128

  /** `usize::MAX` on a 64-bit target: the generation at which `subject` panics. */
  const LAST_GENERATION := 0xFFFF_FFFF_FFFF_FFFF

  datatype Entry = Entry(generation: nat, slot: SlotId)

  datatype Space = Space(nextGeneration: nat, table: map<Key, Entry>, pool: seq<SlotId>, strong: seq<int>)

  const EMPTY := Space(1, map[], [], [])

  /** What `subject` found: a live generation, no pooled slot, or a slot to recycle. */
  datatype Registration =
    | Conflict
    | Created(slot: SlotId)
    | Recycled(slot: SlotId)

  predicate InBounds(sp: Space) {
    && (forall k :: k in sp.table ==> sp.table[k].slot < |sp.strong|)
    && (forall i :: i in sp.pool ==> i < |sp.strong|)
  }

  /** `subject`, under the write lock. The popped slot goes back when the key is taken. */
  function SubjectLocked(sp: Space, key: Key): (r: (Space, Registration))
    requires InBounds(sp)
    ensures r.1.Recycled? ==> r.1.slot in sp.pool && r.1.slot < |sp.strong|
  {
    var n := |sp.pool|;
    var popped := if n == 0 then sp.pool else sp.pool[..n - 1];
    if key in sp.table then
      (sp.(pool := if n == 0 then popped else popped + [sp.pool[n - 1]]), Conflict)
    else if n == 0 then
      // The new `Arc` is shared by the entry and the subject.
      var i := |sp.strong|;
      (Space(sp.nextGeneration + 1, sp.table[key := Entry(sp.nextGeneration, i)], popped, sp.strong + [2]), Created(i))
    else
      // The pool's reference becomes the subject's; the entry clones it.
      var i := sp.pool[n - 1];
      assert i in sp.pool;
      (Space(sp.nextGeneration + 1, sp.table[key := Entry(sp.nextGeneration, i)], popped,
             sp.strong[i := sp.strong[i] + 1]), Recycled(i))
  }

  /** `SmallMap::remove_if` as seen through the table. */
  function RemoveIf(table: map<Key, Entry>, key: Key, generation: nat): map<Key, Entry> {
    if key in table && table[key].generation == generation then table - {key} else table
  }

  /** `Subject::drop`, under the write lock: unlist, and pool the slot if only the subject holds it. */
  function RetireLocked(sp: Space, key: Key, generation: nat, slot: SlotId): Space
    requires InBounds(sp) && slot < |sp.strong|
  {
    if key in sp.table && sp.table[key].generation == generation then
      var listed := sp.table[key].slot;
      var sp1 := sp.(table := sp.table - {key}, strong := sp.strong[listed := sp.strong[listed] - 1]);
      if sp1.strong[slot] == 1 && |sp1.pool| < SLOT_POOL_CAP then
        sp1.(pool := sp1.pool + [slot], strong := sp1.strong[slot := sp1.strong[slot] + 1])
      else sp1
    else sp
  }
}
