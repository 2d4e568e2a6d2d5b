/**
 Generations, reference counts and the slot pool, as a state machine over the public handles.

 Every slot carries its own copy of the slot protocol. A handle's step either runs one step of the
 protocol of its slot, or one atomic section of the space: a lock section, a clone, the release of
 one reference. A `Subject` gives up the write lock before its own reference, so in between it is
 `Dying`; `into_outcome` tests the count and then acts on the answer in a second step.
*/
module Lifecycle {
  import opened Options
  import opened SlotMemory
  import opened Space
  import P = SlotProtocol

  /** `inc` is history: the incarnation of the slot that the handle captured. */
  datatype Handle =
    | Subject(key: Key, generation: nat, slot: SlotId, inc: nat, completed: bool)
    | Dying(slot: SlotId, inc: nat)
    | Publisher(slot: SlotId, inc: nat)
    | Observation(slot: SlotId, inc: nat)
    | Future(slot: SlotId, inc: nat, id: nat)
    | Unwrapped(slot: SlotId, inc: nat)
    | Refused(slot: SlotId, inc: nat)
    | Gone

  /**
   History: `incs` is the current incarnation of each slot, `nextInc` the next one to hand out,
   `published` the value each incarnation's `complete` was given, `authority` the handle that may
   complete a slot, `subjectOf` the handle of each listed key, `taken` what `into_outcome` returned.
   `closed` says that the last handle of the space itself is gone, so that its pool is being dropped.
   `passed`, `moved` and `destroyed` are the ledger of outcome values.
  */
  datatype State = State(
    space: Space,
    closed: bool,
    protos: seq<P.State>,
    handles: seq<Handle>,
    incs: seq<nat>,
    nextInc: nat,
    published: map<nat, Outcome>,
    authority: seq<nat>,
    subjectOf: map<Key, nat>,
    taken: map<nat, Outcome>,
    passed: multiset<Outcome>,
    moved: multiset<Outcome>,
    destroyed: multiset<Outcome>)

  const INITIAL :=
    State(EMPTY, false, [], [], [], 0, map[], [], map[], map[], multiset{}, multiset{}, multiset{})

  datatype Step =
    | NewSubject(key: Key)
    | NewPair
    | Observe(key: Key)
    | CloneObservation(h: nat)
    | IntoFuture(h: nat)
    | SlotStep(h: nat, step: P.Step)       // one protocol step of an operation borrowed from `h`
    | Ambient(i: SlotId, step: P.Step)     // a thread appears, or a token moves outside
    | Retire(h: nat)                       // `Subject::drop` up to the unlock
    | Release(h: nat)                      // any handle gives up its reference
    | Unwrap(h: nat)                       // `into_outcome` tests the count
    | Take(h: nat)                         // `into_outcome` owns the slot alone
    | CloseSpace                           // the last handle of the space is dropped
    | DropPooled                           // ... and with it each slot of the pool

  // ---- Well-formed references --------------------------------------------------------------------

  predicate Shape(s: State) {
    && |s.protos| == |s.incs| == |s.authority| == |s.space.strong|
    && InBounds(s.space)
    && (forall h :: 0 <= h < |s.handles| && !s.handles[h].Gone? ==> s.handles[h].slot < |s.protos|)
  }

  /** No protocol operation is running that borrows handle `h`. */
  predicate Unborrowed(p: P.State, h: nat) {
    && (forall t :: 0 <= t < |p.threads| && P.ThreadBusy(p.threads[t].pc) ==> p.threads[t].via != h)
    && (forall c :: 0 <= c < |p.calls| && !p.calls[c].pc.RegReturned? ==> p.calls[c].via != h)
  }

  /** The protocol steps that handle `h`, a handle of the right kind, may cause. */
  predicate Authorises(p: P.State, h: nat, handle: Handle, step: P.Step) {
    match step
    case StartWait(_, _, via) => handle.Observation? && via == h
    case RunThread(t) => handle.Observation? && t < |p.threads| && p.threads[t].via == h
    case Spurious(t) => handle.Observation? && t < |p.threads| && p.threads[t].via == h
    case Expire(t) => handle.Observation? && t < |p.threads| && p.threads[t].via == h
    case StartCall(_, via) => handle.Observation? && via == h
    case RunCall(c) => handle.Observation? && c < |p.calls| && p.calls[c].via == h
    case StartPoll(f, _) => handle.Future? && f == handle.id
    case RunFuture(f) => handle.Future? && f == handle.id
    case StartDrop(f) => handle.Future? && f == handle.id
    case StartComplete(_) => handle.Publisher? || (handle.Subject? && !handle.completed)
    case RunCompleter(_) => handle.Publisher? || handle.Subject?
    case _ => false
  }

  /** When a handle's last reference to its slot may be given up. */
  predicate Releasable(p: P.State, h: nat, handle: Handle) {
    match handle
    case Dying(_, _) => true
    case Refused(_, _) => true
    case Publisher(_, _) => !P.CompleterBusy(p.completer)
    case Observation(_, _) => Unborrowed(p, h)
    case Future(_, _, id) => id < |p.futures| && p.futures[id].pc.FutDropped?
    case _ => false
  }

  predicate Enabled(s: State, step: Step)
    requires Shape(s)
  {
    match step
    case NewSubject(_) => !s.closed && s.space.nextGeneration < LAST_GENERATION
    case NewPair => true
    case Observe(key) => !s.closed && key in s.space.table
    case CloneObservation(h) => h < |s.handles| && s.handles[h].Observation?
    case IntoFuture(h) =>
      h < |s.handles| && s.handles[h].Observation? && Unborrowed(s.protos[s.handles[h].slot], h)
    case SlotStep(h, step) =>
      && h < |s.handles| && !s.handles[h].Gone?
      && Authorises(s.protos[s.handles[h].slot], h, s.handles[h], step)
      && P.Enabled(s.protos[s.handles[h].slot], step)
    case Ambient(i, step) =>
      && i < |s.protos| && s.space.strong[i] > 0
      && (step.NewThread? || step.OutsideUnpark? || step.OutsidePark?)
      && P.Enabled(s.protos[i], step)
    case Retire(h) =>
      h < |s.handles| && s.handles[h].Subject? && !P.CompleterBusy(s.protos[s.handles[h].slot].completer)
    case Release(h) =>
      h < |s.handles| && !s.handles[h].Gone? && Releasable(s.protos[s.handles[h].slot], h, s.handles[h])
    case Unwrap(h) =>
      h < |s.handles| && s.handles[h].Observation? && Unborrowed(s.protos[s.handles[h].slot], h)
    case Take(h) => h < |s.handles| && s.handles[h].Unwrapped?
    case CloseSpace => !s.closed && s.space.table.Keys == {}
    case DropPooled => s.closed && s.space.pool != [] && s.space.pool[0] < |s.protos|
  }

  // ---- Effects -----------------------------------------------------------------------------------

  /** One more reference to slot `i`, held by a new handle. */
  function AddHandle(s: State, i: SlotId, handle: Handle): State
    requires i < |s.space.strong|
  {
    s.(space := s.space.(strong := s.space.strong[i := s.space.strong[i] + 1]), handles := s.handles + [handle])
  }

  /** Slot `i` starts a new incarnation, completed through handle `h`. */
  function Incarnate(s: State, i: SlotId, p: P.State, h: nat): State
    requires i < |s.protos| == |s.incs| == |s.authority|
  {
    s.(protos := s.protos[i := p], incs := s.incs[i := s.nextInc], authority := s.authority[i := h],
       nextInc := s.nextInc + 1)
  }

  /** A new slot, in its first incarnation. */
  function Extend(s: State, h: nat): State {
    s.(protos := s.protos + [P.Fresh(FreshMem(), {})], incs := s.incs + [s.nextInc], authority := s.authority + [h],
       nextInc := s.nextInc + 1)
  }

  function SubjectEffect(s: State, key: Key): State
    requires Shape(s)
  {
    var h, generation := |s.handles|, s.space.nextGeneration;
    match SubjectLocked(s.space, key)
    case (sp, Conflict) => s.(space := sp)
    case (sp, Created(i)) =>
      Extend(s, h).(space := sp, handles := s.handles + [Subject(key, generation, i, s.nextInc, false)],
                    subjectOf := s.subjectOf[key := h])
    case (sp, Recycled(i)) =>
      var mem := s.protos[i].mem;
      Incarnate(s, i, P.Fresh(ResetMem(mem), s.protos[i].tokens), h)
        .(space := sp, handles := s.handles + [Subject(key, generation, i, s.nextInc, false)],
          subjectOf := s.subjectOf[key := h], destroyed := s.destroyed + Destroyed(mem))
  }

  function PairEffect(s: State): State {
    var i := |s.space.strong|;
    Extend(s, |s.handles|)
      .(space := s.space.(strong := s.space.strong + [2]),
        handles := s.handles + [Publisher(i, s.nextInc), Observation(i, s.nextInc)])
  }

  /** The slot of handle `h` takes a protocol step to `p`; starting a completion enters the books. */
  function SlotMoved(s: State, h: nat, step: P.Step, p: P.State): State
    requires Shape(s) && h < |s.handles| && !s.handles[h].Gone?
  {
    var handle := s.handles[h];
    var s1 := s.(protos := s.protos[handle.slot := p]);
    if step.StartComplete? then
      s1.(handles := if handle.Subject? then s.handles[h := handle.(completed := true)] else s.handles,
          published := s.published[handle.inc := step.v],
          passed := s.passed + multiset{step.v})
    else s1
  }

  function RetireEffect(s: State, h: nat): State
    requires Shape(s) && h < |s.handles| && s.handles[h].Subject?
  {
    var Subject(key, generation, i, inc, _) := s.handles[h];
    s.(space := RetireLocked(s.space, key, generation, i),
       handles := s.handles[h := Dying(i, inc)],
       subjectOf := s.subjectOf - {key})
  }

  /** One reference to slot `i` goes; with the last one the slot is destroyed. */
  function Unref(s: State, i: SlotId): State
    requires i < |s.protos| == |s.space.strong|
  {
    var mem := s.protos[i].mem;
    var s1 := s.(space := s.space.(strong := s.space.strong[i := s.space.strong[i] - 1]));
    if s.space.strong[i] == 1 then
      s1.(protos := s.protos[i := s.protos[i].(mem := DropMem(mem))], destroyed := s.destroyed + Destroyed(mem))
    else s1
  }

  function ReleaseEffect(s: State, h: nat): State
    requires Shape(s) && h < |s.handles| && !s.handles[h].Gone?
  {
    Unref(s.(handles := s.handles[h := Gone]), s.handles[h].slot)
  }

  /** The pool gives up its first slot. */
  function DropPooledEffect(s: State): State
    requires Shape(s) && s.space.pool != [] && s.space.pool[0] < |s.protos|
  {
    Unref(s.(space := s.space.(pool := s.space.pool[1..])), s.space.pool[0])
  }

  function UnwrapEffect(s: State, h: nat): State
    requires Shape(s) && h < |s.handles| && s.handles[h].Observation?
  {
    var Observation(i, inc) := s.handles[h];
    s.(handles := s.handles[h := if s.space.strong[i] == 1 then Unwrapped(i, inc) else Refused(i, inc)])
  }

  /** `into_outcome` with the slot to itself: move the value out if published, then destroy the slot. */
  function TakeEffect(s: State, h: nat): State
    requires Shape(s) && h < |s.handles| && s.handles[h].Unwrapped?
  {
    var Unwrapped(i, inc) := s.handles[h];
    var mem := s.protos[i].mem;
    var out := if mem.word.completed then mem.cell else None;
    s.(space := s.space.(strong := s.space.strong[i := s.space.strong[i] - 1]),
       handles := s.handles[h := Gone],
       protos := s.protos[i := s.protos[i].(mem := DropMem(MoveOut(mem)))],
       taken := if out.Some? then s.taken[inc := out.value] else s.taken,
       moved := s.moved + Live(out),
       destroyed := s.destroyed + Destroyed(MoveOut(mem)))
  }

  function Apply(s: State, step: Step): State
    requires Shape(s) && Enabled(s, step)
  {
    match step
    case NewSubject(key) => SubjectEffect(s, key)
    case NewPair => PairEffect(s)
    case Observe(key) =>
      var i := s.space.table[key].slot;
      AddHandle(s, i, Observation(i, s.incs[i]))
    case CloneObservation(h) => AddHandle(s, s.handles[h].slot, s.handles[h])
    case IntoFuture(h) =>
      var Observation(i, inc) := s.handles[h];
      s.(handles := s.handles[h := Future(i, inc, |s.protos[i].futures|)],
         protos := s.protos[i := P.Apply(s.protos[i], P.NewFuture(h))])
    case SlotStep(h, step) => SlotMoved(s, h, step, P.Apply(s.protos[s.handles[h].slot], step))
    case Ambient(i, step) => s.(protos := s.protos[i := P.Apply(s.protos[i], step)])
    case Retire(h) => RetireEffect(s, h)
    case Release(h) => ReleaseEffect(s, h)
    case Unwrap(h) => UnwrapEffect(s, h)
    case Take(h) => TakeEffect(s, h)
    case CloseSpace => s.(closed := true)
    case DropPooled => DropPooledEffect(s)
  }

  // ---- The invariant -----------------------------------------------------------------------------

  predicate Refers(handle: Handle, i: SlotId) {
    !handle.Gone? && handle.slot == i
  }

  /** A handle that still speaks for the incarnation it captured; a dying subject no longer does. */
  predicate Current(handle: Handle) {
    !handle.Gone? && !handle.Dying?
  }

  function HandleRefs(handles: seq<Handle>, i: SlotId): nat {
    if handles == [] then 0
    else (if Refers(handles[0], i) then 1 else 0) + HandleRefs(handles[1..], i)
  }

  predicate Listed(table: map<Key, Entry>, i: SlotId) {
    exists k :: k in table && table[k].slot == i
  }

  /** References from the table and from the pool. */
  function HeldBySpace(sp: Space, i: SlotId): nat {
    (if Listed(sp.table, i) then 1 else 0) + (if i in sp.pool then 1 else 0)
  }

  /** A strong count is exactly its map, pool and handle references. */
  predicate Counted(s: State)
    requires Shape(s)
  {
    forall i :: 0 <= i < |s.space.strong| ==>
      s.space.strong[i] == HeldBySpace(s.space, i) + HandleRefs(s.handles, i)
  }

  /** The entry of `k` is that of an undropped subject: same key, generation and slot. */
  predicate EntryOk(s: State, k: Key)
    requires Shape(s)
  {
    && k in s.space.table && k in s.subjectOf
    && s.subjectOf[k] < |s.handles|
    && s.handles[s.subjectOf[k]].Subject?
    && s.handles[s.subjectOf[k]].key == k
    && s.space.table[k] == Entry(s.handles[s.subjectOf[k]].generation, s.handles[s.subjectOf[k]].slot)
    && s.space.table[k].generation < s.space.nextGeneration
  }

  /** An undropped subject is the one listed under its key. */
  predicate SubjectListed(s: State, h: nat)
    requires Shape(s) && h < |s.handles|
  {
    s.handles[h].Subject? ==>
      s.handles[h].key in s.space.table && s.handles[h].key in s.subjectOf && s.subjectOf[s.handles[h].key] == h
  }

  /** The table lists exactly the undropped subjects, each slot once, under generations used once. */
  ghost predicate TableInv(s: State)
    requires Shape(s)
  {
    && (forall k {:trigger EntryOk(s, k)} :: k in s.space.table ==> EntryOk(s, k))
    && (forall k {:trigger k in s.subjectOf} :: k in s.subjectOf ==> k in s.space.table)
    && (forall h {:trigger SubjectListed(s, h)} :: 0 <= h < |s.handles| ==> SubjectListed(s, h))
    && (forall k, l {:trigger s.space.table[k], s.space.table[l]} ::
        k in s.space.table && l in s.space.table && k != l ==>
          && s.space.table[k].slot != s.space.table[l].slot
          && s.space.table[k].generation != s.space.table[l].generation)
  }

  /** A pooled slot is in the pool once, unlisted, and no handle but a dying subject refers to it. */
  predicate PoolInv(s: State)
    requires Shape(s)
  {
    && |s.space.pool| <= SLOT_POOL_CAP
    && (forall a, b :: 0 <= a < b < |s.space.pool| ==> s.space.pool[a] != s.space.pool[b])
    && (forall k :: k in s.space.table ==> s.space.table[k].slot !in s.space.pool)
    && (forall h :: 0 <= h < |s.handles| && Current(s.handles[h]) ==> s.handles[h].slot !in s.space.pool)
  }

  /** A current handle's slot is in the incarnation that the handle captured; incarnations are never reused. */
  predicate IncInv(s: State)
    requires Shape(s)
  {
    && (forall i :: 0 <= i < |s.incs| ==> s.incs[i] < s.nextInc)
    && (forall i, j :: 0 <= i < j < |s.incs| ==> s.incs[i] != s.incs[j])
    && (forall h :: 0 <= h < |s.handles| && Current(s.handles[h]) ==> s.handles[h].inc == s.incs[s.handles[h].slot])
  }

  /** Every running protocol operation borrows a handle of the right kind on this very slot. */
  predicate Borrowed(s: State, i: SlotId)
    requires Shape(s) && i < |s.protos|
  {
    var p := s.protos[i];
    && (forall t :: 0 <= t < |p.threads| && P.ThreadBusy(p.threads[t].pc) ==> ObservesAt(s, p.threads[t].via, i))
    && (forall c :: 0 <= c < |p.calls| && !p.calls[c].pc.RegReturned? ==> ObservesAt(s, p.calls[c].via, i))
    && (forall f :: 0 <= f < |p.futures| && !p.futures[f].pc.FutDropped? ==>
          && p.futures[f].via < |s.handles|
          && s.handles[p.futures[f].via].Future?
          && s.handles[p.futures[f].via].slot == i
          && s.handles[p.futures[f].via].id == f)
    && (P.CompleterBusy(p.completer) ==>
          && s.authority[i] < |s.handles|
          && (s.handles[s.authority[i]].Subject? || s.handles[s.authority[i]].Publisher?)
          && s.handles[s.authority[i]].slot == i)
  }

  predicate ObservesAt(s: State, h: nat, i: SlotId) {
    h < |s.handles| && s.handles[h].Observation? && s.handles[h].slot == i
  }

  /** What each kind of handle knows about the protocol of its slot. */
  predicate HandleOk(s: State, h: nat)
    requires Shape(s) && h < |s.handles|
  {
    match s.handles[h]
    case Subject(_, _, i, _, completed) => s.authority[i] == h && (completed <==> !s.protos[i].completer.Pending?)
    case Publisher(i, _) => s.authority[i] == h
    case Future(i, _, id) => id < |s.protos[i].futures| && s.protos[i].futures[id].via == h
    case Unwrapped(i, _) => s.space.strong[i] == 1
    case _ => true
  }

  /** A live slot obeys the slot protocol, and its cell holds what its incarnation was completed with. */
  ghost predicate SlotOk(s: State, i: SlotId)
    requires Shape(s) && i < |s.protos|
  {
    && (s.space.strong[i] > 0 ==>
          && P.Inv(s.protos[i])
          && (s.protos[i].completer.Pending? <==> s.incs[i] !in s.published)
          && (s.incs[i] in s.published ==> s.protos[i].mem.cell == Some(s.published[s.incs[i]]))
          && s.incs[i] !in s.taken)
    && (s.space.strong[i] == 0 ==> s.protos[i].mem.cell.None?)
  }

  /** The live cells of all slots. */
  function LiveCells(protos: seq<P.State>): multiset<Outcome> {
    if protos == [] then multiset{} else Live(protos[0].mem.cell) + LiveCells(protos[1..])
  }

  /** Every value ever passed to `complete` is in a live cell, moved out, or destroyed: exactly one of them. */
  predicate Ledger(s: State) {
    s.passed == LiveCells(s.protos) + s.moved + s.destroyed
  }

  predicate HistoryInv(s: State) {
    && (forall n :: n in s.published ==> n < s.nextInc)
    && (forall n :: n in s.taken ==> n in s.published && s.taken[n] == s.published[n])
  }

  ghost predicate SlotsOk(s: State)
    requires Shape(s)
  {
    forall i {:trigger SlotOk(s, i)} :: 0 <= i < |s.protos| ==> SlotOk(s, i)
  }

  ghost predicate BorrowsOk(s: State)
    requires Shape(s)
  {
    forall i {:trigger Borrowed(s, i)} :: 0 <= i < |s.protos| ==> Borrowed(s, i)
  }

  ghost predicate HandlesOk(s: State)
    requires Shape(s)
  {
    forall h {:trigger HandleOk(s, h)} :: 0 <= h < |s.handles| ==> HandleOk(s, h)
  }

  /** References, names and incarnations. */
  ghost predicate Core(s: State) {
    && Shape(s)
    && Counted(s)
    && TableInv(s)
    && PoolInv(s)
    && IncInv(s)
  }

  ghost predicate Inv(s: State) {
    && Core(s)
    && BorrowsOk(s)
    && HandlesOk(s)
    && SlotsOk(s)
    && Ledger(s)
    && HistoryInv(s)
  }
}
