/** Guarantees over every run of the lifecycle machine. */
module LifecycleTheorems {
  // Whatever the handles do and in whatever order: generations do not mix, pooled slots are idle,
  // counts are exact, outcomes are conserved, retention is bounded.

  import opened Options
  import opened SlotMemory
  import opened Space
  import opened Lifecycle
  import opened LifecycleInvariant
  import opened LifecycleRecycling
  import opened LifecycleHistory
  import opened SlotBorrowing
  import P = SlotProtocol

  // ---- Generation isolation --------------------------------------------------------------------------

  /** `try_get` through handle `h`, at this instant. */
  function Read(s: State, h: nat): Option<Outcome>
    requires Shape(s) && h < |s.handles| && !s.handles[h].Gone?
  {
    var mem := s.protos[s.handles[h].slot].mem;
    if mem.word.completed then mem.cell else None
  }

  /** A current handle reads what its own incarnation was completed with, or nothing, whatever its slot held before. */
  lemma ReadsOwnGeneration(run: seq<State>, k: nat, h: nat)
    requires IsRun(run) && k < |run| && h < |run[k].handles| && Current(run[k].handles[h])
    ensures Shape(run[k])
    ensures run[k].handles[h].inc == run[k].incs[run[k].handles[h].slot]
    ensures Read(run[k], h).Some? ==>
              && run[k].handles[h].inc in run[k].published
              && Read(run[k], h).value == run[k].published[run[k].handles[h].inc]
    ensures run[k].handles[h].inc !in run[k].published ==> Read(run[k], h).None?
  {
    var s := run[k];
    RunInv(run, k);
    RefsPositive(s.handles, h, s.handles[h].slot);
    assert SlotOk(s, s.handles[h].slot);
  }

  /** Whatever a wait, a poll or a registration through a current handle's slot answered, it answered for the handle's
      own incarnation. */
  lemma AnswersAreOwnGeneration(run: seq<State>, k: nat, h: nat)
    requires IsRun(run) && k < |run| && h < |run[k].handles| && Current(run[k].handles[h])
    ensures Shape(run[k])
    ensures var inc := run[k].handles[h].inc; var p := run[k].protos[run[k].handles[h].slot];
            && (forall t :: 0 <= t < |p.threads| && p.threads[t].pc.WaitReturned? ==>
                  inc in run[k].published && p.threads[t].pc.result == Some(run[k].published[inc]))
            && (forall f :: 0 <= f < |p.futures| && p.futures[f].pc.FutReady? ==>
                  inc in run[k].published && p.futures[f].pc.result == Some(run[k].published[inc]))
            && (forall c :: 0 <= c < |p.calls| && p.calls[c].pc == P.RegReturned(true) ==> inc in run[k].published)
  {
    var s := run[k];
    var i := s.handles[h].slot;
    RunInv(run, k);
    RefsPositive(s.handles, h, i);
    assert SlotOk(s, i);
    AnswersAreTheCell(s.protos[i]);
  }

  lemma AnswersAreTheCell(p: P.State)
    requires P.Inv(p)
    ensures forall t :: 0 <= t < |p.threads| && p.threads[t].pc.WaitReturned? ==>
                          p.mem.word.completed && p.threads[t].pc.result == p.mem.cell
    ensures forall f :: 0 <= f < |p.futures| && p.futures[f].pc.FutReady? ==>
                          p.mem.word.completed && p.futures[f].pc.result == p.mem.cell
    ensures forall c :: 0 <= c < |p.calls| && p.calls[c].pc == P.RegReturned(true) ==> p.mem.word.completed
  {
    forall t | 0 <= t < |p.threads| && p.threads[t].pc.WaitReturned?
      ensures p.mem.word.completed && p.threads[t].pc.result == p.mem.cell { assert P.ThreadOk(p, t); }
    forall f | 0 <= f < |p.futures| && p.futures[f].pc.FutReady?
      ensures p.mem.word.completed && p.futures[f].pc.result == p.mem.cell { assert P.FutureOk(p, f); }
    forall c | 0 <= c < |p.calls| && p.calls[c].pc == P.RegReturned(true)
      ensures p.mem.word.completed { assert P.CallOk(p, c); }
  }

  /**
   Once any handle of an incarnation reads `v`, that handle and every sibling of the same
   incarnation, made before or after, reads `v` at every later instant, through any recycling.
  */
  lemma ReadsAgreeForEver(run: seq<State>, j: nat, g: nat, k: nat, h: nat)
    requires IsRun(run) && j <= k < |run|
    requires g < |run[j].handles| && Current(run[j].handles[g])
    requires h < |run[k].handles| && Current(run[k].handles[h])
    requires run[k].handles[h].inc == run[j].handles[g].inc
    requires Shape(run[j]) && Read(run[j], g).Some?
    ensures Shape(run[k]) && Read(run[k], h) == Read(run[j], g)
  {
    RunSince(run, j, k);
    ReadsOwnGeneration(run, j, g);
    ReadsOwnGeneration(run, k, h);
    StillCompleted(run, j, g, k, h);
  }

  lemma StillCompleted(run: seq<State>, j: nat, g: nat, k: nat, h: nat)
    requires IsRun(run) && j <= k < |run|
    requires g < |run[j].handles| && Current(run[j].handles[g])
    requires h < |run[k].handles| && Current(run[k].handles[h])
    requires run[k].handles[h].inc == run[j].handles[g].inc
    requires Shape(run[j]) && Read(run[j], g).Some?
    ensures Shape(run[k]) && Read(run[k], h).Some?
    ensures run[k].handles[h].slot == run[j].handles[g].slot
  {
    RunSince(run, j, k);
    RunInv(run, j);
    RunInv(run, k);
    var s, s' := run[j], run[k];
    var i := s'.handles[h].slot;
    assert SlotSince(s, s', i);
    RefsPositive(s'.handles, h, i);
    assert SlotOk(s', i);
  }

  // ---- Making handles --------------------------------------------------------------------------------

  /** A clone is one more handle of the same incarnation on the same slot: it reads what the original reads. */
  lemma CloneReadsTheSame(run: seq<State>, k: nat, h: nat)
    requires IsRun(run) && k < |run| && Shape(run[k]) && h < |run[k].handles| && run[k].handles[h].Observation?
    ensures Enabled(run[k], CloneObservation(h))
    ensures var s' := Apply(run[k], CloneObservation(h)); var g := |run[k].handles|;
            && Shape(s') && |s'.handles| == g + 1 && s'.handles[..g] == run[k].handles
            && s'.handles[g].Observation? && s'.handles[g].inc == run[k].handles[h].inc
            && s'.handles[g].slot == run[k].handles[h].slot
            && Read(s', g) == Read(run[k], h)
            && s'.space.strong[s'.handles[g].slot] == run[k].space.strong[s'.handles[g].slot] + 1
  {
    RunInv(run, k);
  }

  /** Awaiting an observation keeps its slot and incarnation; the future is new, idle, and has no wakers. */
  lemma FutureAwaitsTheSame(run: seq<State>, k: nat, h: nat)
    requires IsRun(run) && k < |run| && Shape(run[k]) && h < |run[k].handles| && run[k].handles[h].Observation?
    requires Unborrowed(run[k].protos[run[k].handles[h].slot], h)
    ensures Enabled(run[k], IntoFuture(h))
    ensures var s' := Apply(run[k], IntoFuture(h));
            && Shape(s') && |s'.handles| == |run[k].handles| && s'.handles[h].Future?
            && s'.handles[h].inc == run[k].handles[h].inc && s'.handles[h].slot == run[k].handles[h].slot
            && Read(s', h) == Read(run[k], h)
            && var futures := s'.protos[s'.handles[h].slot].futures;
            && s'.handles[h].id + 1 == |futures|
            && futures[s'.handles[h].id].pc.FutIdle? && futures[s'.handles[h].id].wakers == []
  {
    RunInv(run, k);
  }

  /** A pair is a publisher and an observation of one new incarnation, pending, that nobody else refers to. */
  lemma PairIsItsOwn(run: seq<State>, k: nat)
    requires IsRun(run) && k < |run| && Shape(run[k])
    ensures var s' := Apply(run[k], NewPair); var p := |run[k].handles|; var o := p + 1;
            && Shape(s') && |s'.handles| == o + 1
            && s'.handles[p].Publisher? && s'.handles[o].Observation?
            && s'.handles[p].slot == s'.handles[o].slot && s'.handles[p].inc == s'.handles[o].inc
            && s'.handles[p].inc !in s'.published && Read(s', o).None?
            && s'.space.strong[s'.handles[o].slot] == 2
            && forall h :: 0 <= h < p ==> !Refers(s'.handles[h], s'.handles[o].slot)
  {
    RunInv(run, k);
  }

  // ---- Pooling ---------------------------------------------------------------------------------------

  function DyingRefs(handles: seq<Handle>, i: SlotId): nat {
    if handles == [] then 0
    else (if handles[0].Dying? && handles[0].slot == i then 1 else 0) + DyingRefs(handles[1..], i)
  }

  lemma {:induction false} OnlyDying(handles: seq<Handle>, i: SlotId)
    requires forall h :: 0 <= h < |handles| && Refers(handles[h], i) ==> handles[h].Dying?
    ensures HandleRefs(handles, i) == DyingRefs(handles, i)
  {
    if handles != [] {
      assert Refers(handles[0], i) ==> handles[0].Dying?;
      forall h | 0 <= h < |handles[1..]| && Refers(handles[1..][h], i) ensures handles[1..][h].Dying? {
        assert handles[1..][h] == handles[h + 1];
      }
      OnlyDying(handles[1..], i);
    }
  }

  /**
   Pooling soundness: while a slot is pooled, no observation, future, live subject, map entry or
   second pool cell refers to it and nothing runs on it. Its count is the pool's reference and
   those of subjects that gave up the lock and not yet their own reference.
  */
  lemma PooledSlotIsIdle(run: seq<State>, k: nat, i: SlotId)
    requires IsRun(run) && k < |run| && i in run[k].space.pool
    ensures forall h :: 0 <= h < |run[k].handles| && Refers(run[k].handles[h], i) ==> run[k].handles[h].Dying?
    ensures !Listed(run[k].space.table, i)
    ensures multiset(run[k].space.pool)[i] == 1
    ensures |run[k].space.pool| <= 128
    ensures i < |run[k].protos| == |run[k].space.strong| && Quiescent(run[k].protos[i])
    ensures run[k].space.strong[i] == 1 + DyingRefs(run[k].handles, i)
  {
    var s := run[k];
    RunInv(run, k);
    PooledIsClean(s, i);
    OnlyDying(s.handles, i);
    OnceInPool(s.space.pool, i);
  }

  lemma {:induction false} OnceInPool(pool: seq<SlotId>, i: SlotId)
    requires i in pool && forall a, b :: 0 <= a < b < |pool| ==> pool[a] != pool[b]
    ensures multiset(pool)[i] == 1
  {
    assert pool == [pool[0]] + pool[1..];
    if pool[0] == i {
      assert i !in pool[1..];
    } else {
      OnceInPool(pool[1..], i);
    }
  }

  /** A dropped subject's slot is pooled exactly if no other handle refers to it and there is room; the pool grows by
      nothing else. */
  lemma PoolsExactlyTheUnobserved(run: seq<State>, k: nat, h: nat)
    requires IsRun(run) && k < |run| && Shape(run[k]) && h < |run[k].handles| && run[k].handles[h].Subject?
    ensures var s := run[k]; var i := s.handles[h].slot;
            RetireEffect(s, h).space.pool == s.space.pool
              + if && |s.space.pool| < 128
                   && forall g :: 0 <= g < |s.handles| && g != h ==> !Refers(s.handles[g], i)
                then [i] else []
  {
    var s := run[k];
    var i := s.handles[h].slot;
    RunInv(run, k);
    SubjectIsListed(s, h);
    assert Current(s.handles[h]);
    RefsPositive(s.handles, h, i);
    if HandleRefs(s.handles, i) == 1 {
      forall g | 0 <= g < |s.handles| && g != h ensures !Refers(s.handles[g], i) {
        if Refers(s.handles[g], i) {
          RefsUnique(s.handles, h, g, i);
        }
      }
    } else {
      SecondReference(s.handles, h, i);
    }
  }

  /** The subject that a registration of `key` adds, on slot `i`. */
  function NewlyRegistered(s: State, key: Key, i: SlotId): Handle {
    Subject(key, s.space.nextGeneration, i, s.nextInc, false)
  }

  /** Slot `i` of `s'` is pending and nobody is registered on it. */
  predicate PendingSlot(s': State, i: SlotId) {
    i < |s'.protos| && s'.protos[i].mem == FreshMem().(boxed := s'.protos[i].mem.boxed)
  }

  lemma RegistersOnNew(s: State, key: Key)
    requires Shape(s) && key !in s.space.table && s.space.pool == []
    ensures var s' := SubjectEffect(s, key);
            && |s'.protos| == |s.protos| + 1 && s'.handles == s.handles + [NewlyRegistered(s, key, |s.protos|)]
            && PendingSlot(s', |s.protos|)
  {
  }

  lemma RegistersOnPooled(s: State, key: Key)
    requires Inv(s) && key !in s.space.table && s.space.pool != []
    ensures var s' := SubjectEffect(s, key);
            && |s'.protos| == |s.protos| && s'.handles == s.handles + [NewlyRegistered(s, key, Popped(s))]
            && PendingSlot(s', Popped(s))
  {
    PoppedIsClean(s);
  }

  /** A registration recycles the slot pooled last and allocates only from an empty pool; a rejected one changes
      nothing. */
  lemma RecyclesBeforeAllocating(run: seq<State>, k: nat, key: Key)
    requires IsRun(run) && k < |run| && Shape(run[k])
    ensures var s := run[k]; var s' := SubjectEffect(s, key);
            && (key in s.space.table ==> s' == s)
            && (key !in s.space.table ==>
                  var i := if s.space.pool == [] then |s.protos| else Popped(s);
                  && |s'.protos| == |s.protos| + (if s.space.pool == [] then 1 else 0)
                  && s'.handles == s.handles + [NewlyRegistered(s, key, i)]
                  && PendingSlot(s', i))
  {
    RunInv(run, k);
    if key in run[k].space.table {
      ConflictChangesNothing(run[k], key);
    } else if run[k].space.pool == [] {
      RegistersOnNew(run[k], key);
    } else {
      RegistersOnPooled(run[k], key);
    }
  }

  /** One subject, registered on a new space. */
  lemma OneSubject(key: Key) returns (run: seq<State>)
    ensures IsRun(run)
    ensures var s := run[|run| - 1];
            && Shape(s) && s.handles == [Subject(key, 1, 0, 0, false)] && s.subjectOf == map[key := 0]
            && s.space == Space(2, map[key := Entry(1, 0)], [], [2]) && s.protos == [P.Fresh(FreshMem(), {})]
  {
    run := [INITIAL];
    forall k: nat ensures StepAt(run, k) {}
    Extended(run, NewSubject(key));
    run := run + [Apply(INITIAL, NewSubject(key))];
  }

  /** A retired generation whose subject still holds its reference: the pooled slot's count is two. */
  lemma PooledCountCanExceedOne() returns (run: seq<State>)
    ensures IsRun(run) && run[|run| - 1].space.pool == [0] && run[|run| - 1].space.strong == [2]
  {
    run := OneSubject(0);
    var s := run[|run| - 1];
    Extended(run, Retire(0));
    run := run + [Apply(s, Retire(0))];
  }

  // ---- Reference counts and the exclusive take ---------------------------------------------------------

  /** A strong count is its map, pool and handle references, dying subjects included; at zero nothing refers to the
      slot. */
  lemma CountsAreExact(run: seq<State>, k: nat, i: SlotId)
    requires IsRun(run) && k < |run| && i < |run[k].space.strong|
    ensures run[k].space.strong[i] == HeldBySpace(run[k].space, i) + HandleRefs(run[k].handles, i)
    ensures run[k].space.strong[i] == 0 ==> forall h :: 0 <= h < |run[k].handles| ==> !Refers(run[k].handles[h], i)
  {
    var s := run[k];
    RunInv(run, k);
    forall h | 0 <= h < |s.handles| ensures Refers(s.handles[h], i) ==> s.space.strong[i] > 0 {
      if Refers(s.handles[h], i) {
        RefsPositive(s.handles, h, i);
      }
    }
  }

  /** A count of one means that no one else, listed, pooled or handle, refers to the slot; and conversely. */
  lemma UniqueMeansAlone(s: State, h: nat)
    requires Inv(s) && h < |s.handles| && !s.handles[h].Gone?
    ensures var i := s.handles[h].slot;
            s.space.strong[i] == 1 <==>
              && !Listed(s.space.table, i) && i !in s.space.pool
              && forall g :: 0 <= g < |s.handles| && g != h ==> !Refers(s.handles[g], i)
  {
    var i := s.handles[h].slot;
    RefsPositive(s.handles, h, i);
    if s.space.strong[i] == 1 {
      LastReference(s, h);
    } else if !Listed(s.space.table, i) && i !in s.space.pool {
      SecondReference(s.handles, h, i);
    }
  }

  /** The uniqueness test of `into_outcome` succeeds exactly for the last reference of any kind. */
  lemma UnwrapDecides(run: seq<State>, k: nat, h: nat)
    requires IsRun(run) && k < |run| && Shape(run[k]) && h < |run[k].handles| && run[k].handles[h].Observation?
    requires Enabled(run[k], Unwrap(h))
    ensures var i := run[k].handles[h].slot;
            Apply(run[k], Unwrap(h)).handles[h].Unwrapped? <==>
              && !Listed(run[k].space.table, i) && i !in run[k].space.pool
              && forall g :: 0 <= g < |run[k].handles| && g != h ==> !Refers(run[k].handles[g], i)
  {
    RunInv(run, k);
    UniqueMeansAlone(run[k], h);
  }

  lemma {:induction false} SomeReference(handles: seq<Handle>, i: SlotId)
    requires HandleRefs(handles, i) > 0
    ensures exists g :: 0 <= g < |handles| && Refers(handles[g], i)
  {
    if !Refers(handles[0], i) {
      SomeReference(handles[1..], i);
      var g :| 0 <= g < |handles[1..]| && Refers(handles[1..][g], i);
      assert Refers(handles[g + 1], i);
    }
  }

  lemma SecondReference(handles: seq<Handle>, h: nat, i: SlotId)
    requires h < |handles| && Refers(handles[h], i) && HandleRefs(handles, i) != 1
    ensures exists g :: 0 <= g < |handles| && g != h && Refers(handles[g], i)
  {
    RefsUpdate(handles, h, Gone, i);
    RefsPositive(handles, h, i);
    SomeReference(handles[h := Gone], i);
    var g :| 0 <= g < |handles[h := Gone]| && Refers(handles[h := Gone][g], i);
    assert g != h && Refers(handles[g], i);
  }

  /**
   `into_outcome` in sole possession: nothing runs on the slot, no drain is in progress, and it
   yields exactly the published outcome of its incarnation, if there is one.
  */
  lemma TakeYieldsThePublished(run: seq<State>, k: nat, h: nat)
    requires IsRun(run) && k < |run| && h < |run[k].handles| && run[k].handles[h].Unwrapped?
    ensures Shape(run[k]) && Quiescent(run[k].protos[run[k].handles[h].slot])
    ensures var inc := run[k].handles[h].inc;
            && (inc in TakeEffect(run[k], h).taken <==> inc in run[k].published)
            && (inc in run[k].published ==> TakeEffect(run[k], h).taken[inc] == run[k].published[inc])
            && TakeEffect(run[k], h).space.strong[run[k].handles[h].slot] == 0
  {
    RunInv(run, k);
    TakeFinds(run[k], h);
  }

  /** The outcome of an incarnation is moved out at most once: afterwards no handle of it is left to try. */
  lemma TakenAtMostOnce(run: seq<State>, j: nat, k: nat, n: nat, h: nat)
    requires IsRun(run) && j <= k < |run| && n in run[j].taken
    requires h < |run[k].handles| && Current(run[k].handles[h])
    ensures run[k].handles[h].inc != n
  {
    RunSince(run, j, k);
    RunInv(run, k);
    assert n in run[k].taken;
    RefsPositive(run[k].handles, h, run[k].handles[h].slot);
    assert SlotOk(run[k], run[k].handles[h].slot);
  }

  /** A pair with a second observation. */
  lemma TwoObservers() returns (run: seq<State>)
    ensures IsRun(run)
    ensures var s := run[|run| - 1];
            && Shape(s) && s.handles == [Publisher(0, 0), Observation(0, 0), Observation(0, 0)] && s.space.strong == [3]
            && s.protos == [P.Fresh(FreshMem(), {})] && s.taken == map[] && s.moved == multiset{}
                && s.destroyed == multiset{}
  {
    run := [INITIAL];
    forall k: nat ensures StepAt(run, k) {}
    Extended(run, NewPair);
    var s := Apply(INITIAL, NewPair);
    run := run + [s];
    assert s.handles == [Publisher(0, 0), Observation(0, 0)];
    Extended(run, CloneObservation(1));
    run := run + [Apply(s, CloneObservation(1))];
  }

  /** ... completed with `v` ... */
  lemma TwoReaders(v: Outcome) returns (run: seq<State>)
    ensures IsRun(run)
    ensures var s := run[|run| - 1];
            && Shape(s) && s.handles == [Publisher(0, 0), Observation(0, 0), Observation(0, 0)] && s.space.strong == [3]
            && |s.protos| == 1 && s.protos[0].threads == [] && s.protos[0].calls == [] && s.protos[0].completer.Done?
            && s.protos[0].mem == SlotMem(Word(true, false, true), Some(v), false, [])
            && s.taken == map[] && s.moved == multiset{} && s.destroyed == multiset{}
  {
    run := TwoObservers();
    var s := run[|run| - 1];
    Extended(run, SlotStep(0, P.StartComplete(v)));
    s := Apply(s, SlotStep(0, P.StartComplete(v)));
    run := run + [s];
    Extended(run, SlotStep(0, P.RunCompleter(false)));
    run := run + [Apply(s, SlotStep(0, P.RunCompleter(false)))];
  }

  /** ... and the publisher released. */
  lemma TwoHolders(v: Outcome) returns (run: seq<State>)
    ensures IsRun(run)
    ensures var s := run[|run| - 1];
            && Shape(s) && s.handles == [Gone, Observation(0, 0), Observation(0, 0)] && s.space.strong == [2]
            && |s.protos| == 1 && s.protos[0].threads == [] && s.protos[0].calls == []
            && s.protos[0].mem == SlotMem(Word(true, false, true), Some(v), false, [])
            && s.taken == map[] && s.moved == multiset{} && s.destroyed == multiset{}
  {
    run := TwoReaders(v);
    var s := run[|run| - 1];
    Extended(run, Release(0));
    run := run + [Apply(s, Release(0))];
  }

  /** ... and both observers tested the count and were refused. */
  lemma TwoRefused(v: Outcome) returns (run: seq<State>)
    ensures IsRun(run)
    ensures var s := run[|run| - 1];
            && Shape(s) && s.handles == [Gone, Refused(0, 0), Refused(0, 0)] && s.space.strong == [2]
            && |s.protos| == 1 && s.protos[0].threads == [] && s.protos[0].calls == []
            && s.protos[0].mem == SlotMem(Word(true, false, true), Some(v), false, [])
            && s.taken == map[] && s.moved == multiset{} && s.destroyed == multiset{}
  {
    run := TwoHolders(v);
    var s := run[|run| - 1];
    Extended(run, Unwrap(1));
    s := Apply(s, Unwrap(1));
    run := run + [s];
    Extended(run, Unwrap(2));
    run := run + [Apply(s, Unwrap(2))];
  }

  /**
   The last two holders may both be refused: each tests the count before the other gives up its
   reference, and the published outcome is destroyed, moved out by neither.
  */
  lemma BothMayBeRefused(v: Outcome) returns (run: seq<State>)
    ensures IsRun(run)
    ensures var s := run[|run| - 1];
            s.handles == [Gone, Gone, Gone] && s.taken == map[] && s.moved == multiset{} && s.destroyed == multiset{v}
  {
    run := TwoRefused(v);
    var s := run[|run| - 1];
    Extended(run, Release(1));
    s := Apply(s, Release(1));
    run := run + [s];
    Extended(run, Release(2));
    run := run + [Apply(s, Release(2))];
  }

  // ---- Outcome ownership -------------------------------------------------------------------------------

  /** Each value passed to `complete` is in exactly one live cell, or was moved out once, or was destroyed once. */
  lemma OutcomesAreConserved(run: seq<State>, k: nat)
    requires IsRun(run) && k < |run|
    ensures run[k].passed == LiveCells(run[k].protos) + run[k].moved + run[k].destroyed
  {
    RunInv(run, k);
  }

  /** What step `step` of a run moves out: the published outcome of the incarnation that `into_outcome` owns alone. */
  function MovedBy(s: State, step: Step): multiset<Outcome>
    requires Shape(s) && Enabled(s, step)
  {
    if step.Take? && s.handles[step.h].inc in s.published then multiset{s.published[s.handles[step.h].inc]}
    else multiset{}
  }

  predicate SameMoved(s: State, s': State) {
    s'.moved == s.moved && s'.taken == s.taken
  }

  lemma CreationMovesNothing(s: State, key: Key)
    requires Shape(s)
    ensures SameMoved(s, SubjectEffect(s, key)) && SameMoved(s, PairEffect(s))
  {
  }

  lemma SlotStepMovesNothing(s: State, h: nat, step: P.Step, p: P.State)
    requires Shape(s) && h < |s.handles| && !s.handles[h].Gone?
    ensures SameMoved(s, SlotMoved(s, h, step, p))
  {
  }

  lemma UnrefMovesNothing(s: State, i: SlotId)
    requires i < |s.protos| == |s.space.strong|
    ensures SameMoved(s, Unref(s, i))
  {
  }

  lemma MovesOnlyByTake(s: State, step: Step)
    requires Shape(s) && Enabled(s, step) && !step.Take?
    ensures SameMoved(s, Apply(s, step))
  {
    if step.NewSubject? {
      CreationMovesNothing(s, step.key);
    } else if step.NewPair? {
      CreationMovesNothing(s, 0);
    } else if step.SlotStep? {
      SlotStepMovesNothing(s, step.h, step.step, P.Apply(s.protos[s.handles[step.h].slot], step.step));
    } else if step.Release? {
      UnrefMovesNothing(s.(handles := s.handles[step.h := Gone]), s.handles[step.h].slot);
    } else if step.DropPooled? {
      UnrefMovesNothing(s.(space := s.space.(pool := s.space.pool[1..])), s.space.pool[0]);
    }
  }

  /**
   An outcome leaves the library only through `into_outcome`, and through each of its successes
   exactly the published outcome; every other value that goes, goes by being destroyed.
  */
  lemma OutcomesLeaveByTakeAlone(run: seq<State>, k: nat) returns (step: Step)
    requires IsRun(run) && k + 1 < |run|
    ensures Shape(run[k]) && Enabled(run[k], step) && run[k + 1] == Apply(run[k], step)
    ensures run[k + 1].moved == run[k].moved + MovedBy(run[k], step)
    ensures run[k + 1].taken
            == if MovedBy(run[k], step) == multiset{} then run[k].taken
               else var inc := run[k].handles[step.h].inc; run[k].taken[inc := run[k].published[inc]]
  {
    RunInv(run, k);
    assert StepAt(run, k);
    step :| Enabled(run[k], step) && run[k + 1] == Apply(run[k], step);
    if step.Take? {
      TakeFinds(run[k], step.h);
    } else {
      MovesOnlyByTake(run[k], step);
    }
  }

  lemma {:induction false} NoLiveCells(protos: seq<P.State>)
    requires forall i :: 0 <= i < |protos| ==> protos[i].mem.cell.None?
    ensures LiveCells(protos) == multiset{}
  {
    if protos != [] {
      forall i | 0 <= i < |protos[1..]| ensures protos[1..][i].mem.cell.None? {
        assert protos[1..][i] == protos[i + 1];
      }
      NoLiveCells(protos[1..]);
    }
  }

  lemma ListedHasSubject(s: State, i: SlotId)
    requires Shape(s) && TableInv(s) && Listed(s.space.table, i)
    ensures exists h :: 0 <= h < |s.handles| && Refers(s.handles[h], i)
  {
    var key :| key in s.space.table && s.space.table[key].slot == i;
    assert EntryOk(s, key);
    assert Refers(s.handles[s.subjectOf[key]], i);
  }

  /** After full teardown nothing leaked: every value was moved out or destroyed, each exactly once. */
  lemma TeardownLeavesNothing(run: seq<State>, k: nat)
    requires IsRun(run) && k < |run| && run[k].space.pool == []
    requires forall h :: 0 <= h < |run[k].handles| ==> run[k].handles[h].Gone?
    ensures run[k].passed == run[k].moved + run[k].destroyed
    ensures forall i :: 0 <= i < |run[k].space.strong| ==> run[k].space.strong[i] == 0
  {
    var s := run[k];
    RunInv(run, k);
    forall i | 0 <= i < |s.space.strong| ensures s.space.strong[i] == 0 && s.protos[i].mem.cell.None? {
      if HandleRefs(s.handles, i) > 0 {
        SomeReference(s.handles, i);
      }
      if Listed(s.space.table, i) {
        ListedHasSubject(s, i);
      }
      assert SlotOk(s, i);
    }
    NoLiveCells(s.protos);
    assert multiset{} + s.moved + s.destroyed == s.moved + s.destroyed;
  }

  // ---- The key table -------------------------------------------------------------------------------------

  /**
   The table is in bijection with the undropped subjects, and the generation test in
   `Subject::drop` always succeeds: the entry under the subject's key is its own.
  */
  lemma TableListsTheSubjects(run: seq<State>, k: nat)
    requires IsRun(run) && k < |run|
    ensures forall key :: key in run[k].space.table ==>
              exists h :: 0 <= h < |run[k].handles| && run[k].handles[h].Subject? && run[k].handles[h].key == key
                && run[k].space.table[key] == Entry(run[k].handles[h].generation, run[k].handles[h].slot)
    ensures forall h :: 0 <= h < |run[k].handles| && run[k].handles[h].Subject? ==>
              && run[k].handles[h].key in run[k].space.table
              && run[k].space.table[run[k].handles[h].key]
                  == Entry(run[k].handles[h].generation, run[k].handles[h].slot)
    ensures forall g, h :: 0 <= g < h < |run[k].handles| && run[k].handles[g].Subject? && run[k].handles[h].Subject? ==>
              && run[k].handles[g].key != run[k].handles[h].key
              && run[k].handles[g].generation != run[k].handles[h].generation
  {
    var s := run[k];
    RunInv(run, k);
    forall key | key in s.space.table
      ensures exists h :: 0 <= h < |s.handles| && s.handles[h].Subject? && s.handles[h].key == key
                && s.space.table[key] == Entry(s.handles[h].generation, s.handles[h].slot)
    {
      assert EntryOk(s, key);
    }
    forall h | 0 <= h < |s.handles| && s.handles[h].Subject?
      ensures s.handles[h].key in s.space.table
      ensures s.space.table[s.handles[h].key] == Entry(s.handles[h].generation, s.handles[h].slot)
    {
      SubjectIsListed(s, h);
    }
    forall g, h | 0 <= g < h < |s.handles| && s.handles[g].Subject? && s.handles[h].Subject?
      ensures s.handles[g].key != s.handles[h].key && s.handles[g].generation != s.handles[h].generation
    {
      SubjectIsListed(s, g);
      SubjectIsListed(s, h);
      assert SubjectListed(s, g) && SubjectListed(s, h);
    }
  }

  /** Generations are never reused: a later registration gets a larger one. */
  lemma GenerationsGrow(run: seq<State>, j: nat, k: nat, key: Key)
    requires IsRun(run) && j < k < |run| && Shape(run[j])
    requires key !in run[j].space.table && run[j + 1] == SubjectEffect(run[j], key)
    ensures run[j].space.nextGeneration < run[k].space.nextGeneration
  {
    RunSince(run, j + 1, k);
  }

  // ---- Bounded retention -----------------------------------------------------------------------------------

  function LiveSlots(s: State): set<SlotId> {
    set i | 0 <= i < |s.space.strong| && s.space.strong[i] > 0
  }

  function LiveHandles(s: State): set<nat> {
    set h | 0 <= h < |s.handles| && !s.handles[h].Gone?
  }

  function Pooled(pool: seq<SlotId>): set<SlotId> {
    set i | i in pool
  }

  lemma {:induction false} PooledSize(pool: seq<SlotId>)
    ensures |Pooled(pool)| <= |pool|
  {
    if pool != [] {
      PooledSize(pool[1..]);
      assert pool == [pool[0]] + pool[1..];
      assert Pooled(pool) == Pooled(pool[1..]) + {pool[0]};
    }
  }

  lemma {:induction false} ImageSize(handles: seq<Handle>, hs: set<nat>, slots: set<SlotId>)
    requires forall i :: i in slots ==> exists h :: h in hs && h < |handles| && Refers(handles[h], i)
    ensures |slots| <= |hs|
    decreases |hs|
  {
    if hs == {} {
      assert forall i :: i !in slots;
    } else {
      var h :| h in hs;
      var i := if h < |handles| && !handles[h].Gone? then handles[h].slot else 0;
      forall j | j in slots - {i} ensures exists g :: g in hs - {h} && g < |handles| && Refers(handles[g], j) {
        var g :| g in hs && g < |handles| && Refers(handles[g], j);
        assert g in hs - {h};
      }
      ImageSize(handles, hs - {h}, slots - {i});
    }
  }

  /** Live slots never outnumber the live handles plus the pool bound. */
  lemma RetentionIsBounded(run: seq<State>, k: nat)
    requires IsRun(run) && k < |run|
    ensures |LiveSlots(run[k])| <= |LiveHandles(run[k])| + 128
  {
    var s := run[k];
    RunInv(run, k);
    var pooled := Pooled(s.space.pool);
    PooledSize(s.space.pool);
    forall i | i in LiveSlots(s) - pooled
        ensures exists h :: h in LiveHandles(s) && h < |s.handles| && Refers(s.handles[h], i) {
      if Listed(s.space.table, i) {
        ListedHasSubject(s, i);
      } else {
        SomeReference(s.handles, i);
      }
      var h :| 0 <= h < |s.handles| && Refers(s.handles[h], i);
      assert h in LiveHandles(s);
    }
    ImageSize(s.handles, LiveHandles(s), LiveSlots(s) - pooled);
    SplitSize(LiveSlots(s), pooled);
  }

  lemma SplitSize(a: set<SlotId>, b: set<SlotId>)
    ensures |a| <= |a - b| + |b|
  {
    SubsetSize(a * b, b);
    assert |a - b| == |a| - |a * b|;
  }

  lemma {:induction false} SubsetSize(a: set<SlotId>, b: set<SlotId>)
    requires a <= b
    ensures |a| <= |b|
  {
    if a != {} {
      var i :| i in a;
      SubsetSize(a - {i}, b - {i});
    }
  }
}
