/**
 Runs of the lifecycle machine. Every step keeps the invariant, so every state of a run satisfies
 it; and what was once so stays so: a published outcome, a taken one, the slot and the incarnation
 of a handle until the handle is gone, a completed slot until it is recycled.
*/
module LifecycleHistory {
  import opened Space
  import opened Lifecycle
  import opened LifecycleInvariant
  import opened LifecycleRecycling
  import opened SlotBorrowing
  import P = SlotProtocol
  import SlotInvariant
  import SlotTheorems

  lemma InitialInv()
    ensures Inv(INITIAL)
  {
  }

  lemma AmbientKeepsInv(s: State, i: SlotId, step: P.Step)
    requires Inv(s) && Enabled(s, Ambient(i, step))
    ensures Inv(Apply(s, Ambient(i, step)))
  {
    assert SlotOk(s, i);
    SlotInvariant.StepKeepsInv(s.protos[i], step);
    StepKeepsBorrows(s.protos[i], step);
    SteppedKeepsInv(s, i, step, P.Apply(s.protos[i], step));
  }

  lemma IntoFutureKeepsInv(s: State, h: nat)
    requires Inv(s) && Enabled(s, IntoFuture(h))
    ensures Inv(Apply(s, IntoFuture(h)))
  {
    var i := s.handles[h].slot;
    RefsPositive(s.handles, h, i);
    assert SlotOk(s, i);
    SlotInvariant.StepKeepsInv(s.protos[i], P.NewFuture(h));
    StepKeepsBorrows(s.protos[i], P.NewFuture(h));
    FuturedKeepsInv(s, h, P.Apply(s.protos[i], P.NewFuture(h)));
  }

  lemma ObserveKeepsInv(s: State, key: Key)
    requires Inv(s) && key in s.space.table
    ensures var i := s.space.table[key].slot; Inv(AddHandle(s, i, Observation(i, s.incs[i])))
  {
    var i := s.space.table[key].slot;
    assert Listed(s.space.table, i);
    AddKeepsInv(s, i, Observation(i, s.incs[i]));
  }

  lemma CloneKeepsInv(s: State, h: nat)
    requires Inv(s) && h < |s.handles| && s.handles[h].Observation?
    ensures Inv(AddHandle(s, s.handles[h].slot, s.handles[h]))
  {
    RefsPositive(s.handles, h, s.handles[h].slot);
    AddKeepsInv(s, s.handles[h].slot, s.handles[h]);
  }

  lemma SubjectKeepsInv(s: State, key: Key)
    requires Inv(s)
    ensures Inv(SubjectEffect(s, key))
  {
    if key in s.space.table {
      ConflictChangesNothing(s, key);
    } else if s.space.pool == [] {
      CreatedKeepsInv(s, key);
    } else {
      RecycledKeepsInv(s, key);
    }
  }

  lemma StepKeepsInv(s: State, step: Step)
    requires Inv(s) && Enabled(s, step)
    ensures Inv(Apply(s, step))
  {
    match step
    case NewSubject(key) => SubjectKeepsInv(s, key);
    case NewPair => PairKeepsInv(s);
    case Observe(key) => ObserveKeepsInv(s, key);
    case CloneObservation(h) => CloneKeepsInv(s, h);
    case IntoFuture(h) => IntoFutureKeepsInv(s, h);
    case SlotStep(h, step) => SlotStepKeepsInv(s, h, step);
    case Ambient(i, step) => AmbientKeepsInv(s, i, step);
    case Retire(h) => RetireKeepsInv(s, h);
    case Release(h) => ReleaseKeepsInv(s, h);
    case Unwrap(h) => UnwrapKeepsInv(s, h);
    case Take(h) => TakeKeepsInv(s, h);
    case CloseSpace => CloseKeepsInv(s);
    case DropPooled => DropPooledKeepsInv(s);
  }

  // ---- Runs ------------------------------------------------------------------------------------------

  ghost predicate Next(s: State, s': State) {
    Shape(s) && exists step :: Enabled(s, step) && s' == Apply(s, step)
  }

  ghost predicate StepAt(run: seq<State>, k: nat) {
    k + 1 < |run| ==> Next(run[k], run[k + 1])
  }

  ghost predicate IsRun(run: seq<State>) {
    && |run| > 0
    && run[0] == INITIAL
    && forall k: nat :: StepAt(run, k)
  }

  lemma NextKeepsInv(s: State, s': State)
    requires Inv(s) && Next(s, s')
    ensures Inv(s')
  {
    var step :| Enabled(s, step) && s' == Apply(s, step);
    StepKeepsInv(s, step);
  }

  lemma {:induction false} RunInv(run: seq<State>, k: nat)
    requires IsRun(run) && k < |run|
    ensures Inv(run[k])
  {
    if k == 0 {
      InitialInv();
    } else {
      RunInv(run, k - 1);
      assert StepAt(run, k - 1);
      NextKeepsInv(run[k - 1], run[k]);
    }
  }

  /** Extend a run by one step. */
  lemma Extended(run: seq<State>, step: Step)
    requires IsRun(run) && Shape(run[|run| - 1]) && Enabled(run[|run| - 1], step)
    ensures IsRun(run + [Apply(run[|run| - 1], step)])
  {
    var s' := Apply(run[|run| - 1], step);
    var longer := run + [s'];
    assert Next(run[|run| - 1], s');
    forall k: nat ensures StepAt(longer, k) {
      assert StepAt(run, k);
    }
  }

  ghost predicate Reachable(s: State) {
    exists run :: IsRun(run) && run[|run| - 1] == s && Shape(s)
  }

  lemma ReachableInv(s: State)
    requires Reachable(s)
    ensures Inv(s)
  {
    var run :| IsRun(run) && run[|run| - 1] == s;
    RunInv(run, |run| - 1);
  }

  lemma EndReaches(run: seq<State>, s: State)
    requires IsRun(run) && run[|run| - 1] == s
    ensures Reachable(s)
  {
    RunInv(run, |run| - 1);
  }

  lemma PrefixReaches(run: seq<State>, k: nat)
    requires IsRun(run) && k < |run|
    ensures Reachable(run[k])
  {
    var before := run[..k + 1];
    forall j: nat ensures StepAt(before, j) {
      assert StepAt(run, j);
    }
    EndReaches(before, run[k]);
  }

  // ---- What time preserves --------------------------------------------------------------------------

  /** A handle keeps its slot and its incarnation until it is gone, and then it stays gone. */
  predicate HandleSince(a: Handle, b: Handle) {
    b.Gone? || (!a.Gone? && b.slot == a.slot && b.inc == a.inc)
  }

  /** Slot `i`, if its incarnation is one that was known before, was already in it, live, and as far completed. */
  predicate SlotSince(s: State, s': State, i: SlotId)
    requires Shape(s) && Shape(s') && i < |s'.protos|
  {
    s'.incs[i] < s.nextInc ==>
      && i < |s.protos|
      && s.incs[i] == s'.incs[i]
      && (s'.space.strong[i] > 0 ==>
            s.space.strong[i] > 0 && (s.protos[i].mem.word.completed ==> s'.protos[i].mem.word.completed))
  }

  ghost predicate Since(s: State, s': State) {
    && Shape(s) && Shape(s')
    && s.nextInc <= s'.nextInc && s.space.nextGeneration <= s'.space.nextGeneration
    && |s.handles| <= |s'.handles|
    && (forall h {:trigger s'.handles[h]} :: 0 <= h < |s.handles| ==> HandleSince(s.handles[h], s'.handles[h]))
    && (forall n {:trigger n in s'.published} ::
        n in s.published ==> n in s'.published && s'.published[n] == s.published[n])
    && (forall n {:trigger n in s'.taken} :: n in s.taken ==> n in s'.taken && s'.taken[n] == s.taken[n])
    && (forall i {:trigger SlotSince(s, s', i)} :: 0 <= i < |s'.protos| ==> SlotSince(s, s', i))
  }

  lemma SinceTransitive(a: State, b: State, c: State)
    requires Since(a, b) && Since(b, c)
    ensures Since(a, c)
  {
    forall i | 0 <= i < |c.protos| ensures SlotSince(a, c, i) {
      assert SlotSince(b, c, i);
      if i < |b.protos| { assert SlotSince(a, b, i); }
    }
    forall h | 0 <= h < |a.handles| ensures HandleSince(a.handles[h], c.handles[h]) {
      assert HandleSince(b.handles[h], c.handles[h]);
      assert HandleSince(a.handles[h], b.handles[h]);
    }
    forall n | n in a.published ensures n in c.published && c.published[n] == a.published[n] {
      assert n in b.published;
    }
    forall n | n in a.taken ensures n in c.taken && c.taken[n] == a.taken[n] {
      assert n in b.taken;
    }
  }

  lemma SlotStepSince(s: State, h: nat, step: P.Step)
    requires Inv(s) && Enabled(s, SlotStep(h, step)) && Shape(Apply(s, SlotStep(h, step)))
    ensures Since(s, Apply(s, SlotStep(h, step)))
  {
    var i := s.handles[h].slot;
    var p := P.Apply(s.protos[i], step);
    RefsPositive(s.handles, h, i);
    assert SlotOk(s, i);
    SlotTheorems.StepLater(s.protos[i], step);
    StepKeepsBorrows(s.protos[i], step);
    MovedSince(s, h, step, p);
  }

  lemma MovedSince(s: State, h: nat, step: P.Step, p: P.State)
    requires Shape(s) && IncInv(s) && Moves(s, h, step, p) && Shape(SlotMoved(s, h, step, p))
    requires SlotTheorems.Later(s.protos[s.handles[h].slot], p) && Current(s.handles[h])
    requires SlotOk(s, s.handles[h].slot) && s.space.strong[s.handles[h].slot] > 0
    ensures Since(s, SlotMoved(s, h, step, p))
  {
    var s' := SlotMoved(s, h, step, p);
    forall j | 0 <= j < |s'.protos| ensures SlotSince(s, s', j) {}
  }

  lemma SteppedSince(s: State, i: SlotId, p: P.State)
    requires Shape(s) && i < |s.protos| && Shape(Stepped(s, i, p))
    requires s.protos[i].mem.word.completed ==> p.mem.word.completed
    ensures Since(s, Stepped(s, i, p))
  {
    var s' := Stepped(s, i, p);
    forall j | 0 <= j < |s'.protos| ensures SlotSince(s, s', j) {}
  }

  lemma FuturedSince(s: State, h: nat, p: P.State)
    requires Shape(s) && h < |s.handles| && s.handles[h].Observation? && Shape(Futured(s, h, p))
    requires s.protos[s.handles[h].slot].mem.word.completed ==> p.mem.word.completed
    ensures Since(s, Futured(s, h, p))
  {
    var s' := Futured(s, h, p);
    forall j | 0 <= j < |s'.protos| ensures SlotSince(s, s', j) {}
  }

  lemma ProtocolSince(s: State, step: Step)
    requires Inv(s) && Enabled(s, step) && Inv(Apply(s, step)) && (step.SlotStep? || step.Ambient? || step.IntoFuture?)
    ensures Since(s, Apply(s, step))
  {
    if step.SlotStep? {
      SlotStepSince(s, step.h, step.step);
    } else if step.Ambient? {
      assert SlotOk(s, step.i);
      SlotTheorems.StepLater(s.protos[step.i], step.step);
      SteppedSince(s, step.i, P.Apply(s.protos[step.i], step.step));
    } else {
      var i := s.handles[step.h].slot;
      RefsPositive(s.handles, step.h, i);
      assert SlotOk(s, i);
      SlotTheorems.StepLater(s.protos[i], P.NewFuture(step.h));
      FuturedSince(s, step.h, P.Apply(s.protos[i], P.NewFuture(step.h)));
    }
  }

  lemma SubjectSince(s: State, key: Key)
    requires Inv(s) && Shape(SubjectEffect(s, key))
    ensures Since(s, SubjectEffect(s, key))
  {
    if key in s.space.table {
      ConflictChangesNothing(s, key);
      NothingSince(s);
    } else {
      ListedSince(s, key);
    }
  }

  lemma NothingSince(s: State)
    requires Shape(s)
    ensures Since(s, s)
  {
    forall j | 0 <= j < |s.protos| ensures SlotSince(s, s, j) {}
  }

  lemma ListedSince(s: State, key: Key)
    requires Shape(s) && key !in s.space.table && Shape(SubjectEffect(s, key))
    ensures Since(s, SubjectEffect(s, key))
  {
    var s' := SubjectEffect(s, key);
    forall j | 0 <= j < |s'.protos| ensures SlotSince(s, s', j) {}
  }

  lemma PairSince(s: State)
    requires Shape(s) && Shape(PairEffect(s))
    ensures Since(s, PairEffect(s))
  {
    var s' := PairEffect(s);
    forall j | 0 <= j < |s'.protos| ensures SlotSince(s, s', j) {}
  }

  /** Every slot that is still live was live, and is as it was. */
  predicate MemoryKept(s: State, s': State)
    requires Shape(s) && Shape(s')
  {
    && |s'.protos| == |s.protos|
    && forall i :: 0 <= i < |s.protos| && s'.space.strong[i] > 0 ==>
        s.space.strong[i] > 0 && s'.protos[i] == s.protos[i]
  }

  /** References come and go; no slot that stays live changes its memory or its incarnation. */
  lemma PlainSince(s: State, s': State)
    requires Shape(s) && Shape(s')
    requires s'.incs == s.incs && s'.nextInc == s.nextInc && s'.space.nextGeneration == s.space.nextGeneration
    requires s'.published == s.published
    requires forall n :: n in s.taken ==> n in s'.taken && s'.taken[n] == s.taken[n]
    requires |s.handles| <= |s'.handles|
    requires forall h :: 0 <= h < |s.handles| ==> HandleSince(s.handles[h], s'.handles[h])
    requires MemoryKept(s, s')
    ensures Since(s, s')
  {
    forall i | 0 <= i < |s'.protos| ensures SlotSince(s, s', i) {}
    forall h | 0 <= h < |s.handles| ensures HandleSince(s.handles[h], s'.handles[h]) {}
  }

  lemma AddSince(s: State, i: SlotId, handle: Handle)
    requires Shape(s) && i < |s.protos| && s.space.strong[i] > 0 && Shape(AddHandle(s, i, handle))
    ensures Since(s, AddHandle(s, i, handle))
    ensures MemoryKept(s, AddHandle(s, i, handle))
  {
    PlainSince(s, AddHandle(s, i, handle));
  }

  lemma RetireSince(s: State, h: nat)
    requires Core(s) && h < |s.handles| && s.handles[h].Subject? && Shape(RetireEffect(s, h))
    ensures Since(s, RetireEffect(s, h))
    ensures MemoryKept(s, RetireEffect(s, h))
  {
    SubjectIsListed(s, h);
    RefsPositive(s.handles, h, s.handles[h].slot);
    PlainSince(s, RetireEffect(s, h));
  }

  lemma UnrefSince(s: State, i: SlotId)
    requires Shape(s) && i < |s.protos| && s.space.strong[i] > 0
    ensures Since(s, Unref(s, i))
    ensures MemoryKept(s, Unref(s, i))
  {
    PlainSince(s, Unref(s, i));
  }

  lemma ReleaseSince(s: State, h: nat)
    requires Shape(s) && Counted(s) && h < |s.handles| && !s.handles[h].Gone?
    ensures Since(s, ReleaseEffect(s, h))
    ensures MemoryKept(s, ReleaseEffect(s, h))
  {
    var s1 := s.(handles := s.handles[h := Gone]);
    RefsPositive(s.handles, h, s.handles[h].slot);
    PlainSince(s, s1);
    UnrefSince(s1, s.handles[h].slot);
    SinceTransitive(s, s1, ReleaseEffect(s, h));
  }

  lemma DropPooledSince(s: State)
    requires Inv(s) && s.space.pool != [] && s.space.pool[0] < |s.protos|
    ensures Since(s, DropPooledEffect(s))
    ensures MemoryKept(s, DropPooledEffect(s))
  {
    var s1 := s.(space := s.space.(pool := s.space.pool[1..]));
    assert s.space.pool[0] in s.space.pool;
    assert forall j :: j in s.space.pool[1..] ==> j in s.space.pool;
    PooledIsClean(s, s.space.pool[0]);
    PlainSince(s, s1);
    UnrefSince(s1, s.space.pool[0]);
    SinceTransitive(s, s1, DropPooledEffect(s));
  }

  lemma TakeSince(s: State, h: nat)
    requires Inv(s) && h < |s.handles| && s.handles[h].Unwrapped? && Shape(TakeEffect(s, h))
    ensures Since(s, TakeEffect(s, h))
    ensures MemoryKept(s, TakeEffect(s, h))
  {
    TakeFinds(s, h);
    PlainSince(s, TakeEffect(s, h));
  }

  lemma GainSince(s: State, step: Step)
    requires Inv(s) && Enabled(s, step) && Shape(Apply(s, step)) && (step.CloneObservation? || step.Observe?)
    ensures Since(s, Apply(s, step))
    ensures MemoryKept(s, Apply(s, step))
  {
    if step.CloneObservation? {
      RefsPositive(s.handles, step.h, s.handles[step.h].slot);
      AddSince(s, s.handles[step.h].slot, s.handles[step.h]);
    } else {
      var i := s.space.table[step.key].slot;
      assert Listed(s.space.table, i);
      AddSince(s, i, Observation(i, s.incs[i]));
    }
  }

  lemma LossSince(s: State, step: Step)
    requires Inv(s) && Enabled(s, step) && Shape(Apply(s, step))
    requires step.Retire? || step.Release? || step.Take? || step.DropPooled?
    ensures Since(s, Apply(s, step))
    ensures MemoryKept(s, Apply(s, step))
  {
    if step.Retire? {
      RetireSince(s, step.h);
    } else if step.Release? {
      ReleaseSince(s, step.h);
    } else if step.DropPooled? {
      DropPooledSince(s);
    } else {
      TakeSince(s, step.h);
    }
  }

  lemma ReferenceSince(s: State, step: Step)
    requires Inv(s) && Enabled(s, step) && Shape(Apply(s, step))
    requires !step.SlotStep? && !step.Ambient? && !step.IntoFuture? && !step.NewSubject? && !step.NewPair?
    ensures Since(s, Apply(s, step))
    ensures MemoryKept(s, Apply(s, step))
  {
    if step.Unwrap? || step.CloseSpace? {
      PlainSince(s, Apply(s, step));
    } else if step.CloneObservation? || step.Observe? {
      GainSince(s, step);
    } else {
      LossSince(s, step);
    }
  }

  lemma NextSince(s: State, s': State)
    requires Inv(s) && Next(s, s')
    ensures Since(s, s')
  {
    var step :| Enabled(s, step) && s' == Apply(s, step);
    StepKeepsInv(s, step);
    if step.SlotStep? || step.Ambient? || step.IntoFuture? {
      ProtocolSince(s, step);
    } else if step.NewSubject? {
      SubjectSince(s, step.key);
    } else if step.NewPair? {
      PairSince(s);
    } else {
      ReferenceSince(s, step);
    }
  }

  lemma {:induction false} RunSince(run: seq<State>, j: nat, k: nat)
    requires IsRun(run) && j <= k < |run|
    ensures Since(run[j], run[k])
  {
    RunInv(run, j);
    if j == k {
      forall i | 0 <= i < |run[j].protos| ensures SlotSince(run[j], run[j], i) {}
    } else {
      RunSince(run, j, k - 1);
      RunInv(run, k - 1);
      assert StepAt(run, k - 1);
      NextSince(run[k - 1], run[k]);
      SinceTransitive(run[j], run[k - 1], run[k]);
    }
  }
}
