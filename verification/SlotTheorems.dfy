/** Guarantees over every run of the slot protocol. */
module SlotTheorems {
  // For any number of waiters and every interleaving: no lost wakeup, exactly the right wakes, exact
  // owner counts, one answer for everybody, and what a timeout means.

  import opened Options
  import opened Registry
  import opened SlotMemory
  import opened SlotProtocol
  import opened SlotInvariant

  // ---- Runs ------------------------------------------------------------------------------------

  ghost predicate Next(s: State, s': State) {
    exists step :: Enabled(s, step) && s' == Apply(s, step)
  }

  ghost predicate StepAt(run: seq<State>, i: nat) {
    i + 1 < |run| ==> Next(run[i], run[i + 1])
  }

  /** A run starts at a fresh or recycled slot; tokens from elsewhere may already be set. */
  ghost predicate IsRun(run: seq<State>) {
    && |run| > 0
    && run[0] == Fresh(FreshMem().(boxed := run[0].mem.boxed), run[0].tokens)
    && forall i: nat :: StepAt(run, i)
  }

  lemma {:induction false} RunInv(run: seq<State>, i: nat)
    requires IsRun(run) && i < |run|
    ensures Inv(run[i]) && run[i].clock == i
  {
    if i == 0 {
      FreshInv(run[0].mem, run[0].tokens);
    } else {
      RunInv(run, i - 1);
      assert StepAt(run, i - 1);
      NextKeepsInv(run[i - 1], run[i]);
    }
  }

  lemma NextKeepsInv(s: State, s': State)
    requires Inv(s) && Next(s, s')
    ensures Inv(s') && s'.clock == s.clock + 1
  {
    var step :| Enabled(s, step) && s' == Apply(s, step);
    StepKeepsInv(s, step);
  }

  /** What never goes back: publication, the outcome, the instant of publication, what was taken. */
  predicate Later(s: State, s': State) {
    && (s.mem.word.completed ==> s'.mem.word.completed && s'.mem.cell == s.mem.cell && s'.publishedAt == s.publishedAt)
    && (Taken(s.completer) ==> Taken(s'.completer) && s'.completer.taken == s.completer.taken)
    && (s.completer.Done? ==> s'.completer == s.completer && s'.fired == s.fired)
  }

  lemma StepLater(s: State, step: Step)
    requires Inv(s) && Enabled(s, step)
    ensures Later(s, Apply(s, step))
  {
    if step.RunThread? {
      ThreadFrame(s, step.t);
      ThreadStepSound(s, step.t);
    } else if step.RunCall? {
      assert CallOk(s, step.c);
      CallFrame(s, step.c);
      CallStable(s, step.c);
    } else if step.RunFuture? {
      FutureFrame(s, step.f);
      FutureStable(s, step.f);
    }
  }

  lemma NextLater(run: seq<State>, j: nat)
    requires IsRun(run) && 0 < j < |run|
    ensures Later(run[j - 1], run[j])
  {
    RunInv(run, j - 1);
    assert StepAt(run, j - 1);
    var step :| Enabled(run[j - 1], step) && run[j] == Apply(run[j - 1], step);
    StepLater(run[j - 1], step);
  }

  lemma {:induction false} RunLater(run: seq<State>, i: nat, j: nat)
    requires IsRun(run) && i <= j < |run|
    ensures Later(run[i], run[j])
  {
    if i < j {
      RunLater(run, i, j - 1);
      NextLater(run, j);
    }
  }

  // ---- No lost wakeup ----------------------------------------------------------------------------

  lemma ParkedHasToken(s: State, t: nat)
    requires CellInv(s) && s.completer.Done? && t < |s.threads| && ThreadOk(s, t)
    requires s.threads[t].pc.WaitPark? || s.threads[t].pc.WaitParkTimed?
    ensures t in s.tokens
  {
  }

  lemma DrainedRegistryIsEmpty(s: State)
    requires CellInv(s) && RegistryInv(s) && s.completer.Done? && s.lock.None?
    ensures s.mem.registry == []
  {
    if s.mem.registry != [] {
      HasElement(s.mem.registry);
    }
  }

  lemma HasElement(reg: seq<Waiter>)
    requires reg != []
    ensures exists e :: e in reg
  {
    assert reg[0] in reg;
  }

  lemma OwedAreFired(s: State, w: WakerId)
    requires CellInv(s) && RegistryInv(s) && DrainInv(s) && OwnedTaken(s) && s.completer.Done?
    requires !Taken(s.completer) ==> OwnersExact(s)
    ensures w in s.directs ==> w in s.fired
    ensures forall f :: 0 <= f < |s.futures| && Owns(s.futures[f], w) ==> w in s.fired
  {
    if !s.completer.drained {
      NothingOwed(s);
      assert !Owed(s, w);
      forall f | 0 <= f < |s.futures| ensures !Owns(s.futures[f], w) {
        if Owns(s.futures[f], w) {
          OwnedMeansCounted(s.futures, f, w);
        }
      }
    }
  }

  /**
   Once `complete` has returned, every parked thread has its token, every direct registration that
   was accepted and every waker a live future recorded has been woken, and nothing is left in the
   registry for a later generation.
  */
  lemma NoLostWakeup(run: seq<State>, i: nat)
    requires IsRun(run) && i < |run| && run[i].completer.Done?
    ensures forall t | 0 <= t < |run[i].threads| ::
              (run[i].threads[t].pc.WaitPark? || run[i].threads[t].pc.WaitParkTimed?) ==>
              t in run[i].tokens
    ensures forall c :: 0 <= c < |run[i].calls| && run[i].calls[c].pc == RegReturned(false) ==>
                          run[i].calls[c].waker in run[i].fired
    ensures forall f, w :: 0 <= f < |run[i].futures| && w in run[i].futures[f].wakers ==> w in run[i].fired
    ensures run[i].lock.None? ==> run[i].mem.registry == []
  {
    var s := run[i];
    RunInv(run, i);
    forall t | 0 <= t < |s.threads| && (s.threads[t].pc.WaitPark? || s.threads[t].pc.WaitParkTimed?)
        ensures t in s.tokens {
      ParkedHasToken(s, t);
    }
    forall c | 0 <= c < |s.calls| && s.calls[c].pc == RegReturned(false) ensures s.calls[c].waker in s.fired {
      assert CallOk(s, c);
      OwedAreFired(s, s.calls[c].waker);
    }
    forall f, w | 0 <= f < |s.futures| && w in s.futures[f].wakers ensures w in s.fired {
      assert Owns(s.futures[f], w);
      OwedAreFired(s, w);
    }
    if s.lock.None? {
      DrainedRegistryIsEmpty(s);
    }
  }

  /** `w` is owed a wake: directly registered, or owned by some future. */
  predicate Owed(s: State, w: WakerId) {
    w in s.directs || OwnerCount(s.futures, w) > 0
  }

  /** A registry without waker entries owes nobody a wake. */
  lemma NothingOwed(s: State)
    requires OwnersExact(s) && forall e :: e in s.mem.registry ==> e.Thread?
    ensures forall w :: !Owed(s, w)
  {
    forall w ensures !Owed(s, w) {
      TallyNoWakers(s.mem.registry, w);
      assert TallyOf(s.mem.registry, w) == Single(OwnerCount(s.futures, w), w in s.directs);
    }
  }

  // ---- Exactly the right wakes -------------------------------------------------------------------

  /** The step that takes the registry. */
  ghost predicate TakesAt(run: seq<State>, i: nat) {
    && i + 1 < |run|
    && run[i].completer.DrainTake?
    && run[i + 1].completer == DrainUnlock(run[i].mem.registry)
  }

  /** The registry of instant `i` is what the drain took. */
  ghost predicate TookAt(run: seq<State>, i: nat, taken: seq<Waiter>) {
    TakesAt(run, i) && run[i].mem.registry == taken && run[i].mem.word.completed && OwnersExact(run[i])
  }

  lemma FirstTaken(run: seq<State>, j: nat)
    requires IsRun(run) && 0 < j < |run| && Taken(run[j].completer) && !Taken(run[j - 1].completer)
    ensures TookAt(run, j - 1, run[j].completer.taken)
  {
    RunInv(run, j - 1);
    assert StepAt(run, j - 1);
    TakenByDrain(run[j - 1], run[j]);
  }

  lemma {:induction false} TakeInstant(run: seq<State>, j: nat) returns (i: nat)
    requires IsRun(run) && j < |run| && Taken(run[j].completer)
    ensures i < j && TookAt(run, i, run[j].completer.taken)
  {
    assert j > 0;
    if Taken(run[j - 1].completer) {
      RunLater(run, j - 1, j);
      i := TakeInstant(run, j - 1);
    } else {
      FirstTaken(run, j);
      i := j - 1;
    }
  }

  lemma TakenByDrain(s: State, s': State)
    requires Inv(s) && Next(s, s') && !Taken(s.completer) && Taken(s'.completer)
    ensures s.completer.DrainTake? && s'.completer == DrainUnlock(s.mem.registry)
    ensures s.mem.word.completed && OwnersExact(s)
  {
    var step :| Enabled(s, step) && s' == Apply(s, step);
    if step.RunThread? {
      ThreadFrame(s, step.t);
    } else if step.RunCall? {
      assert CallOk(s, step.c);
      CallFrame(s, step.c);
    } else if step.RunFuture? {
      FutureFrame(s, step.f);
    }
  }

  lemma FiredAtDone(run: seq<State>, j: nat)
    requires IsRun(run) && j < |run| && run[j].completer.Done?
    ensures run[j].mem.word.completed
    ensures run[j].completer.drained ==> run[j].fired == Wakers(run[j].completer.taken)
    ensures !run[j].completer.drained ==> run[j].fired == [] && forall w :: !Owed(run[j], w)
  {
    RunInv(run, j);
    if !run[j].completer.drained {
      NothingOwed(run[j]);
    }
  }

  /**
   When `complete` has returned there is an instant after publication such that the wakers fired
   are exactly those owed a wake at that instant, each fired once.
  */
  lemma ExactlyTheRightWakes(run: seq<State>, j: nat) returns (i: nat)
    requires IsRun(run) && j < |run| && run[j].completer.Done?
    ensures i <= j && run[i].mem.word.completed
    ensures forall w :: multiset(run[j].fired)[w] == if Owed(run[i], w) then 1 else 0
  {
    FiredAtDone(run, j);
    if run[j].completer.drained {
      i := TakeInstant(run, j);
      TakeDelivers(run[i]);
      forall w ensures multiset(run[j].fired)[w] == if Owed(run[i], w) then 1 else 0 {
        assert w in Wakers(run[i].mem.registry) <==> w in multiset(Wakers(run[i].mem.registry));
      }
    } else {
      i := j;
    }
  }

  /** Who is owed: a dropped future at most what a poll registered while answering, and nothing before publication; an
      idle one exactly what it recorded. */
  lemma OwnershipOfSettledFutures(s: State, f: nat, w: WakerId)
    requires Inv(s) && f < |s.futures|
    ensures s.futures[f].pc.FutDropped? ==> (Owns(s.futures[f], w) <==> s.futures[f].leaked == Some(w))
    ensures s.futures[f].pc.FutDropped? && !s.mem.word.completed ==> !Owns(s.futures[f], w)
    ensures s.futures[f].pc.FutIdle? && !s.mem.word.completed ==> (Owns(s.futures[f], w) <==> w in s.futures[f].wakers)
  {
    assert FutureOk(s, f);
  }

  /** No wake and no token of the drain precedes the readable outcome. */
  lemma NothingFiresEarly(run: seq<State>, i: nat)
    requires IsRun(run) && i < |run| && run[i].fired != []
    ensures run[i].mem.word.completed && run[i].mem.cell.Some?
  {
    RunInv(run, i);
  }

  // ---- Waker owner counting ----------------------------------------------------------------------

  /**
   Until the registry is taken: one entry at most per waker, present exactly when a direct
   registration or some future holds it, counting exactly the futures that own it.
  */
  lemma OwnersAreCounted(run: seq<State>, i: nat, w: WakerId)
    requires IsRun(run) && i < |run| && !Taken(run[i].completer)
    ensures multiset(Wakers(run[i].mem.registry))[w] == if Owed(run[i], w) then 1 else 0
    ensures forall k :: 0 <= k < |run[i].mem.registry| && IsWaker(run[i].mem.registry[k], w) ==>
              && run[i].mem.registry[k].owners == OwnerCount(run[i].futures, w)
              && (run[i].mem.registry[k].persistent <==> w in run[i].directs)
  {
    var s := run[i];
    RunInv(run, i);
    TallyWakers(s.mem.registry, w);
    assert TallyOf(s.mem.registry, w) == Single(OwnerCount(s.futures, w), w in s.directs);
    forall k | 0 <= k < |s.mem.registry| && IsWaker(s.mem.registry[k], w)
      ensures s.mem.registry[k].owners == OwnerCount(s.futures, w)
      ensures s.mem.registry[k].persistent <==> w in s.directs
    {
      TallyPresent(s.mem.registry, k, w);
    }
  }

  /** The decrement in a future's drop never finds zero owners, before or after the take. */
  lemma ReleaseNeverUnderflows(run: seq<State>, i: nat, f: nat)
    requires IsRun(run) && i < |run| && f < |run[i].futures| && run[i].futures[f].pc.DropRetain?
    ensures ReleaseSafe(run[i].mem.registry, run[i].futures[f].wakers)
  {
    var s := run[i];
    RunInv(run, i);
    forall k | 0 <= k < |s.mem.registry| && s.mem.registry[k].Waker? && s.mem.registry[k].waker in s.futures[f].wakers
      ensures s.mem.registry[k].owners > 0
    {
      assert s.mem.registry[k] in s.mem.registry;
      var w := s.mem.registry[k].waker;
      OwnersAreCounted(run, i, w);
      assert Owns(s.futures[f], w);
      OwnedMeansCounted(s.futures, f, w);
    }
  }

  // ---- One outcome -------------------------------------------------------------------------------

  /** Whoever reads an outcome, at whatever instant, reads the published one: all answers agree for ever. */
  lemma AnswersAgree(run: seq<State>, i: nat, j: nat)
    requires IsRun(run) && i <= j < |run| && run[i].mem.word.completed
    ensures run[j].mem.word.completed && run[j].mem.cell.Some? && run[j].mem.cell == run[i].mem.cell
    ensures forall t :: 0 <= t < |run[j].threads| && run[j].threads[t].pc.WaitReturned? ==>
                          run[j].threads[t].pc.result == run[i].mem.cell
    ensures forall f :: 0 <= f < |run[j].futures| && run[j].futures[f].pc.FutReady? ==>
                          run[j].futures[f].pc.result == run[i].mem.cell
  {
    RunInv(run, j);
    RunLater(run, i, j);
    forall t | 0 <= t < |run[j].threads| && run[j].threads[t].pc.WaitReturned?
      ensures run[j].threads[t].pc.result == run[i].mem.cell
    {
      assert ThreadOk(run[j], t);
    }
    forall f | 0 <= f < |run[j].futures| && run[j].futures[f].pc.FutReady?
      ensures run[j].futures[f].pc.result == run[i].mem.cell
    {
      assert FutureOk(run[j], f);
    }
  }

  lemma NoEarlyAnswer(s: State, k: nat)
    requires Inv(s) && !s.mem.word.completed
    ensures k < |s.threads| ==> !s.threads[k].pc.WaitReturned?
    ensures k < |s.futures| ==> !s.futures[k].pc.FutReady?
    ensures k < |s.calls| ==> s.calls[k].pc != RegReturned(true)
  {
    assert k < |s.threads| ==> ThreadOk(s, k);
    assert k < |s.futures| ==> FutureOk(s, k);
    assert k < |s.calls| ==> CallOk(s, k);
  }

  /** No answer exists before publication, and the cell is written only while it is empty. */
  lemma NoEarlyAnswers(run: seq<State>, i: nat, k: nat)
    requires IsRun(run) && i < |run| && !run[i].mem.word.completed
    ensures k < |run[i].threads| ==> !run[i].threads[k].pc.WaitReturned?
    ensures k < |run[i].futures| ==> !run[i].futures[k].pc.FutReady?
    ensures k < |run[i].calls| ==> run[i].calls[k].pc != RegReturned(true)
    ensures run[i].completer.Pending? ==> run[i].mem.cell.None?
  {
    RunInv(run, i);
    NoEarlyAnswer(run[i], k);
  }

  // ---- wait_timeout ------------------------------------------------------------------------------

  /**
   A `wait_timeout` that returned `None` did so rightly: at an instant inside the call the slot was
   still pending. No entry of the thread remains, so no later take of the registry can notify it.
  */
  lemma TimeoutLinearises(run: seq<State>, i: nat, t: nat)
    requires IsRun(run) && i < |run| && t < |run[i].threads| && run[i].threads[t].pc.WaitTimedOut?
    ensures exists k :: run[i].threads[t].begun <= k <= i && !run[k].mem.word.completed
    ensures Thread(t) !in run[i].mem.registry
  {
    RunInv(run, i);
    var th := run[i].threads[t];
    assert ThreadOk(run[i], t);
    if run[th.seen].mem.word.completed {
      RunLater(run, th.seen, i);
      RunInv(run, th.seen);
      assert false;
    }
    assert th.begun <= th.seen <= i && !run[th.seen].mem.word.completed;
  }

  /** `begun` is the instant the current call of the thread started. */
  lemma BegunMarksTheCall(s: State, step: Step, t: nat)
    requires Enabled(s, step) && t < |s.threads|
    ensures t < |Apply(s, step).threads|
    ensures step.StartWait? && step.t == t ==> Apply(s, step).threads[t].begun == s.clock
    ensures !(step.StartWait? && step.t == t) ==> Apply(s, step).threads[t].begun == s.threads[t].begun
  {
    if step.RunCall? {
      assert CallStep(s, step.c).threads == s.threads;
    } else if step.RunFuture? {
      FutureFrame(s, step.f);
    }
  }

  /** Extend a run by one step. */
  lemma Extended(run: seq<State>, step: Step)
    requires IsRun(run) && Enabled(run[|run| - 1], step)
    ensures IsRun(run + [Apply(run[|run| - 1], step)])
  {
    var s' := Apply(run[|run| - 1], step);
    var longer := run + [s'];
    assert longer[0] == run[0];
    assert Next(run[|run| - 1], s');
    forall k: nat ensures StepAt(longer, k) {
      assert StepAt(run, k);
    }
  }

  /** Thread 0 begins to wait on a fresh slot. */
  lemma WaitBegun(timed: bool) returns (run: seq<State>)
    ensures IsRun(run)
    ensures var s := run[|run| - 1];
            && s == Fresh(FreshMem(), {}).(threads := s.threads, clock := 2)
            && s.threads == [WaitCall(WaitLoad, timed, 0, 1, 1)]
  {
    var s := Fresh(FreshMem(), {});
    run := [s];
    forall k: nat ensures StepAt(run, k) {}
    Extended(run, NewThread);
    s := Apply(s, NewThread);
    run := run + [s];
    Extended(run, StartWait(0, timed, 0));
    run := run + [Apply(s, StartWait(0, timed, 0))];
  }

  /** ... registers, finds the slot pending, and lets go of the lock. */
  lemma WaitRegistered(timed: bool) returns (run: seq<State>)
    ensures IsRun(run)
    ensures var s := run[|run| - 1];
            && s.threads == [WaitCall(if timed then WaitDeadline else WaitPark, timed, 0, 1, 6)]
            && s.calls == [] && s.futures == [] && s.completer.Pending? && s.lock.None?
            && s.mem == SlotMem(Word(false, true, false), None, true, [Thread(0)])
  {
    run := WaitBegun(timed);
    var s := run[|run| - 1];
    for k := 0 to 6
      invariant IsRun(run) && s == run[|run| - 1] && s.clock == 2 + k
      invariant |s.threads| == 1
      invariant k < 6 ==> s.threads[0] == WaitCall(RoundPc(k), timed, 0, 1, if k < 5 then 1 else 6)
      invariant k == 6 ==> s.threads[0] == WaitCall(if timed then WaitDeadline else WaitPark, timed, 0, 1, 6)
      invariant s.calls == [] && s.futures == [] && s.completer.Pending?
      invariant s.lock == if 3 <= k < 6 then Some(ByThread(0)) else None
      invariant s.mem == SlotMem(Word(false, k >= 2, false), None, k >= 3, if k >= 4 then [Thread(0)] else [])
    {
      Extended(run, RunThread(0));
      s := Apply(s, RunThread(0));
      run := run + [s];
    }
  }

  /** How far a waiter is after `k` steps of a round on a pending slot. */
  function RoundPc(k: nat): WaitPc {
    match k
    case 0 => WaitLoad
    case 1 => WaitSetBit
    case 2 => WaitLock
    case 3 => WaitPush
    case 4 => WaitRecheck
    case _ => WaitUnlock
  }

  /** ... and then the outcome was published; the completer is about to take the lock. */
  lemma PublishedMeanwhile(v: Outcome) returns (run: seq<State>)
    ensures IsRun(run)
    ensures var s := run[|run| - 1];
            && s.threads == [WaitCall(WaitDeadline, true, 0, 1, 6)] && s.lock.None? && s.completer.DrainLock?
            && s.mem.word.completed && s.mem.cell == Some(v)
  {
    run := WaitRegistered(true);
    var s := run[|run| - 1];
    Extended(run, StartComplete(v));
    s := Apply(s, StartComplete(v));
    run := run + [s];
    Extended(run, RunCompleter(false));
    run := run + [Apply(s, RunCompleter(false))];
  }

  /**
   `wait_timeout` may return `None` although the outcome was published before it tested the
   deadline: a publication between the last recheck and that test goes unobserved.
  */
  lemma TimeoutMayMissThePublication(v: Outcome) returns (run: seq<State>, tested: nat)
    ensures IsRun(run) && tested + 1 < |run|
    ensures run[tested].mem.word.completed && run[tested].mem.cell == Some(v)
    ensures |run[tested].threads| == 1 && run[tested].threads[0].pc.WaitDeadline?
    ensures run[tested + 1] == Apply(run[tested], Expire(0))
    ensures |run[|run| - 1].threads| == 1 && run[|run| - 1].threads[0].pc == WaitTimedOut
  {
    var before := PublishedMeanwhile(v);
    tested := |before| - 1;
    var s := before[tested];
    Extended(before, Expire(0));
    s := Apply(s, Expire(0));
    run := before + [s];
    for k := 0 to 3
      invariant IsRun(run) && tested + 1 < |run| && run[..tested + 2] == before + [Apply(before[tested], Expire(0))]
      invariant s == run[|run| - 1] && |s.threads| == 1 && s.lock == (if 1 <= k < 3 then Some(ByThread(0)) else None)
      invariant s.threads[0].pc == if k == 0 then WaitDeregLock else if k == 1 then WaitDereg
              else if k == 2 then WaitDeregUnlock else WaitTimedOut
    {
      Extended(run, RunThread(0));
      s := Apply(s, RunThread(0));
      run := run + [s];
    }
    assert run[tested] == run[..tested + 2][tested] && run[tested + 1] == run[..tested + 2][tested + 1];
  }

  // ---- A thread listed twice ----------------------------------------------------------------------------

  /** Thread 0, in `wait`, registered, was woken for no reason, and is about to look again. */
  lemma WokenForNoReason() returns (run: seq<State>)
    ensures IsRun(run)
    ensures var s := run[|run| - 1];
            && |s.threads| == 1 && s.threads[0].pc.WaitLoad? && !s.threads[0].timed && s.calls == []
            && s.completer.Pending? && s.lock.None?
            && s.mem == SlotMem(Word(false, true, false), None, true, [Thread(0)])
  {
    run := WaitRegistered(false);
    var s := run[|run| - 1];
    Extended(run, Spurious(0));
    run := run + [Apply(s, Spurious(0))];
  }

  function CallPc(k: nat): RegisterPc {
    match k
    case 0 => RegLoad
    case 1 => RegSetBit
    case 2 => RegLock
    case 3 => RegRecheck
    case 4 => RegPush
    case 5 => RegUnlock(false)
    case _ => RegReturned(false)
  }

  /** ... meanwhile somebody registers waker `w` behind it. */
  lemma RegisteredBehind(w: WakerId) returns (run: seq<State>)
    ensures IsRun(run)
    ensures var s := run[|run| - 1];
            && |s.threads| == 1 && s.threads[0].pc.WaitLoad? && !s.threads[0].timed
            && s.completer.Pending? && s.lock.None?
            && s.mem == SlotMem(Word(false, true, false), None, true, [Thread(0), Waker(w, true, 0)])
  {
    run := WokenForNoReason();
    var s := run[|run| - 1];
    assert RegisterDirect([Thread(0)], w) == [Thread(0), Waker(w, true, 0)] by {
      RegistrationsAppend([Thread(0)], w);
    }
    Extended(run, StartCall(w, 0));
    s := Apply(s, StartCall(w, 0));
    run := run + [s];
    for k := 0 to 6
      invariant IsRun(run) && s == run[|run| - 1]
      invariant |s.threads| == 1 && s.threads[0].pc.WaitLoad? && !s.threads[0].timed && s.completer.Pending?
      invariant s.calls == [RegisterCall(w, CallPc(k), 0)] && s.lock == if 3 <= k < 6 then Some(ByCall(0)) else None
      invariant s.mem == SlotMem(Word(false, true, false), None, true,
                                 if k >= 5 then [Thread(0), Waker(w, true, 0)] else [Thread(0)])
    {
      Extended(run, RunCall(0));
      s := Apply(s, RunCall(0));
      run := run + [s];
    }
  }

  /** A spurious return, a registration by somebody else, and a second round: the thread is listed twice. */
  lemma AThreadMayBeListedTwice(w: WakerId) returns (run: seq<State>)
    ensures IsRun(run)
    ensures run[|run| - 1].mem.registry == [Thread(0), Waker(w, true, 0), Thread(0)]
    ensures multiset(run[|run| - 1].mem.registry)[Thread(0)] == 2
  {
    run := RegisteredBehind(w);
    var s := run[|run| - 1];
    for k := 0 to 4
      invariant IsRun(run) && s == run[|run| - 1]
      invariant |s.threads| == 1 && s.threads[0].pc == RoundPc(k) && s.completer.Pending?
      invariant s.lock == if k >= 3 then Some(ByThread(0)) else None
      invariant s.mem == SlotMem(Word(false, true, false), None, true,
                                 [Thread(0), Waker(w, true, 0)] + if k >= 4 then [Thread(0)] else [])
    {
      Extended(run, RunThread(0));
      s := Apply(s, RunThread(0));
      run := run + [s];
    }
  }
}
