/** How a waiting call ends, over every run. */
module SlotDeadlines {
  // What a deadline can miss: exactly the publications between the last recheck and the test of the
  // deadline. And which way a call ends: with `None` exactly if it gave up at its deadline, with the
  // outcome exactly if one of its looks found it.

  import opened Options
  import opened Registry
  import opened SlotProtocol
  import opened SlotInvariant
  import opened SlotTheorems

  /** The call has found the outcome and is on its way out with it. */
  predicate Answering(pc: WaitPc) {
    pc.WaitRetain? || pc.WaitReadUnlock? || pc.WaitReturned?
  }

  /** The call found its deadline passed and is on its way out without an outcome. */
  predicate GivingUp(pc: WaitPc) {
    pc.WaitDeregLock? || pc.WaitDereg? || pc.WaitDeregUnlock? || pc.WaitTimedOut?
  }

  /** Between an unsuccessful recheck and the next look. */
  predicate Rechecked(pc: WaitPc) {
    pc.WaitUnlock? || pc.WaitPark? || pc.WaitDeadline? || pc.WaitParkTimed? || GivingUp(pc)
  }

  // ---- One step ------------------------------------------------------------------------------------------

  /** How one step of thread `t` itself, from `a` to `b`, may change its call. */
  predicate CallMoves(s: State, a: WaitCall, b: WaitCall) {
    && b.begun == a.begun && b.timed == a.timed && !b.pc.WaitIdle?
    && (Answering(a.pc) ==> Answering(b.pc))
    && (GivingUp(a.pc) ==> GivingUp(b.pc))
    && (Answering(b.pc) && !Answering(a.pc) ==> (a.pc.WaitLoad? || a.pc.WaitRecheck?) && s.mem.word.completed)
    && (GivingUp(b.pc) ==> GivingUp(a.pc))
    && (Rechecked(b.pc) && !Rechecked(a.pc) ==> a.pc.WaitRecheck? && !s.mem.word.completed && b.seen == s.clock)
    && (Rechecked(b.pc) && Rechecked(a.pc) ==> b.seen == a.seen)
  }

  lemma OwnStepMoves(s: State, t: nat)
    requires t < |s.threads| && ThreadBusy(s.threads[t].pc)
    ensures |ThreadStep(s, t).threads| == |s.threads|
    ensures CallMoves(s, s.threads[t], ThreadStep(s, t).threads[t])
    ensures forall x :: 0 <= x < |s.threads| && x != t ==> ThreadStep(s, t).threads[x] == s.threads[x]
  {
  }

  /** How any step may change the call of thread `t`. */
  predicate AnyMove(s: State, step: Step, t: nat, a: WaitCall, b: WaitCall) {
    || b == a
    || (step == RunThread(t) && CallMoves(s, a, b))
    || (step == Spurious(t) && a.pc.WaitPark? && b == a.(pc := WaitLoad))
    || (step == Expire(t) && a.pc.WaitDeadline? && b == a.(pc := WaitDeregLock))
    || (step.StartWait? && step.t == t && !ThreadBusy(a.pc) && b.pc.WaitLoad? && b.begun == s.clock)
  }

  lemma StepMoves(s: State, step: Step, t: nat)
    requires Enabled(s, step) && t < |s.threads|
    ensures t < |Apply(s, step).threads|
    ensures AnyMove(s, step, t, s.threads[t], Apply(s, step).threads[t])
  {
    if step.RunThread? {
      OwnStepMoves(s, step.t);
    } else if step.RunCall? {
      assert CallStep(s, step.c).threads == s.threads;
    } else if step.RunFuture? {
      FutureFrame(s, step.f);
    }
  }

  /** No step adds a thread that is already waiting. */
  lemma NewThreadsAreIdle(s: State, step: Step, t: nat)
    requires Enabled(s, step) && t < |Apply(s, step).threads|
    ensures t < |s.threads| || Apply(s, step).threads[t].pc.WaitIdle?
  {
    if step.RunThread? {
      OwnStepMoves(s, step.t);
    } else if step.RunCall? {
      assert CallStep(s, step.c).threads == s.threads;
    } else if step.RunFuture? {
      FutureFrame(s, step.f);
    }
  }

  // ---- The last recheck -------------------------------------------------------------------------------------

  /** Thread `t` rechecked at instant `k`, in the call begun at `begun`, and found the slot pending. */
  predicate PendingRecheckAt(run: seq<State>, k: nat, t: nat, begun: nat) {
    && k < |run| && t < |run[k].threads|
    && run[k].threads[t].pc.WaitRecheck? && run[k].threads[t].begun == begun
    && !run[k].mem.word.completed
  }

  lemma PreviousMove(run: seq<State>, i: nat, t: nat) returns (step: Step)
    requires IsRun(run) && 0 < i < |run| && t < |run[i].threads| && !run[i].threads[t].pc.WaitIdle?
    ensures Inv(run[i - 1]) && run[i - 1].clock == i - 1
    ensures t < |run[i - 1].threads| && Enabled(run[i - 1], step) && run[i] == Apply(run[i - 1], step)
    ensures AnyMove(run[i - 1], step, t, run[i - 1].threads[t], run[i].threads[t])
  {
    RunInv(run, i - 1);
    assert StepAt(run, i - 1);
    step :| Enabled(run[i - 1], step) && run[i] == Apply(run[i - 1], step);
    NewThreadsAreIdle(run[i - 1], step, t);
    StepMoves(run[i - 1], step, t);
  }

  lemma {:induction false} LastRecheck(run: seq<State>, i: nat, t: nat)
    requires IsRun(run) && i < |run| && t < |run[i].threads| && Rechecked(run[i].threads[t].pc)
    ensures run[i].threads[t].seen < i
    ensures PendingRecheckAt(run, run[i].threads[t].seen, t, run[i].threads[t].begun)
  {
    assert i > 0;
    var step := PreviousMove(run, i, t);
    if Rechecked(run[i - 1].threads[t].pc) {
      LastRecheck(run, i - 1, t);
    }
  }

  // ---- What a deadline can miss --------------------------------------------------------------------------------

  predicate PublishedAt(run: seq<State>, k: nat) {
    0 < k < |run| && !run[k - 1].mem.word.completed && run[k].mem.word.completed
  }

  lemma {:induction false} PublicationBetween(run: seq<State>, a: nat, b: nat) returns (k: nat)
    requires a <= b < |run| && !run[a].mem.word.completed && run[b].mem.word.completed
    ensures a < k <= b && PublishedAt(run, k)
  {
    if run[b - 1].mem.word.completed {
      k := PublicationBetween(run, a, b - 1);
    } else {
      k := b;
    }
  }

  /**
   The race with the deadline. A thread about to test its deadline has last looked at instant
   `seen`, and found the slot pending; the outcome is there now exactly if it was published since.
  */
  lemma RacingPublication(run: seq<State>, d: nat, t: nat)
    requires IsRun(run) && d < |run| && t < |run[d].threads| && run[d].threads[t].pc.WaitDeadline?
    ensures var th := run[d].threads[t];
            && th.seen < d && PendingRecheckAt(run, th.seen, t, th.begun)
            && (run[d].mem.word.completed <==> exists k: nat :: th.seen < k <= d && PublishedAt(run, k))
  {
    var seen := run[d].threads[t].seen;
    LastRecheck(run, d, t);
    if run[d].mem.word.completed {
      var k := PublicationBetween(run, seen, d);
      assert seen < k <= d && PublishedAt(run, k);
    }
    forall k: nat | seen < k <= d && PublishedAt(run, k) ensures run[d].mem.word.completed {
      RunLater(run, k, d);
    }
  }

  // ---- Which way a call ends --------------------------------------------------------------------------------------

  /** At instant `d` the call begun at `begun` found its deadline passed. */
  predicate GaveUpAt(run: seq<State>, d: nat, t: nat, begun: nat) {
    && d + 1 < |run| && t < |run[d].threads|
    && run[d].threads[t].pc.WaitDeadline? && run[d].threads[t].begun == begun
    && run[d + 1] == Apply(run[d], Expire(t))
  }

  /** At instant `d` a look of the call begun at `begun`, the first of a round or its recheck, found the outcome. */
  predicate FoundAt(run: seq<State>, d: nat, t: nat, begun: nat) {
    && d + 1 < |run| && t < |run[d].threads|
    && (run[d].threads[t].pc.WaitLoad? || run[d].threads[t].pc.WaitRecheck?) && run[d].threads[t].begun == begun
    && run[d].mem.word.completed
    && run[d + 1] == Apply(run[d], RunThread(t))
  }

  lemma {:induction false} WayOut(run: seq<State>, i: nat, t: nat) returns (d: nat)
    requires IsRun(run) && i < |run| && t < |run[i].threads|
    requires Answering(run[i].threads[t].pc) || GivingUp(run[i].threads[t].pc)
    ensures d < i
    ensures GivingUp(run[i].threads[t].pc) ==> GaveUpAt(run, d, t, run[i].threads[t].begun)
    ensures Answering(run[i].threads[t].pc) ==> FoundAt(run, d, t, run[i].threads[t].begun)
  {
    assert i > 0;
    var step := PreviousMove(run, i, t);
    var before := run[i - 1].threads[t].pc;
    if Answering(before) || GivingUp(before) {
      d := WayOut(run, i - 1, t);
    } else {
      d := i - 1;
    }
  }

  /** A later look at the same thread: it is in a later call, or in the same one and on the same way out. */
  predicate OnItsWay(a: WaitCall, b: WaitCall) {
    || b.begun > a.begun
    || (b.begun == a.begun && (GivingUp(a.pc) ==> GivingUp(b.pc)) && (Answering(a.pc) ==> Answering(b.pc)))
  }

  lemma NextOnItsWay(run: seq<State>, k: nat, t: nat)
    requires IsRun(run) && k + 1 < |run| && t < |run[k].threads| && !run[k].threads[t].pc.WaitIdle?
    ensures t < |run[k + 1].threads| && OnItsWay(run[k].threads[t], run[k + 1].threads[t])
    ensures !run[k + 1].threads[t].pc.WaitIdle?
  {
    RunInv(run, k);
    assert StepAt(run, k) && ThreadOk(run[k], t);
    var step :| Enabled(run[k], step) && run[k + 1] == Apply(run[k], step);
    StepMoves(run[k], step, t);
  }

  lemma {:induction false} StaysOnItsWay(run: seq<State>, d: nat, i: nat, t: nat)
    requires IsRun(run) && d <= i < |run| && t < |run[d].threads|
    requires Answering(run[d].threads[t].pc) || GivingUp(run[d].threads[t].pc)
    ensures t < |run[i].threads| && OnItsWay(run[d].threads[t], run[i].threads[t]) && !run[i].threads[t].pc.WaitIdle?
  {
    if d < i {
      StaysOnItsWay(run, d, i - 1, t);
      NextOnItsWay(run, i - 1, t);
    }
  }

  predicate Finished(pc: WaitPc) {
    pc.WaitReturned? || pc.WaitTimedOut?
  }

  /**
   How a finished call ended: without an outcome exactly if it found its deadline passed, with one
   exactly if a look found the slot completed; and then the answer is the published outcome.
  */
  lemma CallsEndAsTheyMust(run: seq<State>, i: nat, t: nat)
    requires IsRun(run) && i < |run| && t < |run[i].threads| && Finished(run[i].threads[t].pc)
    ensures var th := run[i].threads[t];
            && (th.pc.WaitTimedOut? <==> exists d: nat :: d < i && GaveUpAt(run, d, t, th.begun))
            && (th.pc.WaitReturned? <==> exists d: nat :: d < i && FoundAt(run, d, t, th.begun))
            && (th.pc.WaitReturned? ==> run[i].mem.cell.Some? && th.pc.result == run[i].mem.cell)
            && (th.pc.WaitTimedOut? ==> th.timed)
  {
    var th := run[i].threads[t];
    RunInv(run, i);
    assert ThreadOk(run[i], t);
    var way := WayOut(run, i, t);
    forall d: nat | d < i && GaveUpAt(run, d, t, th.begun) ensures th.pc.WaitTimedOut? {
      StaysOnItsWay(run, d + 1, i, t);
    }
    forall d: nat | d < i && FoundAt(run, d, t, th.begun) ensures th.pc.WaitReturned? {
      StaysOnItsWay(run, d + 1, i, t);
    }
  }

  /** A call that ended with `None` missed an outcome exactly if it was published between its last recheck and its
      test of the deadline. */
  lemma MissedExactly(run: seq<State>, i: nat, t: nat) returns (d: nat)
    requires IsRun(run) && i < |run| && t < |run[i].threads| && run[i].threads[t].pc.WaitTimedOut?
    ensures d < i && GaveUpAt(run, d, t, run[i].threads[t].begun)
    ensures var seen := run[d].threads[t].seen;
            && seen < d && PendingRecheckAt(run, seen, t, run[i].threads[t].begun)
            && (run[d].mem.word.completed <==> exists k: nat :: seen < k <= d && PublishedAt(run, k))
  {
    d := WayOut(run, i, t);
    RacingPublication(run, d, t);
  }

  // ---- wait has no deadline, and blocks until it is woken ---------------------------------------------------

  /** Thread `t` starts `wait` or `wait_timeout` at instant `j`. */
  predicate StartsAt(run: seq<State>, j: nat, t: nat, timed: bool, via: nat) {
    j + 1 < |run| && Enabled(run[j], StartWait(t, timed, via)) && run[j + 1] == Apply(run[j], StartWait(t, timed, via))
  }

  lemma KindMoves(run: seq<State>, k: nat, t: nat)
    requires IsRun(run) && k + 1 < |run| && t < |run[k].threads| && !run[k].threads[t].pc.WaitIdle?
    ensures t < |run[k + 1].threads| && !run[k + 1].threads[t].pc.WaitIdle?
    ensures var a := run[k].threads[t]; var b := run[k + 1].threads[t];
            (b.begun == a.begun && b.timed == a.timed) || b.begun == k
  {
    RunInv(run, k);
    assert StepAt(run, k);
    var step :| Enabled(run[k], step) && run[k + 1] == Apply(run[k], step);
    StepMoves(run[k], step, t);
  }

  lemma {:induction false} CallKeepsItsKind(run: seq<State>, j: nat, i: nat, t: nat, timed: bool, via: nat)
    requires IsRun(run) && j < i < |run| && StartsAt(run, j, t, timed, via)
    ensures t < |run[i].threads| && !run[i].threads[t].pc.WaitIdle?
    ensures run[i].threads[t].begun > j || (run[i].threads[t].begun == j && run[i].threads[t].timed == timed)
  {
    if i == j + 1 {
      RunInv(run, j);
    } else {
      CallKeepsItsKind(run, j, i - 1, t, timed, via);
      KindMoves(run, i - 1, t);
    }
  }

  /** A call of `wait` ends with the published outcome or not at all; only `wait_timeout` can answer `None`. */
  lemma WaitNeverGivesUp(run: seq<State>, j: nat, i: nat, t: nat, timed: bool, via: nat)
    requires IsRun(run) && j < i < |run| && StartsAt(run, j, t, timed, via)
    requires t < |run[i].threads| && run[i].threads[t].begun == j && Finished(run[i].threads[t].pc)
    ensures run[i].threads[t].pc.WaitTimedOut? ==> timed
    ensures !timed ==> run[i].mem.cell.Some? && run[i].threads[t].pc == WaitReturned(run[i].mem.cell)
  {
    CallKeepsItsKind(run, j, i, t, timed, via);
    CallsEndAsTheyMust(run, i, t);
  }

  /**
   After an unsuccessful recheck a call looks again only when something wakes it: `wait` when it
   finds its park token, which it uses up, or returns from the park spuriously; `wait_timeout` from
   its own park, before the deadline.
  */
  lemma LooksAgainWhenWoken(run: seq<State>, j: nat, t: nat)
    requires IsRun(run) && j + 1 < |run| && t < |run[j].threads| && Rechecked(run[j].threads[t].pc)
    requires t < |run[j + 1].threads| && run[j + 1].threads[t].pc.WaitLoad?
    requires run[j + 1].threads[t].begun == run[j].threads[t].begun
    ensures run[j].threads[t].timed ==> run[j].threads[t].pc.WaitParkTimed? && t !in run[j + 1].tokens
    ensures !run[j].threads[t].timed ==>
              && run[j].threads[t].pc.WaitPark?
              && (run[j + 1] == Apply(run[j], Spurious(t)) || (t in run[j].tokens && t !in run[j + 1].tokens))
  {
    RunInv(run, j);
    assert StepAt(run, j) && ThreadOk(run[j], t);
    var step :| Enabled(run[j], step) && run[j + 1] == Apply(run[j], step);
    StepMoves(run[j], step, t);
    if step == RunThread(t) {
      OwnStepWakes(run[j], t);
    }
  }

  lemma OwnStepWakes(s: State, t: nat)
    requires t < |s.threads| && Enabled(s, RunThread(t)) && Rechecked(s.threads[t].pc)
    ensures Apply(s, RunThread(t)).threads[t].pc.WaitLoad? ==>
              && (s.threads[t].pc.WaitPark? || s.threads[t].pc.WaitParkTimed?)
              && (s.threads[t].pc.WaitPark? ==> t in s.tokens) && t !in Apply(s, RunThread(t)).tokens
  {
  }

  /**
   A call returns an outcome from the first look of a round, or from a recheck that found it, and then
   only after its thread was taken off the registry, as its last act inside the lock.
  */
  lemma ReturnsDeregistered(run: seq<State>, j: nat, t: nat)
    requires IsRun(run) && j + 1 < |run| && t < |run[j].threads| && !run[j].threads[t].pc.WaitReturned?
    requires t < |run[j + 1].threads| && run[j + 1].threads[t].pc.WaitReturned?
    ensures run[j].mem.word.completed
    ensures !run[j].threads[t].pc.WaitLoad? ==>
              && run[j].threads[t].pc.WaitReadUnlock?
              && run[j].lock == Some(ByThread(t)) && run[j + 1].lock.None?
              && Thread(t) !in run[j + 1].mem.registry
  {
    RunInv(run, j);
    assert StepAt(run, j) && ThreadOk(run[j], t);
    assert Holds(run[j], ByThread(t)) <==> ThreadHolds(run[j].threads[t].pc);
    var step :| Enabled(run[j], step) && run[j + 1] == Apply(run[j], step);
    StepMoves(run[j], step, t);
    if step == RunThread(t) {
      OwnStepReturns(run[j], t);
    }
  }

  lemma OwnStepReturns(s: State, t: nat)
    requires t < |s.threads| && Enabled(s, RunThread(t))
    ensures Apply(s, RunThread(t)).threads[t].pc.WaitReturned? ==>
              || s.threads[t].pc.WaitLoad?
              || (s.threads[t].pc.WaitReadUnlock? && Apply(s, RunThread(t)).lock.None?
                  && Apply(s, RunThread(t)).mem == s.mem)
  {
  }
}
