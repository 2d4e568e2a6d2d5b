/** How `register_waker` answers, over every run. */
module SlotRegistrations {
  // `true` exactly if one of its looks found the outcome, and then it registered nothing; `false`
  // exactly if its recheck inside the lock found the slot pending, and then publication wakes the waker.

  import opened Options
  import opened SlotProtocol
  import opened SlotInvariant
  import opened SlotTheorems

  /** The call has found the outcome. */
  predicate Refusing(pc: RegisterPc) {
    pc == RegUnlock(true) || pc == RegReturned(true)
  }

  /** The call has rechecked in vain and registers its waker. */
  predicate Accepting(pc: RegisterPc) {
    pc.RegPush? || pc == RegUnlock(false) || pc == RegReturned(false)
  }

  /** How one step may change a call from `a` to `b`. */
  predicate CallMoves(s: State, step: Step, c: nat, a: RegisterCall, b: RegisterCall) {
    && b.waker == a.waker && b.via == a.via
    && (Refusing(a.pc) ==> Refusing(b.pc)) && (Accepting(a.pc) ==> Accepting(b.pc))
    && (Refusing(b.pc) && !Refusing(a.pc) ==>
          step == RunCall(c) && (a.pc.RegLoad? || a.pc.RegRecheck?) && s.mem.word.completed)
    && (Accepting(b.pc) && !Accepting(a.pc) ==> step == RunCall(c) && a.pc.RegRecheck? && !s.mem.word.completed)
  }

  lemma OwnStepMoves(s: State, c: nat)
    requires CanCall(s, c)
    ensures CallMoves(s, RunCall(c), c, s.calls[c], CallStep(s, c).calls[c])
  {
  }

  lemma StepMoves(s: State, step: Step, c: nat)
    requires Enabled(s, step) && c < |s.calls|
    ensures c < |Apply(s, step).calls| && CallMoves(s, step, c, s.calls[c], Apply(s, step).calls[c])
  {
    if step.RunThread? {
      ThreadFrame(s, step.t);
    } else if step.RunCall? {
      OwnStepMoves(s, step.c);
    } else if step.RunFuture? {
      FutureFrame(s, step.f);
    }
  }

  /** No step adds a call that is already under way. */
  lemma NewCallsLoad(s: State, step: Step, c: nat)
    requires Enabled(s, step) && c < |Apply(s, step).calls|
    ensures c < |s.calls| || Apply(s, step).calls[c].pc.RegLoad?
  {
    if step.RunThread? {
      ThreadFrame(s, step.t);
    } else if step.RunFuture? {
      FutureFrame(s, step.f);
    }
  }

  lemma RunMoves(run: seq<State>, j: nat, c: nat) returns (step: Step)
    requires IsRun(run) && j + 1 < |run| && c < |run[j + 1].calls|
    ensures Enabled(run[j], step) && run[j + 1] == Apply(run[j], step)
    ensures c < |run[j].calls| ==> CallMoves(run[j], step, c, run[j].calls[c], run[j + 1].calls[c])
    ensures c >= |run[j].calls| ==> run[j + 1].calls[c].pc.RegLoad?
  {
    assert StepAt(run, j);
    step :| Enabled(run[j], step) && run[j + 1] == Apply(run[j], step);
    NewCallsLoad(run[j], step, c);
    if c < |run[j].calls| {
      StepMoves(run[j], step, c);
    }
  }

  /** At instant `k` a look of call `c` decides: either look finds the outcome, or the recheck does not. */
  predicate LooksAt(run: seq<State>, k: nat, c: nat, found: bool) {
    && k + 1 < |run| && c < |run[k].calls|
    && (if found then (run[k].calls[c].pc.RegLoad? || run[k].calls[c].pc.RegRecheck?) && run[k].mem.word.completed
        else run[k].calls[c].pc.RegRecheck? && run[k].lock == Some(ByCall(c)) && !run[k].mem.word.completed)
    && Enabled(run[k], RunCall(c)) && run[k + 1] == Apply(run[k], RunCall(c))
  }

  lemma {:induction false} DecidingLook(run: seq<State>, i: nat, c: nat) returns (k: nat)
    requires IsRun(run) && i < |run| && c < |run[i].calls|
    requires Refusing(run[i].calls[c].pc) || Accepting(run[i].calls[c].pc)
    ensures k < i && LooksAt(run, k, c, Refusing(run[i].calls[c].pc))
  {
    assert i > 0;
    var step := RunMoves(run, i - 1, c);
    var before := run[i - 1].calls[c].pc;
    if Refusing(before) || Accepting(before) {
      k := DecidingLook(run, i - 1, c);
    } else {
      k := i - 1;
      RunInv(run, k);
      assert Holds(run[k], ByCall(c)) <==> CallHolds(before);
    }
  }

  lemma {:induction false} DecisionStays(run: seq<State>, d: nat, i: nat, c: nat)
    requires IsRun(run) && d <= i < |run| && c < |run[d].calls|
    ensures c < |run[i].calls| && run[i].calls[c].waker == run[d].calls[c].waker
    ensures Refusing(run[d].calls[c].pc) ==> Refusing(run[i].calls[c].pc)
    ensures Accepting(run[d].calls[c].pc) ==> Accepting(run[i].calls[c].pc)
  {
    if d < i {
      DecisionStays(run, d, i - 1, c);
      assert StepAt(run, i - 1);
      var step :| Enabled(run[i - 1], step) && run[i] == Apply(run[i - 1], step);
      StepMoves(run[i - 1], step, c);
    }
  }

  lemma LookDecides(run: seq<State>, k: nat, i: nat, c: nat, found: bool)
    requires IsRun(run) && k < i < |run| && LooksAt(run, k, c, found)
    ensures c < |run[i].calls|
    ensures found ==> Refusing(run[i].calls[c].pc)
    ensures !found ==> Accepting(run[i].calls[c].pc)
  {
    assert found ==> Refusing(run[k + 1].calls[c].pc);
    assert !found ==> Accepting(run[k + 1].calls[c].pc);
    DecisionStays(run, k + 1, i, c);
  }

  /**
   A finished `register_waker` answered `true` exactly if one of its looks found the outcome, and
   then it never came to register; `false` exactly if its recheck, inside the lock, found the slot
   pending, and then its waker has fired once `complete` has returned.
  */
  lemma CallsAnswerAsTheyMust(run: seq<State>, i: nat, c: nat)
    requires IsRun(run) && i < |run| && c < |run[i].calls| && run[i].calls[c].pc.RegReturned?
    ensures var result := run[i].calls[c].pc.result;
            && (result <==> exists k: nat :: k < i && LooksAt(run, k, c, true))
            && (!result <==> exists k: nat :: k < i && LooksAt(run, k, c, false))
            && (result ==> forall k: nat :: k < i && c < |run[k].calls| ==> !Accepting(run[k].calls[c].pc))
            && (!result && run[i].completer.Done? ==> run[i].calls[c].waker in run[i].fired)
  {
    var result := run[i].calls[c].pc.result;
    var look := DecidingLook(run, i, c);
    forall k: nat | k < i && LooksAt(run, k, c, true) ensures result {
      LookDecides(run, k, i, c, true);
    }
    forall k: nat | k < i && LooksAt(run, k, c, false) ensures !result {
      LookDecides(run, k, i, c, false);
    }
    forall k: nat | result && k < i && c < |run[k].calls| ensures !Accepting(run[k].calls[c].pc) {
      DecisionStays(run, k, i, c);
    }
    if !result && run[i].completer.Done? {
      NoLostWakeup(run, i);
    }
  }
}
