/** After publication everybody gets home. */
module SlotTermination {
  // Every step of an operation already started lowers a rank, and while anyone is still inside an
  // operation some step is enabled that needs neither a spurious wake nor a passing deadline.

  import opened Options
  import opened Registry
  import opened SlotMemory
  import opened SlotProtocol
  import opened SlotInvariant
  import opened SlotTheorems

  // ---- The rank ----------------------------------------------------------------------------------

  /** Steps a thread has left once COMPLETED is set. */
  function WaitRank(pc: WaitPc): nat {
    match pc
    case WaitSetBit => 6
    case WaitLock => 5
    case WaitPush => 4
    case WaitRecheck => 3
    case WaitRetain => 2
    case WaitReadUnlock => 1
    case WaitUnlock => 5
    case WaitDeadline => 4
    case WaitDeregLock => 3
    case WaitDereg => 2
    case WaitDeregUnlock => 1
    case WaitPark => 2
    case WaitParkTimed => 2
    case WaitLoad => 1
    case _ => 0
  }

  function CallRank(pc: RegisterPc): nat {
    match pc
    case RegSetBit => 5
    case RegLock => 4
    case RegRecheck => 3
    case RegPush => 2
    case RegUnlock(_) => 1
    case RegLoad => 1
    case RegReturned(_) => 0
  }

  function FutureRank(pc: FuturePc): nat {
    match pc
    case PollSetBit(_) => 6
    case PollLock(_) => 5
    case PollRecheck(_) => 4
    case PollPush(_) => 3
    case PollUnlock(_, _) => 2
    case PollLoad(_) => 2
    case PollGet(_) => 1
    case PollGetAgain(_, _, _) => 1
    case PollRecord(_) => 1
    case DropLock => 3
    case DropRetain => 2
    case DropUnlock => 1
    case _ => 0
  }

  /** The completer's remaining drain; before the take the registry may still grow by registrations in flight. */
  function CompleterRank(s: State): int {
    match s.completer
    case DrainLock => 4 + |s.mem.registry|
    case DrainTake => 3 + |s.mem.registry|
    case DrainUnlock(taken) => 2 + |taken|
    case Notify(taken, next, _) => 1 + |taken| - next
    case _ => 0
  }

  function Sum(ns: seq<nat>): nat {
    if ns == [] then 0 else ns[0] + Sum(ns[1..])
  }

  function WaitRanks(threads: seq<WaitCall>): seq<nat> {
    seq(|threads|, i requires 0 <= i < |threads| => WaitRank(threads[i].pc))
  }

  function CallRanks(calls: seq<RegisterCall>): seq<nat> {
    seq(|calls|, i requires 0 <= i < |calls| => CallRank(calls[i].pc))
  }

  function FutureRanks(futures: seq<FutureState>): seq<nat> {
    seq(|futures|, i requires 0 <= i < |futures| => FutureRank(futures[i].pc))
  }

  /** Twice the steps of every waiter and poller, since each may push one entry, and the drain. */
  function Rank(s: State): int {
    2 * (Sum(WaitRanks(s.threads)) + Sum(CallRanks(s.calls)) + Sum(FutureRanks(s.futures))) + CompleterRank(s)
  }

  lemma {:induction false} SumUpdate(ns: seq<nat>, i: nat, n: nat)
    requires i < |ns|
    ensures Sum(ns[i := n]) == Sum(ns) - ns[i] + n
  {
    if i == 0 {
      assert ns[i := n][1..] == ns[1..];
    } else {
      assert ns[i := n][1..] == ns[1..][i - 1 := n];
      SumUpdate(ns[1..], i - 1, n);
    }
  }

  /** A step of an operation already started, by any actor; `Spurious` and `Expire` included. */
  predicate Inner(step: Step) {
    step.RunThread? || step.Spurious? || step.Expire? || step.RunCall? || step.RunFuture? || step.RunCompleter?
  }

  // ---- Every step lowers the rank ------------------------------------------------------------------

  predicate LowersThread(s: State, s': State, t: nat)
    requires t < |s.threads|
  {
    && |s'.threads| == |s.threads|
    && s'.threads == s.threads[t := s'.threads[t]]
    && WaitRank(s'.threads[t].pc) < WaitRank(s.threads[t].pc)
    && |s'.mem.registry| <= |s.mem.registry| + 1
    && s'.completer == s.completer && s'.calls == s.calls && s'.futures == s.futures
  }

  lemma RegisteringLowers(s: State, t: nat)
    requires s.mem.word.completed && CanRegister(s, t)
    ensures LowersThread(s, RegisteringStep(s, t), t)
  {
    SectionLengths(s.mem.registry, 0, [], t);
  }

  lemma ParkingLowers(s: State, t: nat)
    requires s.mem.word.completed && CanPark(s, t)
    ensures LowersThread(s, ParkingStep(s, t), t)
  {
    SectionLengths(s.mem.registry, 0, [], t);
  }

  lemma ThreadLowers(s: State, t: nat)
    requires s.mem.word.completed && CanRunThread(s, t)
    ensures LowersThread(s, ThreadStep(s, t), t)
  {
    if Registering(s.threads[t].pc) { RegisteringLowers(s, t); } else { ParkingLowers(s, t); }
  }

  lemma CallLowers(s: State, c: nat)
    requires s.mem.word.completed && CanCall(s, c)
    ensures var s' := CallStep(s, c);
            && s'.calls == s.calls[c := s'.calls[c]]
            && CallRank(s'.calls[c].pc) < CallRank(s.calls[c].pc)
            && |s'.mem.registry| <= |s.mem.registry| + 1
            && s'.completer == s.completer && s'.threads == s.threads && s'.futures == s.futures
  {
    SectionLengths(s.mem.registry, s.calls[c].waker, [], 0);
  }

  lemma FutureLowers(s: State, f: nat)
    requires s.mem.word.completed && CanRunFuture(s, f)
    ensures var s' := FutureStep(s, f);
            && s'.futures == s.futures[f := s'.futures[f]]
            && FutureRank(s'.futures[f].pc) < FutureRank(s.futures[f].pc)
            && |s'.mem.registry| <= |s.mem.registry| + 1
            && s'.completer == s.completer && s'.threads == s.threads && s'.calls == s.calls
  {
    var pc := s.futures[f].pc;
    SectionLengths(s.mem.registry, if pc.PollPush? then pc.w else 0, s.futures[f].wakers, 0);
  }

  lemma CompleterLowers(s: State, panics: bool)
    requires CellInv(s) && DrainInv(s) && s.mem.word.completed && CompleterBusy(s.completer)
    ensures var s' := CompleterStep(s, panics);
            && CompleterRank(s') < CompleterRank(s)
            && s'.threads == s.threads && s'.calls == s.calls && s'.futures == s.futures
  {
  }

  lemma RankSplit(s: State, s': State, i: nat)
    requires |s'.mem.registry| <= |s.mem.registry| + 1 && s'.completer == s.completer
    requires
      || (i < |s.threads| == |s'.threads| && s'.threads == s.threads[i := s'.threads[i]] && s'.calls == s.calls
          && s'.futures == s.futures
          && WaitRank(s'.threads[i].pc) < WaitRank(s.threads[i].pc))
      || (i < |s.calls| == |s'.calls| && s'.calls == s.calls[i := s'.calls[i]] && s'.threads == s.threads
          && s'.futures == s.futures
          && CallRank(s'.calls[i].pc) < CallRank(s.calls[i].pc))
      || (i < |s.futures| == |s'.futures| && s'.futures == s.futures[i := s'.futures[i]] && s'.threads == s.threads
          && s'.calls == s.calls
          && FutureRank(s'.futures[i].pc) < FutureRank(s.futures[i].pc))
    ensures Rank(s') < Rank(s)
  {
    if s'.threads != s.threads {
      assert WaitRanks(s'.threads) == WaitRanks(s.threads)[i := WaitRank(s'.threads[i].pc)];
      SumUpdate(WaitRanks(s.threads), i, WaitRank(s'.threads[i].pc));
    } else if s'.calls != s.calls {
      assert CallRanks(s'.calls) == CallRanks(s.calls)[i := CallRank(s'.calls[i].pc)];
      SumUpdate(CallRanks(s.calls), i, CallRank(s'.calls[i].pc));
    } else {
      assert FutureRanks(s'.futures) == FutureRanks(s.futures)[i := FutureRank(s'.futures[i].pc)];
      SumUpdate(FutureRanks(s.futures), i, FutureRank(s'.futures[i].pc));
    }
  }

  /** After publication every step of a started operation strictly lowers the rank. */
  lemma StepLowersRank(s: State, step: Step)
    requires Inv(s) && s.mem.word.completed && Enabled(s, step) && Inner(step)
    ensures Rank(Apply(s, step)) < Rank(s)
  {
    var s' := Apply(s, step);
    if step.RunThread? {
      ThreadLowers(s, step.t);
      RankSplit(s, s', step.t);
    } else if step.RunCall? {
      CallLowers(s, step.c);
      RankSplit(s, s', step.c);
    } else if step.RunFuture? {
      FutureLowers(s, step.f);
      RankSplit(s, s', step.f);
    } else if step.RunCompleter? {
      CompleterLowers(s, step.panics);
    } else {
      RankSplit(s, s', step.t);
    }
  }

  lemma RankIsNatural(s: State)
    requires Inv(s)
    ensures Rank(s) >= 0
  {
  }

  // ---- Somebody can always move --------------------------------------------------------------------

  /** Nobody is inside an operation any more. */
  predicate AllReturned(s: State) {
    && (forall t :: 0 <= t < |s.threads| ==> !ThreadBusy(s.threads[t].pc))
    && (forall c :: 0 <= c < |s.calls| ==> s.calls[c].pc.RegReturned?)
    && (forall f :: 0 <= f < |s.futures| ==> !FutureBusy(s.futures[f].pc))
    && !CompleterBusy(s.completer)
  }

  /** Steps that the program takes by itself. */
  predicate Own(step: Step) {
    step.RunThread? || step.RunCall? || step.RunFuture? || step.RunCompleter?
  }

  /** The program can take no step by itself. */
  ghost predicate Stuck(s: State) {
    forall step {:trigger Own(step)} :: Own(step) ==> !Enabled(s, step)
  }

  /** Whoever holds the registry mutex can take its next step. */
  lemma HolderCanMove(s: State) returns (step: Step)
    requires LockInv(s) && s.lock.Some?
    ensures Enabled(s, step) && Own(step)
  {
    assert Holds(s, s.lock.value);
    match s.lock.value
    case ByThread(t) => step := RunThread(t);
    case ByCall(c) => step := RunCall(c);
    case ByFuture(f) => step := RunFuture(f);
    case ByCompleter => step := RunCompleter(false);
  }

  /** After publication, while anyone is busy, somebody can move without a spurious wake or a deadline. */
  lemma SomebodyCanMove(s: State) returns (step: Step)
    requires Inv(s) && s.mem.word.completed && !AllReturned(s)
    ensures Enabled(s, step) && Own(step)
  {
    if s.lock.Some? {
      step := HolderCanMove(s);
    } else if CompleterBusy(s.completer) {
      step := RunCompleter(false);
    } else if t: nat :| t < |s.threads| && ThreadBusy(s.threads[t].pc) {
      assert ThreadOk(s, t);
      step := RunThread(t);
    } else if c: nat :| c < |s.calls| && !s.calls[c].pc.RegReturned? {
      step := RunCall(c);
    } else {
      var f: nat :| f < |s.futures| && FutureBusy(s.futures[f].pc);
      step := RunFuture(f);
    }
  }

  ghost predicate InnerNext(s: State, s': State) {
    exists step :: Inner(step) && Enabled(s, step) && s' == Apply(s, step)
  }

  ghost predicate InnerAt(run: seq<State>, i: nat) {
    i + 1 < |run| ==> InnerNext(run[i], run[i + 1])
  }

  /** A run of steps of operations started before its first state. */
  ghost predicate IsInnerRun(run: seq<State>) {
    && |run| > 0
    && forall i: nat :: InnerAt(run, i)
  }

  lemma InnerNextLowers(s: State, s': State)
    requires Inv(s) && s.mem.word.completed && InnerNext(s, s')
    ensures Inv(s') && s'.mem.word.completed && Rank(s') < Rank(s)
  {
    var step :| Inner(step) && Enabled(s, step) && s' == Apply(s, step);
    StepKeepsInv(s, step);
    StepLowersRank(s, step);
    StepLater(s, step);
  }

  lemma {:induction false} InnerRunLowers(run: seq<State>, i: nat)
    requires IsInnerRun(run) && Inv(run[0]) && run[0].mem.word.completed && i < |run|
    ensures Inv(run[i]) && run[i].mem.word.completed && Rank(run[i]) + i <= Rank(run[0])
  {
    if i > 0 {
      InnerRunLowers(run, i - 1);
      assert InnerAt(run, i - 1);
      InnerNextLowers(run[i - 1], run[i]);
    }
  }

  // ---- Who returns what ------------------------------------------------------------------------------

  /** Inside an operation a call keeps its kind and does not go back to idle; outside it does not move. */
  predicate SameCall(a: WaitCall, b: WaitCall) {
    && b.timed == a.timed
    && (!a.pc.WaitIdle? ==> !b.pc.WaitIdle?)
    && (!ThreadBusy(a.pc) ==> b == a)
  }

  lemma ThreadKeepsCall(s: State, x: nat, t: nat)
    requires x < |s.threads| && ThreadBusy(s.threads[x].pc) && t < |s.threads|
    ensures |ThreadStep(s, x).threads| == |s.threads| && SameCall(s.threads[t], ThreadStep(s, x).threads[t])
  {
  }

  lemma StepKeepsCall(s: State, step: Step, t: nat)
    requires Inner(step) && Enabled(s, step) && t < |s.threads|
    ensures t < |Apply(s, step).threads| && SameCall(s.threads[t], Apply(s, step).threads[t])
  {
    if step.RunThread? {
      ThreadKeepsCall(s, step.t, t);
    } else if step.RunCall? {
      assert CallStep(s, step.c).threads == s.threads;
    } else if step.RunFuture? {
      FutureFrame(s, step.f);
    }
  }

  lemma InnerKeepsCall(s: State, s': State, t: nat)
    requires Inv(s) && s.mem.word.completed && InnerNext(s, s') && t < |s.threads|
    ensures t < |s'.threads| && SameCall(s.threads[t], s'.threads[t]) && s'.mem.cell == s.mem.cell
  {
    var step :| Inner(step) && Enabled(s, step) && s' == Apply(s, step);
    StepKeepsCall(s, step, t);
    StepLater(s, step);
  }

  lemma {:induction false} InnerRunKeepsCall(run: seq<State>, i: nat, t: nat)
    requires IsInnerRun(run) && Inv(run[0]) && run[0].mem.word.completed && i < |run| && t < |run[0].threads|
    ensures t < |run[i].threads| && SameCall(run[0].threads[t], run[i].threads[t]) && run[i].mem.cell == run[0].mem.cell
  {
    if i > 0 {
      InnerRunKeepsCall(run, i - 1, t);
      InnerRunLowers(run, i - 1);
      assert InnerAt(run, i - 1);
      InnerKeepsCall(run[i - 1], run[i], t);
    }
  }

  /** A waiter inside its call ends with outcome `cell`, unless it has a deadline and gave up. */
  predicate Answered(before: WaitCall, after: WaitCall, cell: Option<Outcome>) {
    ThreadBusy(before.pc) ==>
      after.pc == WaitReturned(cell) || (before.timed && after.pc == WaitTimedOut)
  }

  /** Thread `t`, if it waited in `s`, has its answer in `last`. */
  predicate AnsweredIn(s: State, last: State, t: nat) {
    t < |s.threads| ==> t < |last.threads| && Answered(s.threads[t], last.threads[t], s.mem.cell)
  }

  ghost predicate AllAnswered(s: State, last: State) {
    forall t: nat :: AnsweredIn(s, last, t)
  }

  lemma EveryWaiterIsAnswered(run: seq<State>, t: nat)
    requires IsInnerRun(run) && Inv(run[0]) && run[0].mem.word.completed
    requires AllReturned(run[|run| - 1])
    ensures AnsweredIn(run[0], run[|run| - 1], t)
  {
    if t < |run[0].threads| {
      InnerRunLowers(run, |run| - 1);
      InnerRunKeepsCall(run, |run| - 1, t);
      assert ThreadOk(run[|run| - 1], t);
    }
  }

  /**
   Post-publication termination. A run of started operations has at most `Rank` steps; where it
   cannot go on by itself everyone has returned: every `wait` with the published outcome, every
   `wait_timeout` with the published outcome or with `None`.
  */
  lemma EverybodyReturns(run: seq<State>)
    requires IsInnerRun(run) && Inv(run[0]) && run[0].mem.word.completed
    ensures |run| - 1 <= Rank(run[0])
    ensures run[0].mem.cell.Some?
    ensures Stuck(run[|run| - 1]) ==>
              && AllReturned(run[|run| - 1])
              && AllAnswered(run[0], run[|run| - 1])
  {
    var last := run[|run| - 1];
    InnerRunLowers(run, |run| - 1);
    RankIsNatural(last);
    if Stuck(last) {
      if !AllReturned(last) {
        var step := SomebodyCanMove(last);
        assert false;
      }
      forall t: nat ensures AnsweredIn(run[0], last, t) {
        EveryWaiterIsAnswered(run, t);
      }
    }
  }
}
