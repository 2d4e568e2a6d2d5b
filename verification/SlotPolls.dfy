/** How a poll ends, over every run. */
module SlotPolls {
  // Whatever happens between its steps: `Ready` exactly if its last look found the outcome, and else
  // `Pending` with its waker registered and recorded, so that publication wakes it.

  import opened Options
  import opened Registry
  import opened SlotProtocol
  import opened SlotInvariant
  import opened SlotTheorems

  /** The waker of the poll in progress. */
  function PollWaker(pc: FuturePc): Option<WakerId> {
    match pc
    case PollGet(w) => Some(w)
    case PollLoad(w) => Some(w)
    case PollSetBit(w) => Some(w)
    case PollLock(w) => Some(w)
    case PollRecheck(w) => Some(w)
    case PollPush(w) => Some(w)
    case PollUnlock(w, _) => Some(w)
    case PollGetAgain(w, _, _) => Some(w)
    case PollRecord(w) => Some(w)
    case _ => None
  }

  /** Future `f` is inside a poll with `w` at instant `j`. */
  predicate PollingAt(run: seq<State>, j: nat, f: nat, w: WakerId) {
    j < |run| && f < |run[j].futures| && PollWaker(run[j].futures[f].pc) == Some(w)
  }

  /** The last look of a poll with `w`, the one after its registration, finds the slot pending and `w` listed. */
  predicate LooksInVain(s: State, f: nat, w: WakerId) {
    && f < |s.futures| && s.futures[f].pc.PollGetAgain? && s.futures[f].pc.w == w
    && !s.mem.word.completed && w in Wakers(s.mem.registry)
  }

  // ---- One step --------------------------------------------------------------------------------------------

  /** The part of a future's drop that has let go of its wakers. */
  predicate LetGo(pc: FuturePc) {
    pc.DropUnlock? || pc.FutDropped?
  }

  /** How one step may change a future from `a` to `b`. */
  predicate FutureMoves(s: State, a: FutureState, b: FutureState) {
    && (forall w :: w in a.wakers && !LetGo(b.pc) ==> w in b.wakers)
    && (LetGo(a.pc) ==> LetGo(b.pc))
    && (b.pc.PollRecord? ==>
          || b == a
          || (a.pc.PollGetAgain? && a.pc.w == b.pc.w && !a.pc.known && !s.mem.word.completed))
    && (PollWaker(a.pc).Some? ==> PollWaker(b.pc) == PollWaker(a.pc) || PollWaker(b.pc).None?)
    && (PollWaker(a.pc).Some? && PollWaker(b.pc).None? ==>
          || (b.pc.FutReady? && (a.pc.PollGet? || a.pc.PollGetAgain?) && s.mem.word.completed
              && b.pc.result == s.mem.cell)
          || (b.pc.FutIdle? && a.pc.PollGetAgain? && a.pc.known && !s.mem.word.completed)
          || (b.pc.FutIdle? && a.pc.PollRecord? && a.pc.w in b.wakers))
  }

  lemma OwnStepMoves(s: State, f: nat)
    requires CanRunFuture(s, f)
    ensures FutureMoves(s, s.futures[f], FutureStep(s, f).futures[f])
  {
  }

  lemma StepMoves(s: State, step: Step, f: nat)
    requires Enabled(s, step) && f < |s.futures|
    ensures f < |Apply(s, step).futures| && FutureMoves(s, s.futures[f], Apply(s, step).futures[f])
  {
    if step.RunThread? {
      ThreadFrame(s, step.t);
    } else if step.RunCall? {
      assert CallStep(s, step.c).futures == s.futures;
    } else if step.RunFuture? {
      FutureFrame(s, step.f);
      OwnStepMoves(s, step.f);
    }
  }

  /** No step adds a future that is already being polled. */
  lemma NewFuturesAreIdle(s: State, step: Step, f: nat)
    requires Enabled(s, step) && f < |Apply(s, step).futures|
    ensures f < |s.futures| || Apply(s, step).futures[f].pc.FutIdle?
  {
    if step.RunThread? {
      ThreadFrame(s, step.t);
    } else if step.RunCall? {
      assert CallStep(s, step.c).futures == s.futures;
    } else if step.RunFuture? {
      FutureFrame(s, step.f);
    }
  }

  lemma RunMoves(run: seq<State>, j: nat, f: nat)
    requires IsRun(run) && j + 1 < |run|
    ensures f < |run[j].futures| ==>
              f < |run[j + 1].futures| && FutureMoves(run[j], run[j].futures[f], run[j + 1].futures[f])
    ensures |run[j].futures| <= f < |run[j + 1].futures| ==> run[j + 1].futures[f].pc.FutIdle?
  {
    assert StepAt(run, j);
    var step :| Enabled(run[j], step) && run[j + 1] == Apply(run[j], step);
    if f < |run[j].futures| {
      StepMoves(run[j], step, f);
    } else if f < |run[j + 1].futures| {
      NewFuturesAreIdle(run[j], step, f);
    }
  }

  // ---- Pending ---------------------------------------------------------------------------------------------

  /** A poll that looks again on a pending slot has its waker in the registry, recorded before or registered now. */
  lemma LookingIsListed(s: State, f: nat)
    requires Inv(s) && f < |s.futures| && s.futures[f].pc.PollGetAgain? && !s.mem.word.completed
    ensures LooksInVain(s, f, s.futures[f].pc.w)
    ensures s.futures[f].pc.known ==> s.futures[f].pc.w in s.futures[f].wakers
  {
    var w := s.futures[f].pc.w;
    assert FutureOk(s, f);
    assert Owns(s.futures[f], w);
    OwnedMeansCounted(s.futures, f, w);
    TallyWakers(s.mem.registry, w);
    assert TallyOf(s.mem.registry, w) == Single(OwnerCount(s.futures, w), w in s.directs);
    assert w in Wakers(s.mem.registry) <==> w in multiset(Wakers(s.mem.registry));
  }

  /** A poll about to record its waker has looked in vain, and has been in the same poll since. */
  lemma {:induction false} LastLook(run: seq<State>, j: nat, f: nat, w: WakerId) returns (l: nat)
    requires IsRun(run) && j < |run| && f < |run[j].futures| && run[j].futures[f].pc == PollRecord(w)
    ensures l < j && LooksInVain(run[l], f, w)
    ensures forall i: nat :: l <= i <= j ==> PollingAt(run, i, f, w)
  {
    assert j > 0;
    RunMoves(run, j - 1, f);
    RunInv(run, j - 1);
    if run[j - 1].futures[f].pc.PollRecord? {
      l := LastLook(run, j - 1, f, w);
    } else {
      l := j - 1;
      LookingIsListed(run[l], f);
    }
  }

  /**
   A poll that answers `Pending` leaves its waker recorded, and its last look, after registering,
   found the slot pending and the waker listed. `l` is the instant of that look.
  */
  lemma PendingIsRecorded(run: seq<State>, j: nat, f: nat, w: WakerId) returns (l: nat)
    requires IsRun(run) && j + 1 < |run| && PollingAt(run, j, f, w)
    requires f < |run[j + 1].futures| && run[j + 1].futures[f].pc.FutIdle?
    ensures w in run[j + 1].futures[f].wakers
    ensures l <= j && LooksInVain(run[l], f, w)
    ensures forall i: nat :: l <= i <= j ==> PollingAt(run, i, f, w)
  {
    RunMoves(run, j, f);
    RunInv(run, j);
    if run[j].futures[f].pc.PollRecord? {
      l := LastLook(run, j, f, w);
    } else {
      l := j;
      LookingIsListed(run[j], f);
    }
  }

  /** A poll ends in one of two ways: `Ready` with the outcome that its look just found, or `Pending`. */
  lemma PollsEndAsTheyMust(run: seq<State>, j: nat, f: nat, w: WakerId)
    requires IsRun(run) && j + 1 < |run| && PollingAt(run, j, f, w) && !PollingAt(run, j + 1, f, w)
    ensures f < |run[j + 1].futures|
    ensures var a := run[j].futures[f].pc; var b := run[j + 1].futures[f].pc;
            || (b.FutReady? && (a.PollGet? || a.PollGetAgain?) && run[j].mem.word.completed
                && run[j].mem.cell.Some? && b.result == run[j].mem.cell)
            || (b.FutIdle? && exists l: nat :: l <= j && LooksInVain(run[l], f, w))
  {
    RunMoves(run, j, f);
    RunInv(run, j);
    if run[j + 1].futures[f].pc.FutIdle? {
      var l := PendingIsRecorded(run, j, f, w);
    }
  }

  // ---- ... and is woken --------------------------------------------------------------------------------------

  lemma {:induction false} RecordedStays(run: seq<State>, j: nat, i: nat, f: nat, w: WakerId)
    requires IsRun(run) && j <= i < |run| && f < |run[j].futures| && w in run[j].futures[f].wakers
    ensures f < |run[i].futures| && (w in run[i].futures[f].wakers || LetGo(run[i].futures[f].pc))
  {
    if j < i {
      RecordedStays(run, j, i - 1, f, w);
      RunMoves(run, i - 1, f);
    }
  }

  /**
   Once `complete` has returned, every waker with which a future that was not dropped since ever
   answered `Pending` has been woken, wherever between the poll's steps publication fell.
  */
  lemma PendingIsWoken(run: seq<State>, j: nat, i: nat, f: nat, w: WakerId)
    requires IsRun(run) && j < i < |run| && PollingAt(run, j, f, w)
    requires f < |run[j + 1].futures| && run[j + 1].futures[f].pc.FutIdle?
    requires run[i].completer.Done?
    ensures f < |run[i].futures|
    ensures !LetGo(run[i].futures[f].pc) ==> w in run[i].fired
  {
    var l := PendingIsRecorded(run, j, f, w);
    RecordedStays(run, j + 1, i, f, w);
    NoLostWakeup(run, i);
  }
}
