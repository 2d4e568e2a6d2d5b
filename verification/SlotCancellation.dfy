/** Dropped futures, over every run. */
module SlotCancellation {
  // Dropped before publication: nothing, for ever. Dropped afterwards: at most the wake of the waker
  // that its last poll registered just before it found the outcome, and never recorded.

  import opened Options
  import opened Registry
  import opened SlotMemory
  import opened SlotProtocol
  import opened SlotInvariant
  import opened SlotTheorems

  lemma StepKeepsDropped(s: State, step: Step, f: nat)
    requires Enabled(s, step) && f < |s.futures| && s.futures[f].pc.FutDropped?
    ensures f < |Apply(s, step).futures| && Apply(s, step).futures[f] == s.futures[f]
  {
    if step.RunThread? {
      ThreadFrame(s, step.t);
    } else if step.RunCall? {
      assert CallStep(s, step.c).futures == s.futures;
    } else if step.RunFuture? {
      FutureFrame(s, step.f);
    }
  }

  lemma {:induction false} DroppedStays(run: seq<State>, d: nat, i: nat, f: nat)
    requires IsRun(run) && d <= i < |run| && f < |run[d].futures| && run[d].futures[f].pc.FutDropped?
    ensures f < |run[i].futures| && run[i].futures[f] == run[d].futures[f]
  {
    if d < i {
      DroppedStays(run, d, i - 1, f);
      assert StepAt(run, i - 1);
      var step :| Enabled(run[i - 1], step) && run[i] == Apply(run[i - 1], step);
      StepKeepsDropped(run[i - 1], step, f);
    }
  }

  /** The future was dropped while the slot was pending. */
  predicate CancelledAt(run: seq<State>, d: nat, f: nat) {
    d < |run| && f < |run[d].futures| && run[d].futures[f].pc.FutDropped? && !run[d].mem.word.completed
  }

  /** A future dropped before publication owns nothing, then and ever after. */
  lemma CancelledOwnsNothing(run: seq<State>, d: nat, i: nat, f: nat)
    requires IsRun(run) && CancelledAt(run, d, f) && d <= i < |run|
    ensures f < |run[i].futures| && forall w :: !Owns(run[i].futures[f], w)
  {
    RunInv(run, d);
    assert FutureOk(run[d], f);
    DroppedStays(run, d, i, f);
  }

  /** `w` is owed a wake by a direct registration or by a future other than `f`. */
  predicate OwedBesides(s: State, f: nat, w: WakerId) {
    w in s.directs || exists g :: 0 <= g < |s.futures| && g != f && Owns(s.futures[g], w)
  }

  lemma OwedByOthers(s: State, f: nat, w: WakerId)
    requires f < |s.futures| && !Owns(s.futures[f], w)
    ensures Owed(s, w) <==> OwedBesides(s, f, w)
  {
    if OwnerCount(s.futures, w) > 0 {
      var g := CountedIsOwned(s.futures, w);
      assert g != f;
    }
    forall g | 0 <= g < |s.futures| && g != f && Owns(s.futures[g], w) ensures Owed(s, w) {
      OwnedMeansCounted(s.futures, g, w);
    }
  }

  /**
   A future dropped before publication contributes no wake and takes none from a sibling: the
   wakers fired are exactly those owed, at one instant after publication, to anybody else.
  */
  lemma CancellationAddsNothing(run: seq<State>, d: nat, j: nat, f: nat) returns (i: nat)
    requires IsRun(run) && CancelledAt(run, d, f) && j < |run| && run[j].completer.Done?
    ensures d < i <= j && run[i].mem.word.completed
    ensures forall w :: multiset(run[j].fired)[w] == if OwedBesides(run[i], f, w) then 1 else 0
  {
    i := ExactlyTheRightWakes(run, j);
    if i <= d {
      RunLater(run, i, d);
      assert false;
    }
    CancelledOwnsNothing(run, d, i, f);
    forall w ensures multiset(run[j].fired)[w] == if OwedBesides(run[i], f, w) then 1 else 0 {
      OwedByOthers(run[i], f, w);
    }
  }

  // ---- The wake that a dropped future can still cause --------------------------------------------------------

  /** Future 0 polled with `w`: how far the poll is after `k` of its steps on a pending slot. */
  function PollPc(w: WakerId, k: nat): FuturePc {
    match k
    case 0 => PollGet(w)
    case 1 => PollLoad(w)
    case 2 => PollSetBit(w)
    case 3 => PollLock(w)
    case 4 => PollRecheck(w)
    case 5 => PollPush(w)
    case 6 => PollUnlock(w, true)
    case _ => PollGetAgain(w, false, true)
  }

  /** The poll registered its waker and is about to look again. */
  lemma PollRegistered(w: WakerId) returns (run: seq<State>)
    ensures IsRun(run)
    ensures var s := run[|run| - 1];
            && s.futures == [FutureState(PollGetAgain(w, false, true), [], 0, None)]
            && s.completer.Pending? && s.lock.None? && s.fired == []
            && s.mem == SlotMem(Word(false, true, false), None, true, [Waker(w, false, 1)])
  {
    var s := Fresh(FreshMem(), {});
    run := [s];
    forall k: nat ensures StepAt(run, k) {}
    Extended(run, NewFuture(0));
    s := Apply(s, NewFuture(0));
    run := run + [s];
    Extended(run, StartPoll(0, w));
    s := Apply(s, StartPoll(0, w));
    run := run + [s];
    for k := 0 to 7
      invariant IsRun(run) && s == run[|run| - 1]
      invariant s.futures == [FutureState(PollPc(w, k), [], 0, None)]
      invariant s.completer.Pending? && s.fired == [] && s.lock == if 4 <= k < 7 then Some(ByFuture(0)) else None
      invariant s.mem == SlotMem(Word(false, k >= 3, false), None, k >= 4, if k >= 6 then [Waker(w, false, 1)] else [])
    {
      Extended(run, RunFuture(0));
      s := Apply(s, RunFuture(0));
      run := run + [s];
    }
  }

  /** ... then the outcome was published and the poll answered; nothing fired yet. */
  lemma AnsweredWhileListed(w: WakerId, v: Outcome) returns (run: seq<State>)
    ensures IsRun(run)
    ensures var s := run[|run| - 1];
            && s.futures == [FutureState(FutReady(Some(v)), [], 0, Some(w))]
            && s.completer.DrainLock? && s.lock.None? && s.fired == [] && s.mem.registry == [Waker(w, false, 1)]
  {
    run := PollRegistered(w);
    var s := run[|run| - 1];
    Extended(run, StartComplete(v));
    s := Apply(s, StartComplete(v));
    run := run + [s];
    Extended(run, RunCompleter(false));
    s := Apply(s, RunCompleter(false));
    run := run + [s];
    Extended(run, RunFuture(0));
    s := Apply(s, RunFuture(0));
    run := run + [s];
  }

  /** ... and the future was dropped. */
  lemma AnsweredAndDropped(w: WakerId, v: Outcome) returns (run: seq<State>)
    ensures IsRun(run)
    ensures var s := run[|run| - 1];
            && s.futures == [FutureState(FutDropped, [], 0, Some(w))]
            && s.completer.DrainLock? && s.lock.None? && s.fired == [] && s.mem.registry == [Waker(w, false, 1)]
  {
    run := AnsweredWhileListed(w, v);
    var s := run[|run| - 1];
    Extended(run, StartDrop(0));
    run := run + [Apply(s, StartDrop(0))];
  }

  /** A poll answered `Ready` after registering leaves its waker listed: it fires although the future is gone. */
  lemma ADroppedFutureMayFire(w: WakerId, v: Outcome) returns (run: seq<State>, gone: nat)
    ensures IsRun(run) && gone < |run|
    ensures |run[gone].futures| == 1 && run[gone].futures[0].pc.FutDropped? && run[gone].fired == []
    ensures run[|run| - 1].fired == [w]
  {
    run := AnsweredAndDropped(w, v);
    gone := |run| - 1;
    ghost var before := run;
    var s := run[gone];
    for k := 0 to 4
      invariant IsRun(run) && s == run[|run| - 1] && gone < |run| && run[gone] == before[gone]
      invariant s.fired == if k == 4 then [w] else []
      invariant s.lock == if 1 <= k < 3 then Some(ByCompleter) else None
      invariant k <= 1 ==> s.mem.registry == [Waker(w, false, 1)]
      invariant s.completer == if k == 0 then DrainLock else if k == 1 then DrainTake
                               else if k == 2 then DrainUnlock([Waker(w, false, 1)])
                               else Notify([Waker(w, false, 1)], k - 3, [])
    {
      Extended(run, RunCompleter(false));
      s := Apply(s, RunCompleter(false));
      run := run + [s];
    }
  }
}
