/** The drain, over every run. */
module SlotDrains {
  // Every entry of the taken registry is notified at exactly one instant, a thread by its own token
  // and a waker by its own wake; the panic that goes on is the first; tokens come from nowhere else.

  import opened Options
  import opened Registry
  import opened SlotProtocol
  import opened SlotInvariant
  import opened SlotTheorems

  // ---- One step ----------------------------------------------------------------------------------------------

  /** Only the completer's own steps move it. */
  lemma OthersKeepCompleter(s: State, step: Step)
    requires Inv(s) && Enabled(s, step) && !step.RunCompleter? && !step.StartComplete?
    ensures Apply(s, step).completer == s.completer && Apply(s, step).fired == s.fired
  {
    if step.RunThread? {
      ThreadFrame(s, step.t);
    } else if step.RunCall? {
      assert CallOk(s, step.c);
      CallFrame(s, step.c);
    } else if step.RunFuture? {
      FutureFrame(s, step.f);
    }
  }

  /** The drain loop is past entry `k`. */
  predicate Past(c: CompleterPc, k: nat) {
    (c.Notify? && c.next > k) || (c.Done? && c.drained && k < |c.taken|)
  }

  /** At instant `d` the drain loop notifies entry `k`, whose wake panics or not. */
  predicate NotifiesAt(run: seq<State>, d: nat, k: nat, panics: bool) {
    && d + 1 < |run|
    && run[d].completer.Notify? && run[d].completer.next == k && k < |run[d].completer.taken|
    && run[d + 1] == Apply(run[d], RunCompleter(panics))
  }

  lemma PastMoves(s: State, step: Step, k: nat)
    requires Inv(s) && Enabled(s, step)
    ensures Past(s.completer, k) ==> Past(Apply(s, step).completer, k)
    ensures Past(Apply(s, step).completer, k) && !Past(s.completer, k) ==>
              && step.RunCompleter? && s.completer.Notify? && s.completer.next == k && k < |s.completer.taken|
              && Apply(s, step).completer.taken == s.completer.taken
  {
    if !step.RunCompleter? && !step.StartComplete? {
      OthersKeepCompleter(s, step);
    }
  }

  lemma RunPast(run: seq<State>, j: nat, k: nat)
    requires IsRun(run) && j + 1 < |run|
    ensures Past(run[j].completer, k) ==> Past(run[j + 1].completer, k)
    ensures Past(run[j + 1].completer, k) && !Past(run[j].completer, k) ==>
              && run[j].completer.Notify? && run[j + 1].completer.taken == run[j].completer.taken
              && exists panics :: NotifiesAt(run, j, k, panics)
  {
    RunInv(run, j);
    assert StepAt(run, j);
    var step :| Enabled(run[j], step) && run[j + 1] == Apply(run[j], step);
    PastMoves(run[j], step, k);
    if Past(run[j + 1].completer, k) && !Past(run[j].completer, k) {
      assert NotifiesAt(run, j, k, step.panics);
    }
  }

  lemma {:induction false} PastStays(run: seq<State>, d: nat, i: nat, k: nat)
    requires IsRun(run) && d <= i < |run| && Past(run[d].completer, k)
    ensures Past(run[i].completer, k)
  {
    if d < i {
      PastStays(run, d, i - 1, k);
      RunPast(run, i - 1, k);
    }
  }

  // ---- Every entry, once -----------------------------------------------------------------------------------------

  lemma {:induction false} Notified(run: seq<State>, j: nat, k: nat) returns (d: nat, panics: bool)
    requires IsRun(run) && j < |run| && Past(run[j].completer, k)
    ensures d < j && NotifiesAt(run, d, k, panics)
    ensures run[d].completer.taken == run[j].completer.taken
  {
    assert j > 0;
    RunPast(run, j - 1, k);
    if Past(run[j - 1].completer, k) {
      d, panics := Notified(run, j - 1, k);
      RunLater(run, j - 1, j);
    } else {
      d := j - 1;
      panics :| NotifiesAt(run, d, k, panics);
    }
  }

  /** What notifying entry `e` does: a thread gets its park token, a waker is woken; nothing else is notified. */
  predicate Delivers(s: State, s': State, e: Waiter) {
    && (e.Thread? ==> s'.tokens == s.tokens + {e.thread} && s'.fired == s.fired)
    && (e.Waker? ==> s'.fired == s.fired + [e.waker] && s'.tokens == s.tokens)
  }

  /**
   When the drain is over, each entry of the registry that it took was notified at one instant `d`
   and at no other, with its own notification and nobody else's.
  */
  lemma EveryEntryIsNotifiedOnce(run: seq<State>, j: nat, k: nat) returns (d: nat)
    requires IsRun(run) && j < |run| && run[j].completer.Done? && run[j].completer.drained
    requires k < |run[j].completer.taken|
    ensures d < j && (exists panics :: NotifiesAt(run, d, k, panics))
    ensures Delivers(run[d], run[d + 1], run[j].completer.taken[k])
    ensures forall e: nat, panics :: NotifiesAt(run, e, k, panics) ==> e == d
  {
    var panics: bool;
    d, panics := Notified(run, j, k);
    forall e: nat, p | NotifiesAt(run, e, k, p) ensures e == d {
      if e < d {
        PastStays(run, e + 1, d, k);
      } else if d < e {
        PastStays(run, d + 1, e, k);
      }
    }
  }

  // ---- Panics ------------------------------------------------------------------------------------------------------

  /** At instant `d` the drain loop wakes a waker, and the wake panics. */
  predicate PanicsAt(run: seq<State>, d: nat) {
    && d + 1 < |run|
    && run[d].completer.Notify? && run[d].completer.next < |run[d].completer.taken|
    && run[d].completer.taken[run[d].completer.next].Waker?
    && run[d + 1] == Apply(run[d], RunCompleter(true))
  }

  function WokenAt(s: State): Option<WakerId> {
    if s.completer.Notify? && s.completer.next < |s.completer.taken| && s.completer.taken[s.completer.next].Waker?
    then Some(s.completer.taken[s.completer.next].waker) else None
  }

  /** The first panic before instant `j`, if any. */
  function FirstPanic(run: seq<State>, j: nat): Option<WakerId>
    requires j < |run|
  {
    if j == 0 then None
    else if FirstPanic(run, j - 1).Some? then FirstPanic(run, j - 1)
    else if PanicsAt(run, j - 1) then WokenAt(run[j - 1])
    else None
  }

  /** The panic that the completer would pass on. */
  function Kept(c: CompleterPc): Option<WakerId> {
    match c
    case Notify(_, _, panics) => if panics == [] then None else Some(panics[0])
    case Done(_, _, panic) => panic
    case _ => None
  }

  lemma KeptMoves(s: State, step: Step)
    requires Inv(s) && Enabled(s, step)
    ensures Kept(s.completer).Some? ==> Kept(Apply(s, step).completer) == Kept(s.completer)
    ensures Kept(s.completer).None? ==>
              Kept(Apply(s, step).completer) == if step == RunCompleter(true) then WokenAt(s) else None
  {
    if !step.RunCompleter? && !step.StartComplete? {
      OthersKeepCompleter(s, step);
    }
  }

  lemma {:induction false} KeptIsTheFirst(run: seq<State>, j: nat)
    requires IsRun(run) && j < |run|
    ensures Kept(run[j].completer) == FirstPanic(run, j)
  {
    if j > 0 {
      KeptIsTheFirst(run, j - 1);
      RunInv(run, j - 1);
      assert StepAt(run, j - 1);
      var step :| Enabled(run[j - 1], step) && run[j] == Apply(run[j - 1], step);
      KeptMoves(run[j - 1], step);
      if PanicsAt(run, j - 1) {
        KeptMoves(run[j - 1], RunCompleter(true));
      }
    }
  }

  lemma {:induction false} FirstPanicIsFirst(run: seq<State>, j: nat)
    requires j < |run|
    ensures FirstPanic(run, j).None? <==> forall d: nat :: d < j ==> !PanicsAt(run, d)
    ensures FirstPanic(run, j).Some? ==>
              exists d: nat :: d < j && PanicsAt(run, d) && WokenAt(run[d]) == FirstPanic(run, j)
                && forall e: nat :: e < d ==> !PanicsAt(run, e)
  {
    if j > 0 {
      FirstPanicIsFirst(run, j - 1);
    }
  }

  /**
   `complete` passes on a panic exactly if some wake panicked, and then that of the first waker
   whose wake did, however many followed.
  */
  lemma TheFirstPanicGoesOn(run: seq<State>, j: nat)
    requires IsRun(run) && j < |run| && run[j].completer.Done?
    ensures run[j].completer.panic.None? <==> forall d: nat :: d < j ==> !PanicsAt(run, d)
    ensures run[j].completer.panic.Some? ==>
              exists d: nat :: d < j && PanicsAt(run, d) && WokenAt(run[d]) == run[j].completer.panic
                && forall e: nat :: e < d ==> !PanicsAt(run, e)
  {
    KeptIsTheFirst(run, j);
    FirstPanicIsFirst(run, j);
  }

  // ---- Tokens ----------------------------------------------------------------------------------------------------

  /** This step of the drain loop unparks thread `t`. */
  predicate Unparks(s: State, step: Step, t: nat) {
    && step.RunCompleter? && s.completer.Notify?
    && s.completer.next < |s.completer.taken| && s.completer.taken[s.completer.next] == Thread(t)
  }

  /** Thread `t` returns from its park by this step. */
  predicate Unparked(s: State, step: Step, t: nat) {
    step == RunThread(t) && t < |s.threads| && (s.threads[t].pc.WaitPark? || s.threads[t].pc.WaitParkTimed?)
  }

  lemma ThreadTokens(s: State, t: nat)
    requires CanRunThread(s, t)
    ensures ThreadStep(s, t).tokens
            == s.tokens - if s.threads[t].pc.WaitPark? || s.threads[t].pc.WaitParkTimed? then {t} else {}
  {
  }

  lemma TokenMoves(s: State, step: Step, t: nat)
    requires Inv(s) && Enabled(s, step)
    ensures t in Apply(s, step).tokens <==>
              || step == OutsideUnpark(t) || Unparks(s, step, t)
              || (t in s.tokens && step != OutsidePark(t) && !Unparked(s, step, t))
  {
    if step.RunThread? {
      ThreadTokens(s, step.t);
    } else if step.RunCall? {
      assert CallStep(s, step.c).tokens == s.tokens;
    } else if step.RunFuture? {
      FutureFrame(s, step.f);
    }
  }

  /**
   A thread has its token after a step exactly if the step was its unpark, by a drain of a registry
   that lists it or from elsewhere, or it had it and did not use it up, in its park or elsewhere.
  */
  lemma TokensHaveReasons(run: seq<State>, j: nat) returns (step: Step)
    requires IsRun(run) && j + 1 < |run|
    ensures Enabled(run[j], step) && run[j + 1] == Apply(run[j], step)
    ensures forall t: nat :: t in run[j + 1].tokens <==>
              || step == OutsideUnpark(t) || Unparks(run[j], step, t)
              || (t in run[j].tokens && step != OutsidePark(t) && !Unparked(run[j], step, t))
  {
    RunInv(run, j);
    assert StepAt(run, j);
    step :| Enabled(run[j], step) && run[j + 1] == Apply(run[j], step);
    forall t: nat
      ensures t in run[j + 1].tokens <==>
                || step == OutsideUnpark(t) || Unparks(run[j], step, t)
                || (t in run[j].tokens && step != OutsidePark(t) && !Unparked(run[j], step, t))
    {
      TokenMoves(run[j], step, t);
    }
  }
}
