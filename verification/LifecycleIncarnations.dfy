/** Every incarnation of a slot runs the slot protocol. */
module LifecycleIncarnations {
  // So whatever holds over runs of the slot protocol holds in every generation, in recycled memory or not.

  import opened Options
  import opened Registry
  import opened SlotMemory
  import opened Space
  import opened Lifecycle
  import opened LifecycleInvariant
  import opened LifecycleRecycling
  import opened LifecycleHistory
  import P = SlotProtocol
  import SlotPolls
  import SlotTheorems

  // ---- What a step does to one slot ----------------------------------------------------------------------

  /** Live slot `i` stays in its incarnation, and takes at most one protocol step. */
  ghost predicate SlotContinues(s: State, s': State, i: SlotId) {
    && i < |s.protos| && i < |s.space.strong| && i < |s.incs| && i < |s'.protos| && i < |s'.incs|
    && s.space.strong[i] > 0 && s'.incs[i] == s.incs[i]
    && (s'.protos[i] == s.protos[i]
        || exists step :: P.Enabled(s.protos[i], step) && s'.protos[i] == P.Apply(s.protos[i], step))
  }

  /** Slot `i` starts afresh, in a new incarnation. */
  predicate SlotBegins(s: State, s': State, i: SlotId) {
    && i < |s'.protos| && i < |s'.incs| && s'.incs[i] == s.nextInc
    && s'.protos[i] == P.Fresh(FreshMem().(boxed := s'.protos[i].mem.boxed), s'.protos[i].tokens)
  }

  /** What a step does to the protocol state of one slot: nothing, one protocol step, a fresh start, or the end of the
      slot. */
  ghost predicate SlotEvolves(s: State, s': State, i: SlotId)
    requires Shape(s) && Shape(s')
  {
    i < |s'.protos| ==>
      || SlotContinues(s, s', i)
      || SlotBegins(s, s', i)
      || s'.space.strong[i] <= 0
  }

  lemma ProtocolEvolves(s: State, i: SlotId, step: P.Step, s': State)
    requires Shape(s) && Shape(s') && i < |s.protos| && P.Enabled(s.protos[i], step) && s.space.strong[i] > 0
    requires |s'.protos| == |s.protos| && s'.space.strong == s.space.strong
    requires s'.protos == s.protos[i := P.Apply(s.protos[i], step)] && s'.incs == s.incs
    requires forall j :: 0 <= j < |s.protos| ==> s.space.strong[j] >= 0
    ensures forall j :: 0 <= j < |s'.protos| ==> SlotEvolves(s, s', j)
  {
  }

  /** A step that only moves references: slots that stay live are as they were. */
  lemma PlainEvolves(s: State, s': State)
    requires Shape(s) && Shape(s') && MemoryKept(s, s') && s'.incs == s.incs
    ensures forall j :: 0 <= j < |s'.protos| ==> SlotEvolves(s, s', j)
  {
  }

  /** Recycling slot `i` starts it afresh and leaves every other slot as it was. */
  lemma RecycledEvolves(s: State, s': State, i: SlotId)
    requires Shape(s) && Shape(s') && i < |s.protos| == |s'.protos|
    requires s'.protos == s.protos[i := s'.protos[i]] && s'.incs == s.incs[i := s.nextInc] && SlotBegins(s, s', i)
    requires forall j :: 0 <= j < |s.protos| && j != i ==> s'.space.strong[j] == s.space.strong[j]
    ensures forall j :: 0 <= j < |s'.protos| ==> SlotEvolves(s, s', j)
  {
  }

  lemma RecycledFields(s: State, key: Key, i: SlotId, s': State)
    requires Recycles(s, key) && i == Popped(s) && i < |s.protos| && s' == SubjectEffect(s, key)
    ensures s'.protos == s.protos[i := P.Fresh(ResetMem(s.protos[i].mem), s.protos[i].tokens)]
    ensures s'.incs == s.incs[i := s.nextInc]
    ensures s'.space.strong == s.space.strong[i := s.space.strong[i] + 1]
  {
  }

  lemma PoppedEvolves(s: State, key: Key, s': State)
    requires Inv(s) && Recycles(s, key) && s' == SubjectEffect(s, key) && Shape(s')
    ensures forall j :: 0 <= j < |s'.protos| ==> SlotEvolves(s, s', j)
  {
    PoppedIsClean(s);
    RecycledFields(s, key, Popped(s), s');
    RecycledEvolves(s, s', Popped(s));
  }

  lemma SubjectEvolves(s: State, key: Key, s': State)
    requires Inv(s) && s' == SubjectEffect(s, key) && Shape(s')
    ensures forall j :: 0 <= j < |s'.protos| ==> SlotEvolves(s, s', j)
  {
    if key in s.space.table {
      ConflictChangesNothing(s, key);
      PlainEvolves(s, s');
    } else if s.space.pool != [] {
      PoppedEvolves(s, key, s');
    } else {
      CreatedEvolves(s, key);
    }
  }

  lemma CreatedEvolves(s: State, key: Key)
    requires Shape(s) && Shape(SubjectEffect(s, key)) && key !in s.space.table && s.space.pool == []
    requires forall j :: 0 <= j < |s.protos| ==> s.space.strong[j] >= 0
    ensures forall j :: 0 <= j < |SubjectEffect(s, key).protos| ==> SlotEvolves(s, SubjectEffect(s, key), j)
  {
  }

  lemma ExtendedEvolves(s: State)
    requires Shape(s) && Shape(PairEffect(s)) && forall j :: 0 <= j < |s.protos| ==> s.space.strong[j] >= 0
    ensures forall j :: 0 <= j < |PairEffect(s).protos| ==> SlotEvolves(s, PairEffect(s), j)
  {
  }

  lemma SlotStepFields(s: State, step: Step, s': State, i: SlotId, inner: P.Step)
    requires Shape(s) && Enabled(s, step) && s' == Apply(s, step)
    requires
      || (step.Ambient? && i == step.i && inner == step.step)
      || (step.SlotStep? && i == s.handles[step.h].slot && inner == step.step)
      || (step.IntoFuture? && i == s.handles[step.h].slot && inner == P.NewFuture(step.h))
    ensures i < |s.protos| && P.Enabled(s.protos[i], inner)
    ensures s'.protos == s.protos[i := P.Apply(s.protos[i], inner)] && s'.incs == s.incs && s'.space == s.space
  {
  }

  lemma SlotStepEvolves(s: State, step: Step, s': State)
    requires Inv(s) && Enabled(s, step) && s' == Apply(s, step) && Shape(s')
    requires step.SlotStep? || step.Ambient? || step.IntoFuture?
    ensures forall j :: 0 <= j < |s'.protos| ==> SlotEvolves(s, s', j)
  {
    if step.Ambient? {
      SlotStepFields(s, step, s', step.i, step.step);
      ProtocolEvolves(s, step.i, step.step, s');
    } else {
      var i := s.handles[step.h].slot;
      var inner := if step.SlotStep? then step.step else P.NewFuture(step.h);
      RefsPositive(s.handles, step.h, i);
      SlotStepFields(s, step, s', i, inner);
      ProtocolEvolves(s, i, inner, s');
    }
  }

  lemma ReferencesKeepIncarnations(s: State, step: Step)
    requires Shape(s) && Enabled(s, step) && !step.NewSubject? && !step.NewPair?
    ensures Apply(s, step).incs == s.incs
  {
  }

  lemma NextEvolves(s: State, step: Step, s': State)
    requires Inv(s) && Enabled(s, step) && s' == Apply(s, step) && Inv(s')
    ensures forall j :: 0 <= j < |s'.protos| ==> SlotEvolves(s, s', j)
  {
    if step.SlotStep? || step.Ambient? || step.IntoFuture? {
      SlotStepEvolves(s, step, s');
    } else if step.NewSubject? {
      SubjectEvolves(s, step.key, s');
    } else if step.NewPair? {
      ExtendedEvolves(s);
    } else {
      ReferenceSince(s, step);
      ReferencesKeepIncarnations(s, step);
      PlainEvolves(s, s');
    }
  }

  lemma StepEvolves(s: State, s': State, i: SlotId)
    requires Reachable(s) && Next(s, s') && i < |s'.protos|
    ensures Shape(s') && SlotEvolves(s, s', i)
  {
    ReachableInv(s);
    var step :| Enabled(s, step) && s' == Apply(s, step);
    StepKeepsInv(s, step);
    NextEvolves(s, step, s');
  }

  lemma RunEvolves(run: seq<State>, k: nat, i: SlotId)
    requires IsRun(run) && k + 1 < |run| && i < |run[k + 1].protos|
    ensures Shape(run[k]) && Shape(run[k + 1]) && SlotEvolves(run[k], run[k + 1], i)
  {
    PrefixReaches(run, k);
    assert StepAt(run, k);
    StepEvolves(run[k], run[k + 1], i);
  }

  // ---- The history of an incarnation ---------------------------------------------------------------------

  /** Slot `i` was in protocol state `p` at instant `j`, in the incarnation that it is in at instant `k`. */
  predicate WasAt(run: seq<State>, j: nat, k: nat, i: SlotId, p: P.State) {
    && j <= k < |run| && i < |run[j].protos| && i < |run[j].incs| && i < |run[k].incs|
    && run[j].incs[i] == run[k].incs[i] && run[j].protos[i] == p
  }

  ghost predicate WasOnce(run: seq<State>, k: nat, i: SlotId, p: P.State) {
    exists j: nat :: WasAt(run, j, k, i, p)
  }

  /** A run of the slot protocol, through states that slot `i` was in, to its state at instant `k`. */
  ghost predicate IsHistory(run: seq<State>, k: nat, i: SlotId, history: seq<P.State>) {
    && SlotTheorems.IsRun(history)
    && k < |run| && i < |run[k].protos| && history[|history| - 1] == run[k].protos[i]
    && forall p {:trigger WasOnce(run, k, i, p)} :: p in history ==> WasOnce(run, k, i, p)
  }

  lemma FreshHistory(run: seq<State>, k: nat, i: SlotId) returns (history: seq<P.State>)
    requires k < |run| && i < |run[k].protos| && i < |run[k].incs|
    requires run[k].protos[i] == P.Fresh(FreshMem().(boxed := run[k].protos[i].mem.boxed), run[k].protos[i].tokens)
    ensures IsHistory(run, k, i, history)
  {
    history := [run[k].protos[i]];
    forall n: nat ensures SlotTheorems.StepAt(history, n) {}
    assert WasAt(run, k, k, i, run[k].protos[i]);
  }

  /** The states that a slot was in stay those it was in, as long as the incarnation lasts. */
  lemma PastStays(run: seq<State>, k: nat, i: SlotId, history: seq<P.State>)
    requires k + 1 < |run| && i < |run[k].incs| && i < |run[k + 1].incs| && run[k + 1].incs[i] == run[k].incs[i]
    requires forall p :: p in history ==> WasOnce(run, k, i, p)
    ensures forall p :: p in history ==> WasOnce(run, k + 1, i, p)
  {
    forall p | p in history ensures WasOnce(run, k + 1, i, p) {
      var j: nat :| WasAt(run, j, k, i, p);
      assert WasAt(run, j, k + 1, i, p);
    }
  }

  lemma LongerHistory(run: seq<State>, k: nat, i: SlotId, before: seq<P.State>) returns (history: seq<P.State>)
    requires k + 1 < |run| && IsHistory(run, k, i, before) && SlotContinues(run[k], run[k + 1], i)
    ensures IsHistory(run, k + 1, i, history)
  {
    PastStays(run, k, i, before);
    if run[k + 1].protos[i] == run[k].protos[i] {
      history := before;
    } else {
      var step :| P.Enabled(run[k].protos[i], step) && run[k + 1].protos[i] == P.Apply(run[k].protos[i], step);
      SlotTheorems.Extended(before, step);
      history := before + [run[k + 1].protos[i]];
      assert WasAt(run, k + 1, k + 1, i, run[k + 1].protos[i]);
    }
  }

  /**
   In every run, the states of every live slot in its present incarnation lie on a run of the slot
   protocol that starts at a fresh slot and ends at the present state.
  */
  lemma {:induction false} EveryIncarnationRunsTheProtocol(run: seq<State>, k: nat, i: SlotId)
      returns (history: seq<P.State>)
    requires IsRun(run) && k < |run| && i < |run[k].protos| == |run[k].space.strong| && run[k].space.strong[i] > 0
    ensures IsHistory(run, k, i, history)
  {
    if k == 0 {
      history := [];
    } else {
      RunEvolves(run, k - 1, i);
      if SlotContinues(run[k - 1], run[k], i) {
        history := EveryIncarnationRunsTheProtocol(run, k - 1, i);
        history := LongerHistory(run, k - 1, i, history);
      } else {
        history := FreshHistory(run, k, i);
      }
    }
  }

  /** So no completion through any handle of any generation, in recycled memory or not, loses a wakeup. */
  lemma NoLostWakeupInAnyGeneration(run: seq<State>, k: nat, i: SlotId)
    requires IsRun(run) && k < |run| && i < |run[k].protos| == |run[k].space.strong|
    requires run[k].space.strong[i] > 0 && run[k].protos[i].completer.Done?
    ensures var p := run[k].protos[i];
            && (forall t :: 0 <= t < |p.threads| && (p.threads[t].pc.WaitPark? || p.threads[t].pc.WaitParkTimed?) ==>
                  t in p.tokens)
            && (forall c :: 0 <= c < |p.calls| && p.calls[c].pc == P.RegReturned(false) ==> p.calls[c].waker in p.fired)
            && (forall f, w :: 0 <= f < |p.futures| && w in p.futures[f].wakers ==> w in p.fired)
            && (p.lock.None? ==> p.mem.registry == [])
  {
    var history := EveryIncarnationRunsTheProtocol(run, k, i);
    SlotTheorems.NoLostWakeup(history, |history| - 1);
  }

  /** The wakers fired in an incarnation are exactly those owed a wake at one earlier instant of the same incarnation,
      after its publication, each once. */
  lemma ExactlyTheRightWakesInAnyGeneration(run: seq<State>, k: nat, i: SlotId) returns (j: nat)
    requires IsRun(run) && k < |run| && i < |run[k].protos| == |run[k].space.strong|
    requires run[k].space.strong[i] > 0 && run[k].protos[i].completer.Done?
    ensures j <= k && i < |run[j].protos| && i < |run[j].incs| && i < |run[k].incs| && run[j].incs[i] == run[k].incs[i]
    ensures run[j].protos[i].mem.word.completed
    ensures forall w :: multiset(run[k].protos[i].fired)[w] == if SlotTheorems.Owed(run[j].protos[i], w) then 1 else 0
  {
    var history := EveryIncarnationRunsTheProtocol(run, k, i);
    var n := SlotTheorems.ExactlyTheRightWakes(history, |history| - 1);
    assert history[n] in history && WasOnce(run, k, i, history[n]);
    j :| WasAt(run, j, k, i, history[n]);
  }

  // ---- Polls in any generation -----------------------------------------------------------------------------

  /** A slot that is live in the same incarnation at two instants was so at every instant between them. */
  lemma SameIncarnation(run: seq<State>, k: nat, x: nat, m: nat, i: SlotId)
    requires IsRun(run) && k <= x <= m < |run|
    requires i < |run[k].incs| && i < |run[m].incs| == |run[m].protos| == |run[m].space.strong|
    requires run[m].incs[i] == run[k].incs[i] && run[m].space.strong[i] > 0
    ensures i < |run[x].protos| == |run[x].incs| == |run[x].space.strong|
    ensures run[x].incs[i] == run[k].incs[i] < run[x].nextInc && run[x].space.strong[i] > 0
  {
    RunInv(run, k);
    RunSince(run, k, x);
    RunSince(run, x, m);
    assert SlotSince(run[x], run[m], i);
  }

  lemma StaysOnCourse(run: seq<State>, k: nat, x: nat, m: nat, i: SlotId)
    requires IsRun(run) && k <= x < m < |run|
    requires i < |run[k].incs| && i < |run[m].incs| == |run[m].protos| == |run[m].space.strong|
    requires run[m].incs[i] == run[k].incs[i] && run[m].space.strong[i] > 0
    ensures SlotContinues(run[x], run[x + 1], i)
  {
    SameIncarnation(run, k, x, m, i);
    SameIncarnation(run, k, x + 1, m, i);
    RunEvolves(run, x, i);
  }

  /** Future `f` of slot `i` answers `Pending` to a poll with `w` by the step at instant `k`. */
  predicate AnswersPending(run: seq<State>, k: nat, i: SlotId, f: nat, w: WakerId) {
    && k + 1 < |run| && i < |run[k].protos| && i < |run[k + 1].protos|
    && f < |run[k].protos[i].futures| && SlotPolls.PollWaker(run[k].protos[i].futures[f].pc) == Some(w)
    && f < |run[k + 1].protos[i].futures| && run[k + 1].protos[i].futures[f].pc.FutIdle?
  }

  lemma PendingIsRecordedHere(run: seq<State>, k: nat, i: SlotId, f: nat, w: WakerId) returns (j: nat)
    requires IsRun(run) && AnswersPending(run, k, i, f, w) && SlotContinues(run[k], run[k + 1], i)
    requires |run[k].protos| == |run[k].space.strong|
    ensures w in run[k + 1].protos[i].futures[f].wakers
    ensures j <= k && i < |run[j].protos| && i < |run[j].incs| && i < |run[k].incs|
    ensures run[j].incs[i] == run[k].incs[i] && SlotPolls.LooksInVain(run[j].protos[i], f, w)
  {
    var history := EveryIncarnationRunsTheProtocol(run, k, i);
    var p, q := run[k].protos[i], run[k + 1].protos[i];
    var step :| P.Enabled(p, step) && q == P.Apply(p, step);
    SlotTheorems.Extended(history, step);
    var longer := history + [q];
    var l := SlotPolls.PendingIsRecorded(longer, |history| - 1, f, w);
    assert longer[l] == history[l] && WasOnce(run, k, i, history[l]);
    j :| WasAt(run, j, k, i, history[l]);
  }

  lemma {:induction false} RecordedStaysHere(run: seq<State>, k: nat, x: nat, m: nat, i: SlotId, f: nat, w: WakerId)
    requires IsRun(run) && k <= x <= m < |run|
    requires i < |run[k].incs| && i < |run[m].incs| == |run[m].protos| == |run[m].space.strong|
    requires run[m].incs[i] == run[k].incs[i] && run[m].space.strong[i] > 0
    requires i < |run[k].protos| && f < |run[k].protos[i].futures| && w in run[k].protos[i].futures[f].wakers
    ensures i < |run[x].protos| && f < |run[x].protos[i].futures|
    ensures w in run[x].protos[i].futures[f].wakers || SlotPolls.LetGo(run[x].protos[i].futures[f].pc)
    decreases x
  {
    if k < x {
      RecordedStaysHere(run, k, x - 1, m, i, f, w);
      StaysOnCourse(run, k, x - 1, m, i);
      var p, q := run[x - 1].protos[i], run[x].protos[i];
      if q != p {
        var step :| P.Enabled(p, step) && q == P.Apply(p, step);
        SlotPolls.StepMoves(p, step, f);
      }
    }
  }

  /**
   No generation strands a poll. When a future of slot `i` answers `Pending` to a poll with `w`, its
   last look, in the same incarnation, found the slot pending and `w` listed; and once `complete` of
   that incarnation has returned, `w` has been woken, unless the future was dropped.
  */
  lemma PendingIsWokenInAnyGeneration(run: seq<State>, k: nat, m: nat, i: SlotId, f: nat, w: WakerId) returns (j: nat)
    requires IsRun(run) && k < m < |run| && AnswersPending(run, k, i, f, w)
    requires i < |run[k].incs| && i < |run[m].incs| == |run[m].protos| == |run[m].space.strong|
    requires run[m].incs[i] == run[k].incs[i] && run[m].space.strong[i] > 0 && run[m].protos[i].completer.Done?
    ensures j <= k && i < |run[j].protos| && i < |run[j].incs|
    ensures run[j].incs[i] == run[k].incs[i] && SlotPolls.LooksInVain(run[j].protos[i], f, w)
    ensures f < |run[m].protos[i].futures|
    ensures !SlotPolls.LetGo(run[m].protos[i].futures[f].pc) ==> w in run[m].protos[i].fired
  {
    SameIncarnation(run, k, k, m, i);
    SameIncarnation(run, k, k + 1, m, i);
    StaysOnCourse(run, k, k, m, i);
    j := PendingIsRecordedHere(run, k, i, f, w);
    RecordedStaysHere(run, k + 1, m, m, i, f, w);
    NoLostWakeupInAnyGeneration(run, m, i);
  }
}
