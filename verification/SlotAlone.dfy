/** One operation that runs alone on a slot. */
module SlotAlone {
  // From its first step to its last, and what it is as an operation on the slot as an object.

  import opened Options
  import opened Registry
  import opened SlotMemory
  import opened SlotProtocol
  import opened SlotInvariant
  import opened SlotTheorems

  /** Take `step` again and again, at most `n` times, until the actor has no further step. */
  function Alone(p: State, step: Step, n: nat): State
    decreases n
  {
    if n == 0 || !Enabled(p, step) then p else Alone(Apply(p, step), step, n - 1)
  }

  /** What an operation on the waiter side leaves as it was. */
  predicate Outcomes(p: State, q: State) {
    && q.mem.word.completed == p.mem.word.completed && q.mem.cell == p.mem.cell
    && q.completer == p.completer && q.fired == p.fired && q.threads == p.threads
  }

  // ---- A poll ----------------------------------------------------------------------------------------

  /** What a poll with `w` makes of a future that stays pending. */
  function Recorded(wakers: seq<WakerId>, w: WakerId): seq<WakerId> {
    if w in wakers then wakers else wakers + [w]
  }

  /** Where a poll with `w` of the future `a` can be, when nobody else moves; `done` and `cell` do not change
      meanwhile. */
  predicate PollPosition(a: FutureState, b: FutureState, w: WakerId, done: bool, cell: Option<Outcome>) {
    && b.via == a.via && b.leaked == a.leaked
    && (match b.pc
        case PollGet(x) => x == w && b.wakers == a.wakers
        case PollLoad(x) => !done && x == w && w !in a.wakers && b.wakers == a.wakers
        case PollSetBit(x) => !done && x == w && w !in a.wakers && b.wakers == a.wakers
        case PollLock(x) => !done && x == w && w !in a.wakers && b.wakers == a.wakers
        case PollRecheck(x) => !done && x == w && w !in a.wakers && b.wakers == a.wakers
        case PollPush(x) => !done && x == w && w !in a.wakers && b.wakers == a.wakers
        case PollUnlock(x, registered) => !done && registered && x == w && w !in a.wakers && b.wakers == a.wakers
        case PollGetAgain(x, known, registered) =>
          !done && x == w && (known <==> w in a.wakers) && b.wakers == a.wakers
        case PollRecord(x) => !done && x == w && w !in a.wakers && b.wakers == a.wakers
        case FutIdle => !done && b.wakers == Recorded(a.wakers, w)
        case FutReady(result) => done && result == cell && b.wakers == a.wakers
        case _ => false)
  }

  function PollLeft(pc: FuturePc): nat {
    match pc
    case PollGet(_) => 9
    case PollLoad(_) => 8
    case PollSetBit(_) => 7
    case PollLock(_) => 6
    case PollRecheck(_) => 5
    case PollPush(_) => 4
    case PollUnlock(_, _) => 3
    case PollGetAgain(_, _, _) => 2
    case PollRecord(_) => 1
    case _ => 0
  }

  ghost predicate PollTrail(p0: State, p: State, f: nat, w: WakerId) {
    && Inv(p) && f < |p0.futures| == |p.futures|
    && Outcomes(p0, p) && p.directs == p0.directs && p.calls == p0.calls
    && p.futures == p0.futures[f := p.futures[f]]
    && (p.lock.None? || FutureHolds(p.futures[f].pc))
    && PollPosition(p0.futures[f], p.futures[f], w, p0.mem.word.completed, p0.mem.cell)
  }

  lemma FutureOutcomes(p: State, f: nat)
    requires CellInv(p) && CanRunFuture(p, f)
    ensures Outcomes(p, Tick(p, FutureStep(p, f)))
  {
    FutureFrame(p, f);
    FutureStable(p, f);
  }

  lemma PollPositionStep(a: FutureState, p: State, f: nat, w: WakerId)
    requires CanRunFuture(p, f) && PollPosition(a, p.futures[f], w, p.mem.word.completed, p.mem.cell)
    ensures var q := FutureStep(p, f);
            && f < |q.futures|
            && PollPosition(a, q.futures[f], w, p.mem.word.completed, p.mem.cell)
            && PollLeft(q.futures[f].pc) < PollLeft(p.futures[f].pc)
            && (p.lock.None? || FutureHolds(p.futures[f].pc) ==> q.lock.None? || FutureHolds(q.futures[f].pc))
  {
  }

  lemma PollStep(p0: State, p: State, f: nat, w: WakerId)
    requires PollTrail(p0, p, f, w) && FutureBusy(p.futures[f].pc)
    ensures Enabled(p, RunFuture(f))
    ensures PollTrail(p0, Apply(p, RunFuture(f)), f, w)
    ensures PollLeft(Apply(p, RunFuture(f)).futures[f].pc) < PollLeft(p.futures[f].pc)
  {
    PollPositionStep(p0.futures[f], p, f, w);
    FutureStepKeepsInv(p, f);
    FutureFrame(p, f);
    FutureOutcomes(p, f);
  }

  lemma {:induction false} PollFollows(p0: State, p: State, f: nat, w: WakerId, n: nat)
    requires PollTrail(p0, p, f, w) && PollLeft(p.futures[f].pc) <= n
    ensures PollTrail(p0, Alone(p, RunFuture(f), n), f, w)
    ensures !FutureBusy(Alone(p, RunFuture(f), n).futures[f].pc)
    decreases n
  {
    if FutureBusy(p.futures[f].pc) {
      PollStep(p0, p, f, w);
      PollFollows(p0, Apply(p, RunFuture(f)), f, w, n - 1);
    }
  }

  /** A poll that runs alone answers at once: the outcome if there is one, else it records its waker once. */
  lemma PollAlone(p: State, f: nat, w: WakerId)
    requires Inv(p) && p.lock.None? && f < |p.futures| && (p.futures[f].pc.FutIdle? || p.futures[f].pc.FutReady?)
    ensures Enabled(p, StartPoll(f, w))
    ensures var q := Alone(Apply(p, StartPoll(f, w)), RunFuture(f), 9);
            && Inv(q) && q.lock.None? && Outcomes(p, q) && q.directs == p.directs && q.calls == p.calls
            && |q.futures| == |p.futures| && q.futures == p.futures[f := q.futures[f]]
            && q.futures[f] == (if p.mem.word.completed then p.futures[f].(pc := FutReady(p.mem.cell))
                                else p.futures[f].(pc := FutIdle, wakers := Recorded(p.futures[f].wakers, w)))
  {
    StepKeepsInv(p, StartPoll(f, w));
    PollFollows(p, Apply(p, StartPoll(f, w)), f, w, 9);
  }

  // ---- Cancelling a future -----------------------------------------------------------------------------

  predicate DropPosition(a: FutureState, b: FutureState) {
    && b.via == a.via
    && (match b.pc
        case DropLock => b.wakers == a.wakers
        case DropRetain => b.wakers == a.wakers
        case DropUnlock => b.wakers == []
        case FutDropped => b.wakers == []
        case _ => false)
  }

  function DropLeft(pc: FuturePc): nat {
    match pc
    case DropLock => 3
    case DropRetain => 2
    case DropUnlock => 1
    case _ => 0
  }

  ghost predicate DropTrail(p0: State, p: State, f: nat) {
    && Inv(p) && f < |p0.futures| == |p.futures|
    && Outcomes(p0, p) && p.directs == p0.directs && p.calls == p0.calls
    && p.futures == p0.futures[f := p.futures[f]]
    && (p.lock.None? || FutureHolds(p.futures[f].pc))
    && DropPosition(p0.futures[f], p.futures[f])
  }

  lemma DropPositionStep(a: FutureState, p: State, f: nat)
    requires CanRunFuture(p, f) && DropPosition(a, p.futures[f])
    ensures var q := FutureStep(p, f);
            && f < |q.futures|
            && DropPosition(a, q.futures[f])
            && DropLeft(q.futures[f].pc) < DropLeft(p.futures[f].pc)
            && (p.lock.None? || FutureHolds(p.futures[f].pc) ==> q.lock.None? || FutureHolds(q.futures[f].pc))
  {
  }

  lemma {:induction false} DropFollows(p0: State, p: State, f: nat, n: nat)
    requires DropTrail(p0, p, f) && DropLeft(p.futures[f].pc) <= n
    ensures DropTrail(p0, Alone(p, RunFuture(f), n), f)
    ensures Alone(p, RunFuture(f), n).futures[f].pc.FutDropped?
    decreases n
  {
    if FutureBusy(p.futures[f].pc) {
      DropPositionStep(p0.futures[f], p, f);
      FutureStepKeepsInv(p, f);
      FutureFrame(p, f);
      FutureOutcomes(p, f);
      DropFollows(p0, Apply(p, RunFuture(f)), f, n - 1);
    }
  }

  /** A future dropped alone is gone, with every waker it recorded; nothing else changes. */
  lemma DropAlone(p: State, f: nat)
    requires Inv(p) && p.lock.None? && f < |p.futures| && (p.futures[f].pc.FutIdle? || p.futures[f].pc.FutReady?)
    ensures Enabled(p, StartDrop(f))
    ensures var q := Alone(Apply(p, StartDrop(f)), RunFuture(f), 3);
            && Inv(q) && q.lock.None? && Outcomes(p, q) && q.directs == p.directs && q.calls == p.calls
            && |q.futures| == |p.futures| && q.futures == p.futures[f := q.futures[f]]
            && q.futures[f].pc.FutDropped? && q.futures[f].wakers == [] && q.futures[f].via == p.futures[f].via
  {
    StepKeepsInv(p, StartDrop(f));
    DropFollows(p, Apply(p, StartDrop(f)), f, 3);
  }

  // ---- register_waker --------------------------------------------------------------------------------------

  predicate CallPosition(call: RegisterCall, w: WakerId, via: nat, done: bool, before: set<WakerId>,
      directs: set<WakerId>) {
    && call.waker == w && call.via == via
    && (match call.pc
        case RegUnlock(result) => result == done && directs == before + if done then {} else {w}
        case RegReturned(result) => result == done && directs == before + if done then {} else {w}
        case RegPush => !done && directs == before
        case _ => directs == before)
  }

  function CallLeft(pc: RegisterPc): nat {
    match pc
    case RegLoad => 6
    case RegSetBit => 5
    case RegLock => 4
    case RegRecheck => 3
    case RegPush => 2
    case RegUnlock(_) => 1
    case RegReturned(_) => 0
  }

  ghost predicate CallTrail(p0: State, p: State, c: nat, w: WakerId, via: nat) {
    && Inv(p) && c == |p0.calls| && |p.calls| == c + 1
    && Outcomes(p0, p) && p.futures == p0.futures
    && p.calls[..c] == p0.calls
    && (p.lock.None? || CallHolds(p.calls[c].pc))
    && CallPosition(p.calls[c], w, via, p0.mem.word.completed, p0.directs, p.directs)
  }

  lemma CallPositionStep(p: State, c: nat, w: WakerId, via: nat, before: set<WakerId>)
    requires CanCall(p, c) && CallPosition(p.calls[c], w, via, p.mem.word.completed, before, p.directs)
    ensures var q := CallStep(p, c);
            && c < |q.calls|
            && CallPosition(q.calls[c], w, via, p.mem.word.completed, before, q.directs)
            && CallLeft(q.calls[c].pc) < CallLeft(p.calls[c].pc)
            && (p.lock.None? || CallHolds(p.calls[c].pc) ==> q.lock.None? || CallHolds(q.calls[c].pc))
  {
  }

  lemma CallOutcomes(p: State, c: nat)
    requires CellInv(p) && CanCall(p, c) && CallOk(p, c)
    ensures Outcomes(p, Tick(p, CallStep(p, c)))
  {
    CallFrame(p, c);
    CallStable(p, c);
  }

  lemma {:induction false} CallFollows(p0: State, p: State, c: nat, w: WakerId, via: nat, n: nat)
    requires CallTrail(p0, p, c, w, via) && CallLeft(p.calls[c].pc) <= n
    ensures CallTrail(p0, Alone(p, RunCall(c), n), c, w, via)
    ensures Alone(p, RunCall(c), n).calls[c].pc.RegReturned?
    decreases n
  {
    if !p.calls[c].pc.RegReturned? {
      assert CallOk(p, c);
      CallPositionStep(p, c, w, via, p0.directs);
      CallStepKeepsInv(p, c);
      CallFrame(p, c);
      CallOutcomes(p, c);
      CallFollows(p0, Apply(p, RunCall(c)), c, w, via, n - 1);
    }
  }

  /** `register_waker` run alone says whether the outcome is published, and registers exactly if it is not. */
  lemma CallAlone(p: State, w: WakerId, via: nat)
    requires Inv(p) && p.lock.None?
    ensures var c := |p.calls|;
            var q := Alone(Apply(p, StartCall(w, via)), RunCall(c), 6);
            && Inv(q) && q.lock.None? && Outcomes(p, q) && q.futures == p.futures
            && q.calls == p.calls + [RegisterCall(w, RegReturned(p.mem.word.completed), via)]
            && q.directs == p.directs + if p.mem.word.completed then {} else {w}
  {
    var c := |p.calls|;
    StepKeepsInv(p, StartCall(w, via));
    CallFollows(p, Apply(p, StartCall(w, via)), c, w, via, 6);
    var q := Alone(Apply(p, StartCall(w, via)), RunCall(c), 6);
    assert q.calls == q.calls[..c] + [q.calls[c]];
  }

  // ---- complete ----------------------------------------------------------------------------------------------

  /** Enough steps for the completer: publication, the critical section, one per entry, the end. */
  function CompleterLeft(p: State): int {
    match p.completer
    case Publish => 5 + |p.mem.registry|
    case DrainLock => 4 + |p.mem.registry|
    case DrainTake => 3 + |p.mem.registry|
    case DrainUnlock(taken) => 2 + |taken|
    case Notify(taken, next, _) => 1 + |taken| - next
    case _ => 0
  }

  ghost predicate CompleteTrail(p0: State, p: State, v: Outcome) {
    && Inv(p) && !p.completer.Pending? && p.mem.cell == Some(v)
    && p.futures == p0.futures && p.calls == p0.calls && p.threads == p0.threads && p.directs == p0.directs
    && (p.lock.None? || CompleterHolds(p.completer))
    && (Taken(p.completer) ==> forall w :: multiset(Wakers(p.completer.taken))[w] == if Owed(p0, w) then 1 else 0)
  }

  lemma CompleterFrames(p: State)
    requires CellInv(p) && DrainInv(p) && CompleterBusy(p.completer) && (p.lock.None? || CompleterHolds(p.completer))
    ensures var q := CompleterStep(p, false);
            && q.futures == p.futures && q.calls == p.calls && q.threads == p.threads && q.directs == p.directs
            && q.mem.cell == p.mem.cell && !q.completer.Pending?
            && (q.lock.None? || CompleterHolds(q.completer))
            && CompleterLeft(q) < CompleterLeft(p)
            && (Taken(p.completer) ==> Taken(q.completer) && q.completer.taken == p.completer.taken)
            && (!Taken(p.completer) && Taken(q.completer) ==>
                p.completer.DrainTake? && q.completer.taken == p.mem.registry)
  {
  }

  lemma CompleteStep(p0: State, p: State, v: Outcome)
    requires CompleteTrail(p0, p, v) && CompleterBusy(p.completer)
    ensures Enabled(p, RunCompleter(false))
    ensures CompleteTrail(p0, Apply(p, RunCompleter(false)), v)
    ensures CompleterLeft(Apply(p, RunCompleter(false))) < CompleterLeft(p)
  {
    CompleterFrames(p);
    CompleterStepKeepsInv(p, false);
    if p.completer.DrainTake? {
      TakeDelivers(p);
      forall w ensures multiset(Wakers(p.mem.registry))[w] == if Owed(p0, w) then 1 else 0 {
        assert w in Wakers(p.mem.registry) <==> w in multiset(Wakers(p.mem.registry));
      }
    }
  }

  lemma {:induction false} CompleteFollows(p0: State, p: State, v: Outcome, n: nat)
    requires CompleteTrail(p0, p, v) && CompleterLeft(p) <= n
    ensures CompleteTrail(p0, Alone(p, RunCompleter(false), n), v)
    ensures Alone(p, RunCompleter(false), n).completer.Done?
    decreases n
  {
    if CompleterBusy(p.completer) {
      CompleteStep(p0, p, v);
      CompleteFollows(p0, Apply(p, RunCompleter(false)), v, n - 1);
    }
  }

  /** A completion run alone publishes its value and wakes exactly the owed wakers, each once. */
  lemma CompleteAlone(p: State, v: Outcome)
    requires Inv(p) && p.lock.None? && p.completer.Pending?
    ensures Enabled(p, StartComplete(v))
    ensures var q := Alone(Apply(p, StartComplete(v)), RunCompleter(false), 5 + |p.mem.registry|);
            && Inv(q) && q.lock.None? && q.completer.Done?
            && q.mem.word.completed && q.mem.cell == Some(v)
            && q.futures == p.futures && q.calls == p.calls && q.threads == p.threads && q.directs == p.directs
            && forall w :: multiset(q.fired)[w] == if Owed(p, w) then 1 else 0
  {
    StepKeepsInv(p, StartComplete(v));
    CompleteFollows(p, Apply(p, StartComplete(v)), v, 5 + |p.mem.registry|);
    var q := Alone(Apply(p, StartComplete(v)), RunCompleter(false), 5 + |p.mem.registry|);
    if !q.completer.drained {
      NothingOwed(q);
      forall w ensures !Owed(p, w) {
        assert !Owed(q, w);
      }
    }
  }

  // ---- The same operations on the slot as an object ------------------------------------------------------------

  /** Where the completer can be, with the memory it found at first and what it took. */
  predicate CompleterPosition(m: SlotMem, p: State, v: Outcome) {
    match p.completer
    case Pending => false
    case Publish => p.mem == m.(cell := Some(v))
    case DrainLock => m.word.hasWaiter && p.mem == CompletedMem(m, v).(boxed := m.boxed, registry := m.registry)
    case DrainTake => m.word.hasWaiter && p.mem == CompletedMem(m, v).(registry := m.registry)
    case DrainUnlock(taken) => m.word.hasWaiter && p.mem == CompletedMem(m, v) && taken == m.registry
    case Notify(taken, _, _) => m.word.hasWaiter && p.mem == CompletedMem(m, v) && taken == m.registry
    case Done(drained, taken, _) =>
      p.mem == CompletedMem(m, v) && drained == m.word.hasWaiter && (drained ==> taken == m.registry)
  }

  lemma {:induction false} CompleterFollows(m: SlotMem, p: State, v: Outcome, n: nat)
    requires CompleterPosition(m, p, v)
    ensures CompleterPosition(m, Alone(p, RunCompleter(false), n), v)
    decreases n
  {
    if n > 0 && Enabled(p, RunCompleter(false)) {
      CompleterFollows(m, Apply(p, RunCompleter(false)), v, n - 1);
    }
  }

  /** The tokens that the completer has set so far, on top of those there were `before`. */
  ghost predicate TokensSet(before: set<ThreadId>, p: State) {
    match p.completer
    case Notify(taken, next, _) =>
      next <= |taken| && forall t :: t in p.tokens <==> t in before || Thread(t) in taken[..next]
    case Done(drained, taken, _) =>
      forall t :: t in p.tokens <==> t in before || (drained && Thread(t) in taken)
    case _ => p.tokens == before
  }

  lemma TokensSetNext(before: set<ThreadId>, p: State)
    requires TokensSet(before, p) && Enabled(p, RunCompleter(false))
    ensures TokensSet(before, Apply(p, RunCompleter(false)))
  {
    if p.completer.Notify? {
      var taken, next := p.completer.taken, p.completer.next;
      if next < |taken| {
        assert taken[..next + 1] == taken[..next] + [taken[next]];
      } else {
        assert taken[..next] == taken;
      }
    }
  }

  lemma {:induction false} TokensFollow(before: set<ThreadId>, p: State, n: nat)
    requires TokensSet(before, p)
    ensures TokensSet(before, Alone(p, RunCompleter(false), n))
    decreases n
  {
    if n > 0 && Enabled(p, RunCompleter(false)) {
      TokensSetNext(before, p);
      TokensFollow(before, Apply(p, RunCompleter(false)), n - 1);
    }
  }

  /**
   The completer's atomic steps, run without interruption, are `complete` on the slot as an object:
   the memory, the wakers fired in order, and the threads unparked.
  */
  lemma CompleteIsAtomicAlone(p: State, v: Outcome)
    requires Inv(p) && p.lock.None? && p.completer.Pending?
    ensures var q := Alone(Apply(p, StartComplete(v)), RunCompleter(false), 5 + |p.mem.registry|);
            && q.mem == CompletedMem(p.mem, v)
            && q.fired == (if p.mem.word.hasWaiter then Wakers(p.mem.registry) else [])
            && (forall t :: t in q.tokens <==> t in p.tokens || (p.mem.word.hasWaiter && Thread(t) in p.mem.registry))
  {
    CompleteAlone(p, v);
    CompleterFollows(p.mem, Apply(p, StartComplete(v)), v, 5 + |p.mem.registry|);
    TokensFollow(p.tokens, Apply(p, StartComplete(v)), 5 + |p.mem.registry|);
  }

  predicate CallerPosition(m: SlotMem, p: State, c: nat, w: WakerId) {
    && c < |p.calls| && p.calls[c].waker == w
    && (match p.calls[c].pc
        case RegLoad => p.mem == m
        case RegSetBit => !m.word.completed && p.mem == m
        case RegLock => !m.word.completed && p.mem == SetWaiterBit(m)
        case RegRecheck => !m.word.completed && p.mem == SetWaiterBit(m).(boxed := true)
        case RegPush => !m.word.completed && p.mem == SetWaiterBit(m).(boxed := true)
        case RegUnlock(result) => !m.word.completed && !result && p.mem == RegisteredMem(m, w)
        case RegReturned(result) => result == m.word.completed && p.mem == if result then m else RegisteredMem(m, w))
  }

  lemma {:induction false} CallerFollows(m: SlotMem, p: State, c: nat, w: WakerId, n: nat)
    requires CallerPosition(m, p, c, w)
    ensures CallerPosition(m, Alone(p, RunCall(c), n), c, w)
    decreases n
  {
    if n > 0 && Enabled(p, RunCall(c)) {
      CallerFollows(m, Apply(p, RunCall(c)), c, w, n - 1);
    }
  }

  /** The caller's atomic steps, run without interruption, are `register_waker` on the slot as an object. */
  lemma CallIsAtomicAlone(p: State, w: WakerId, via: nat)
    requires Inv(p) && p.lock.None?
    ensures var q := Alone(Apply(p, StartCall(w, via)), RunCall(|p.calls|), 6);
            q.mem == if p.mem.word.completed then p.mem else RegisteredMem(p.mem, w)
  {
    CallAlone(p, w, via);
    CallerFollows(p.mem, Apply(p, StartCall(w, via)), |p.calls|, w, 6);
  }

  /** What a poll leaves of a pending slot when its waker is new to the future. */
  function PolledMem(m: SlotMem, w: WakerId): SlotMem {
    SlotMem(m.word.(hasWaiter := true), m.cell, true, RegisterFuture(m.registry, w))
  }

  predicate PollerPosition(m: SlotMem, a: FutureState, p: State, f: nat, w: WakerId) {
    && f < |p.futures|
    && (match p.futures[f].pc
        case PollGet(x) => x == w && p.futures[f].wakers == a.wakers && p.mem == m
        case PollLoad(x) => x == w && w !in a.wakers && !m.word.completed && p.mem == m
        case PollSetBit(x) => x == w && w !in a.wakers && !m.word.completed && p.mem == m
        case PollLock(x) => x == w && w !in a.wakers && !m.word.completed && p.mem == SetWaiterBit(m)
        case PollRecheck(x) =>
          x == w && w !in a.wakers && !m.word.completed && p.mem == SetWaiterBit(m).(boxed := true)
        case PollPush(x) =>
          x == w && w !in a.wakers && !m.word.completed && p.mem == SetWaiterBit(m).(boxed := true)
        case PollUnlock(_, _) => w !in a.wakers && !m.word.completed && p.mem == PolledMem(m, w)
        case PollGetAgain(_, known, _) =>
          (known <==> w in a.wakers) && !m.word.completed && p.mem == if known then m else PolledMem(m, w)
        case PollRecord(_) => w !in a.wakers && !m.word.completed && p.mem == PolledMem(m, w)
        case FutIdle => !m.word.completed && p.mem == if w in a.wakers then m else PolledMem(m, w)
        case FutReady(_) => m.word.completed && p.mem == m
        case _ => false)
  }

  lemma {:induction false} PollerFollows(m: SlotMem, a: FutureState, p: State, f: nat, w: WakerId, n: nat)
    requires PollerPosition(m, a, p, f, w)
    ensures PollerPosition(m, a, Alone(p, RunFuture(f), n), f, w)
    decreases n
  {
    if n > 0 && Enabled(p, RunFuture(f)) {
      PollerFollows(m, a, Apply(p, RunFuture(f)), f, w, n - 1);
    }
  }

  /**
   A poll without interruption touches the slot only if the slot is pending and the waker new to the
   future: then it sets HAS_WAITER and adds one owner to the waker's entry.
  */
  lemma PollTouchesOnlyTheRegistry(p: State, f: nat, w: WakerId)
    requires Inv(p) && p.lock.None? && f < |p.futures| && (p.futures[f].pc.FutIdle? || p.futures[f].pc.FutReady?)
    ensures Enabled(p, StartPoll(f, w))
    ensures Alone(Apply(p, StartPoll(f, w)), RunFuture(f), 9).mem
            == if p.mem.word.completed || w in p.futures[f].wakers then p.mem else PolledMem(p.mem, w)
  {
    PollAlone(p, f, w);
    PollerFollows(p.mem, p.futures[f], Apply(p, StartPoll(f, w)), f, w, 9);
  }

  predicate DropperPosition(m: SlotMem, a: FutureState, p: State, f: nat) {
    && f < |p.futures|
    && (match p.futures[f].pc
        case DropLock => a.wakers != [] && p.futures[f].wakers == a.wakers && p.mem == m
        case DropRetain => a.wakers != [] && p.futures[f].wakers == a.wakers && p.mem == m.(boxed := true)
        case DropUnlock =>
          a.wakers != [] && p.mem == m.(boxed := true, registry := Release(m.registry, a.wakers))
        case FutDropped =>
          p.mem == if a.wakers == [] then m else m.(boxed := true, registry := Release(m.registry, a.wakers))
        case _ => false)
  }

  lemma {:induction false} DropperFollows(m: SlotMem, a: FutureState, p: State, f: nat, n: nat)
    requires DropperPosition(m, a, p, f)
    ensures DropperPosition(m, a, Alone(p, RunFuture(f), n), f)
    decreases n
  {
    if n > 0 && Enabled(p, RunFuture(f)) {
      DropperFollows(m, a, Apply(p, RunFuture(f)), f, n - 1);
    }
  }

  /** A drop without interruption gives up the owners of the recorded wakers; without any it touches nothing. */
  lemma DropTouchesOnlyItsWakers(p: State, f: nat)
    requires Inv(p) && p.lock.None? && f < |p.futures| && (p.futures[f].pc.FutIdle? || p.futures[f].pc.FutReady?)
    ensures Enabled(p, StartDrop(f))
    ensures Alone(Apply(p, StartDrop(f)), RunFuture(f), 3).mem
            == if p.futures[f].wakers == [] then p.mem
               else p.mem.(boxed := true, registry := Release(p.mem.registry, p.futures[f].wakers))
  {
    DropAlone(p, f);
    DropperFollows(p.mem, p.futures[f], Apply(p, StartDrop(f)), f, 3);
  }

  // ---- wait and wait_timeout ----------------------------------------------------------------------------------

  /** What a waiter leaves of a pending slot before it parks. */
  function ListedMem(m: SlotMem, t: ThreadId): SlotMem {
    SlotMem(m.word.(hasWaiter := true), m.cell, true, PushThread(m.registry, t))
  }

  /** Everything but the memory, the lock and thread `t` is as it was. */
  predicate OnlyWaits(p0: State, p: State, t: nat) {
    && t < |p0.threads| == |p.threads| && p.threads == p0.threads[t := p.threads[t]]
    && p.tokens == p0.tokens && p.calls == p0.calls && p.futures == p0.futures && p.directs == p0.directs
    && p.completer == p0.completer && p.fired == p0.fired
  }

  /** Where a waiter can be in its first round, when nobody else moves. */
  predicate WaiterPosition(m: SlotMem, p: State, t: nat, timed: bool) {
    && t < |p.threads| && p.threads[t].timed == timed
    && (match p.threads[t].pc
        case WaitLoad => p.mem == m && p.lock.None?
        case WaitSetBit => !m.word.completed && p.mem == m && p.lock.None?
        case WaitLock => !m.word.completed && p.mem == SetWaiterBit(m) && p.lock.None?
        case WaitPush => !m.word.completed && p.mem == SetWaiterBit(m).(boxed := true)
        case WaitRecheck => !m.word.completed && p.mem == ListedMem(m, t)
        case WaitUnlock => !m.word.completed && p.mem == ListedMem(m, t)
        case WaitPark => !timed && !m.word.completed && p.mem == ListedMem(m, t) && p.lock.None?
        case WaitDeadline => timed && !m.word.completed && p.mem == ListedMem(m, t) && p.lock.None?
        case WaitReturned(result) => m.word.completed && result == m.cell && p.mem == m && p.lock.None?
        case _ => false)
  }

  function RoundLeft(pc: WaitPc): nat {
    match pc
    case WaitLoad => 6
    case WaitSetBit => 5
    case WaitLock => 4
    case WaitPush => 3
    case WaitRecheck => 2
    case WaitUnlock => 1
    case _ => 0
  }

  lemma WaiterStep(m: SlotMem, p: State, t: nat, timed: bool)
    requires WaiterPosition(m, p, t, timed) && RoundLeft(p.threads[t].pc) > 0
    ensures Enabled(p, RunThread(t))
    ensures WaiterPosition(m, Apply(p, RunThread(t)), t, timed) && OnlyWaits(p, Apply(p, RunThread(t)), t)
    ensures var pc := Apply(p, RunThread(t)).threads[t].pc;
            RoundLeft(pc) == RoundLeft(p.threads[t].pc) - 1 || pc.WaitReturned?
  {
  }

  ghost predicate WaitTrail(p0: State, p: State, t: nat, timed: bool) {
    Inv(p) && WaiterPosition(p0.mem, p, t, timed) && OnlyWaits(p0, p, t)
  }

  lemma WaitTrailNext(p0: State, p: State, t: nat, timed: bool)
    requires WaitTrail(p0, p, t, timed) && RoundLeft(p.threads[t].pc) > 0
    ensures Enabled(p, RunThread(t)) && WaitTrail(p0, Apply(p, RunThread(t)), t, timed)
    ensures var pc := Apply(p, RunThread(t)).threads[t].pc;
            RoundLeft(pc) == RoundLeft(p.threads[t].pc) - 1 || pc.WaitReturned?
  {
    WaiterStep(p0.mem, p, t, timed);
    ThreadStepKeepsInv(p, t);
  }

  lemma {:induction false} WaitFollows(p0: State, p: State, t: nat, timed: bool, n: nat)
    requires WaitTrail(p0, p, t, timed)
    requires RoundLeft(p.threads[t].pc) == n || p.threads[t].pc.WaitReturned?
    ensures WaitTrail(p0, Alone(p, RunThread(t), n), t, timed)
    ensures RoundLeft(Alone(p, RunThread(t), n).threads[t].pc) == 0
    decreases n
  {
    if n > 0 && !p.threads[t].pc.WaitReturned? {
      WaitTrailNext(p0, p, t, timed);
      WaitFollows(p0, Apply(p, RunThread(t)), t, timed, n - 1);
    }
  }

  /** Thread `t` starts to wait and runs alone, at most to its first park or deadline test. */
  function Waited(p: State, t: nat, timed: bool, via: nat): State {
    if Enabled(p, StartWait(t, timed, via)) then Alone(Apply(p, StartWait(t, timed, via)), RunThread(t), 6) else p
  }

  /** Thread `t` finds its deadline passed and leaves alone. */
  function Expired(p: State, t: nat): State {
    if Enabled(p, Expire(t)) then Alone(Apply(p, Expire(t)), RunThread(t), 3) else p
  }

  /** A completion that runs alone. */
  function Completed(p: State, v: Outcome): State {
    if Enabled(p, StartComplete(v))
    then Alone(Apply(p, StartComplete(v)), RunCompleter(false), 5 + |p.mem.registry|) else p
  }

  /**
   A waiter that runs alone returns the outcome at once if it is published, and touches nothing;
   else it lists its thread and comes to its park, or to the test of its deadline.
  */
  lemma WaitAlone(p: State, t: nat, timed: bool, via: nat)
    requires Inv(p) && p.lock.None? && t < |p.threads| && !ThreadBusy(p.threads[t].pc)
    ensures var q := Waited(p, t, timed, via);
            && Inv(q) && q.lock.None? && OnlyWaits(p, q, t) && q.threads[t].timed == timed
            && q.threads[t].pc == (if p.mem.word.completed then WaitReturned(p.mem.cell)
                                   else if timed then WaitDeadline else WaitPark)
            && q.mem == if p.mem.word.completed then p.mem else ListedMem(p.mem, t)
  {
    StepKeepsInv(p, StartWait(t, timed, via));
    WaitFollows(p, Apply(p, StartWait(t, timed, via)), t, timed, 6);
  }

  lemma {:induction false} PushedAndRemoved(reg: seq<Waiter>, t: ThreadId)
    ensures RemoveThread(reg + [Thread(t)], t) == RemoveThread(reg, t)
  {
    if reg != [] {
      assert (reg + [Thread(t)])[1..] == reg[1..] + [Thread(t)];
      PushedAndRemoved(reg[1..], t);
    }
  }

  /** A waiter that gives up alone returns `None` and takes all its entries, and no others, with it. */
  lemma TimeoutAlone(p: State, t: nat)
    requires p.lock.None? && t < |p.threads| && p.threads[t].pc.WaitDeadline?
    ensures var q := Expired(p, t);
            && OnlyWaits(p, q, t) && q.lock.None? && q.threads[t].pc == WaitTimedOut
            && q.mem == p.mem.(boxed := true, registry := RemoveThread(p.mem.registry, t))
  {
    var p1 := Apply(p, Expire(t));
    var p2 := Apply(p1, RunThread(t));
    var p3 := Apply(p2, RunThread(t));
    assert Alone(p1, RunThread(t), 3) == Alone(p2, RunThread(t), 2) == Alone(p3, RunThread(t), 1);
  }

  /** A whole `wait_timeout` on a pending slot leaves the registry without its thread and otherwise as it was. */
  lemma TimedWaitLeavesNoTrace(p: State, t: nat, via: nat)
    requires Inv(p) && p.lock.None? && t < |p.threads| && !ThreadBusy(p.threads[t].pc) && !p.mem.word.completed
    ensures var q := Expired(Waited(p, t, true, via), t);
            && OnlyWaits(p, q, t) && q.lock.None? && q.threads[t].pc == WaitTimedOut
            && q.mem.registry == RemoveThread(p.mem.registry, t) && q.mem.cell == p.mem.cell
            && q.mem.word == p.mem.word.(hasWaiter := true)
  {
    WaitAlone(p, t, true, via);
    TimeoutAlone(Waited(p, t, true, via), t);
    PushedAndRemoved(p.mem.registry, t);
  }

  lemma WokenReturns(p: State, t: nat, v: Outcome)
    requires t < |p.threads| && p.threads[t].pc.WaitPark? && t in p.tokens
    requires p.mem.word.completed && p.mem.cell == Some(v)
    ensures var q := Alone(p, RunThread(t), 2); t < |q.threads| && q.threads[t].pc == WaitReturned(Some(v))
  {
    var p1 := Apply(p, RunThread(t));
    assert Alone(p, RunThread(t), 2) == Alone(p1, RunThread(t), 1);
  }

  lemma CompletionWakes(p: State, t: nat, v: Outcome)
    requires Inv(p) && p.lock.None? && p.completer.Pending? && p.mem.word.hasWaiter
    requires t < |p.threads| && p.threads[t].pc.WaitPark? && Thread(t) in p.mem.registry
    ensures var q := Completed(p, v);
            && t < |q.threads| && q.threads[t].pc.WaitPark? && t in q.tokens
            && q.mem.word.completed && q.mem.cell == Some(v)
  {
    CompleteAlone(p, v);
    CompleteIsAtomicAlone(p, v);
  }

  /** A blocked `wait`, then a completion, then the rest of the `wait`: it returns the completed value. */
  lemma BlockedWaitReturns(p: State, t: nat, via: nat, v: Outcome)
    requires Inv(p) && p.lock.None? && t < |p.threads| && !ThreadBusy(p.threads[t].pc) && p.completer.Pending?
    ensures var q := Completed(Waited(p, t, false, via), v);
            && t < |q.threads| && q.threads[t].pc == WaitPark
            && var r := Alone(q, RunThread(t), 2);
            t < |r.threads| && r.threads[t].pc == WaitReturned(Some(v))
  {
    WaitAlone(p, t, false, via);
    var q := Waited(p, t, false, via);
    PushThreadExact(p.mem.registry, t);
    CompletionWakes(q, t, v);
    WokenReturns(Completed(q, v), t, v);
  }
}
