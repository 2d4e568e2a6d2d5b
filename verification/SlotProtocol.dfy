/**
 The slot protocol as a state machine of atomic steps.

 Any number of threads are in `wait` or `wait_timeout`, any number of `register_waker` calls and
 of futures being polled and dropped are in flight, and one completer publishes. Every load,
 read-modify-write, lock acquisition, critical section, unlock, park and drain iteration of the
 library is one step; every actor has a program counter.
*/
module SlotProtocol {
  import opened Options
  import opened Registry
  import opened SlotMemory

  // ---- Actors ------------------------------------------------------------------------------

  /** Where a thread stands in `wait` or `wait_timeout`. */
  datatype WaitPc =
    | WaitIdle
    | WaitLoad
    | WaitSetBit
    | WaitLock
    | WaitPush
    | WaitRecheck
    | WaitRetain
    | WaitReadUnlock
    | WaitUnlock
    | WaitPark
    | WaitDeadline
    | WaitParkTimed
    | WaitDeregLock
    | WaitDereg
    | WaitDeregUnlock
    | WaitReturned(result: Option<Outcome>)
    | WaitTimedOut

  /**
   `via` is the handle the call borrows. History: `begun` is the instant the call started and
   `seen` the last instant at which its recheck found the slot pending.
  */
  datatype WaitCall = WaitCall(pc: WaitPc, timed: bool, via: nat, begun: nat, seen: nat)

  /** Where a `register_waker` call stands. */
  datatype RegisterPc =
    | RegLoad
    | RegSetBit
    | RegLock
    | RegRecheck
    | RegPush
    | RegUnlock(result: bool)
    | RegReturned(result: bool)

  datatype RegisterCall = RegisterCall(waker: WakerId, pc: RegisterPc, via: nat)

  /** Where a future stands: idle, in `poll` with one waker, or in `drop`. */
  datatype FuturePc =
    | FutIdle
    | PollGet(w: WakerId)
    | PollLoad(w: WakerId)
    | PollSetBit(w: WakerId)
    | PollLock(w: WakerId)
    | PollRecheck(w: WakerId)
    | PollPush(w: WakerId)
    | PollUnlock(w: WakerId, registered: bool)
    | PollGetAgain(w: WakerId, known: bool, registered: bool)
    | PollRecord(w: WakerId)
    | FutReady(result: Option<Outcome>)
    | DropLock
    | DropRetain
    | DropUnlock
    | FutDropped

  /** `via` is the future's handle. History: `leaked` is a waker that a poll registered and never recorded. */
  datatype FutureState = FutureState(pc: FuturePc, wakers: seq<WakerId>, via: nat, leaked: Option<WakerId>)

  datatype CompleterPc =
    | Pending
    | Publish
    | DrainLock
    | DrainTake
    | DrainUnlock(taken: seq<Waiter>)
    | Notify(taken: seq<Waiter>, next: nat, panics: seq<WakerId>)
    | Done(drained: bool, taken: seq<Waiter>, panic: Option<WakerId>)

  datatype Agent = ByThread(t: nat) | ByCall(c: nat) | ByFuture(f: nat) | ByCompleter

  /**
   The whole protocol state. `lock` is the holder of the registry mutex and `tokens` the threads
   whose park token is set. History: `directs`, the wakers whose direct registration was pushed;
   `fired`, every wake in order; `clock`, the number of steps; `publishedAt`, the first instant at
   which COMPLETED was set.
  */
  datatype State = State(
    mem: SlotMem,
    lock: Option<Agent>,
    tokens: set<ThreadId>,
    threads: seq<WaitCall>,
    calls: seq<RegisterCall>,
    futures: seq<FutureState>,
    completer: CompleterPc,
    directs: set<WakerId>,
    fired: seq<WakerId>,
    clock: nat,
    publishedAt: Option<nat>)

  function Fresh(mem: SlotMem, tokens: set<ThreadId>): State {
    State(mem, None, tokens, [], [], [], Pending, {}, [], 0, None)
  }

  // ---- Steps -------------------------------------------------------------------------------

  datatype Step =
    | NewThread
    | StartWait(t: nat, timed: bool, via: nat)
    | RunThread(t: nat)
    | Spurious(t: nat)          // `park` returns without a token
    | Expire(t: nat)            // the deadline test finds the deadline passed
    | StartCall(w: WakerId, via: nat)
    | RunCall(c: nat)
    | NewFuture(via: nat)
    | StartPoll(f: nat, w: WakerId)
    | RunFuture(f: nat)
    | StartDrop(f: nat)
    | StartComplete(v: Outcome)
    | RunCompleter(panics: bool)   // whether the waker woken by this step panics
    | OutsideUnpark(t: nat)     // a stale token from elsewhere in the program
    | OutsidePark(t: nat)       // an idle thread uses up its token elsewhere

  predicate ThreadBusy(pc: WaitPc) {
    !pc.WaitIdle? && !pc.WaitReturned? && !pc.WaitTimedOut?
  }

  predicate FutureBusy(pc: FuturePc) {
    !pc.FutIdle? && !pc.FutReady? && !pc.FutDropped?
  }

  predicate CompleterBusy(pc: CompleterPc) {
    !pc.Pending? && !pc.Done?
  }

  predicate Enabled(s: State, step: Step) {
    match step
    case NewThread => true
    case StartWait(t, _, _) => t < |s.threads| && !ThreadBusy(s.threads[t].pc)
    case RunThread(t) =>
      && t < |s.threads|
      && ThreadBusy(s.threads[t].pc)
      && (s.threads[t].pc.WaitLock? || s.threads[t].pc.WaitDeregLock? ==> s.lock.None?)
      && (s.threads[t].pc.WaitPark? ==> t in s.tokens)
    case Spurious(t) => t < |s.threads| && s.threads[t].pc.WaitPark?
    case Expire(t) => t < |s.threads| && s.threads[t].pc.WaitDeadline?
    case StartCall(_, _) => true
    case RunCall(c) =>
      && c < |s.calls|
      && !s.calls[c].pc.RegReturned?
      && (s.calls[c].pc.RegLock? ==> s.lock.None?)
    case NewFuture(_) => true
    case StartPoll(f, _) => f < |s.futures| && (s.futures[f].pc.FutIdle? || s.futures[f].pc.FutReady?)
    case RunFuture(f) =>
      && f < |s.futures|
      && FutureBusy(s.futures[f].pc)
      && (s.futures[f].pc.PollLock? || s.futures[f].pc.DropLock? ==> s.lock.None?)
    case StartDrop(f) => f < |s.futures| && (s.futures[f].pc.FutIdle? || s.futures[f].pc.FutReady?)
    case StartComplete(_) => s.completer.Pending?
    case RunCompleter(_) => CompleterBusy(s.completer) && (s.completer.DrainLock? ==> s.lock.None?)
    case OutsideUnpark(_) => true
    case OutsidePark(t) => t < |s.threads| ==> !ThreadBusy(s.threads[t].pc)
  }

  function AtThread(s: State, t: nat, pc: WaitPc): State
    requires t < |s.threads|
  {
    s.(threads := s.threads[t := s.threads[t].(pc := pc)])
  }

  function AtCall(s: State, c: nat, pc: RegisterPc): State
    requires c < |s.calls|
  {
    s.(calls := s.calls[c := s.calls[c].(pc := pc)])
  }

  function AtFuture(s: State, f: nat, pc: FuturePc): State
    requires f < |s.futures|
  {
    s.(futures := s.futures[f := s.futures[f].(pc := pc)])
  }

  function SetWaiterBit(m: SlotMem): SlotMem {
    m.(word := m.word.(hasWaiter := true))
  }

  /** `lock(self.slot.waiters())`: the registry box exists from here on. */
  function Acquire(s: State, who: Agent): State {
    s.(lock := Some(who), mem := s.mem.(boxed := true))
  }

  /** From the first load to the unlock: register, recheck and either deregister or unlock. */
  function RegisteringStep(s: State, t: nat): State
    requires t < |s.threads|
  {
    match s.threads[t].pc
    case WaitLoad => AtThread(s, t, if s.mem.word.completed then WaitReturned(s.mem.cell) else WaitSetBit)
    case WaitSetBit => AtThread(s, t, WaitLock).(mem := SetWaiterBit(s.mem))
    case WaitLock => Acquire(AtThread(s, t, WaitPush), ByThread(t))
    case WaitPush => AtThread(s, t, WaitRecheck).(mem := s.mem.(registry := PushThread(s.mem.registry, t)))
    case WaitRecheck =>
      if s.mem.word.completed then AtThread(s, t, WaitRetain)
      else s.(threads := s.threads[t := s.threads[t].(pc := WaitUnlock, seen := s.clock)])
    case WaitRetain => AtThread(s, t, WaitReadUnlock).(mem := s.mem.(registry := RemoveThread(s.mem.registry, t)))
    case WaitReadUnlock => AtThread(s, t, WaitReturned(s.mem.cell)).(lock := None)
    case WaitUnlock => AtThread(s, t, if s.threads[t].timed then WaitDeadline else WaitPark).(lock := None)
    case _ => s
  }

  /** From the park to the next round, or out through the deregistration of a timed-out waiter. */
  function ParkingStep(s: State, t: nat): State
    requires t < |s.threads|
  {
    match s.threads[t].pc
    case WaitPark => AtThread(s, t, WaitLoad).(tokens := s.tokens - {t})
    case WaitDeadline => AtThread(s, t, WaitParkTimed)
    case WaitParkTimed => AtThread(s, t, WaitLoad).(tokens := s.tokens - {t})
    case WaitDeregLock => Acquire(AtThread(s, t, WaitDereg), ByThread(t))
    case WaitDereg => AtThread(s, t, WaitDeregUnlock).(mem := s.mem.(registry := RemoveThread(s.mem.registry, t)))
    case WaitDeregUnlock => AtThread(s, t, WaitTimedOut).(lock := None)
    case _ => s
  }

  predicate Registering(pc: WaitPc) {
    pc.WaitLoad? || pc.WaitSetBit? || pc.WaitLock? || pc.WaitPush? || pc.WaitRecheck? || pc.WaitRetain?
    || pc.WaitReadUnlock? || pc.WaitUnlock?
  }

  function ThreadStep(s: State, t: nat): State
    requires t < |s.threads|
  {
    if Registering(s.threads[t].pc) then RegisteringStep(s, t) else ParkingStep(s, t)
  }

  function CallStep(s: State, c: nat): State
    requires c < |s.calls|
  {
    var w := s.calls[c].waker;
    match s.calls[c].pc
    case RegLoad => AtCall(s, c, if s.mem.word.completed then RegReturned(true) else RegSetBit)
    case RegSetBit => AtCall(s, c, RegLock).(mem := SetWaiterBit(s.mem))
    case RegLock => Acquire(AtCall(s, c, RegRecheck), ByCall(c))
    case RegRecheck => AtCall(s, c, if s.mem.word.completed then RegUnlock(true) else RegPush)
    case RegPush =>
      AtCall(s, c, RegUnlock(false)).(mem := s.mem.(registry := RegisterDirect(s.mem.registry, w)),
                                      directs := s.directs + {w})
    case RegUnlock(result) => AtCall(s, c, RegReturned(result)).(lock := None)
    case RegReturned(_) => s
  }

  function FutureStep(s: State, f: nat): State
    requires f < |s.futures|
  {
    var fut := s.futures[f];
    match fut.pc
    case PollGet(w) =>
      AtFuture(s, f, if s.mem.word.completed then FutReady(s.mem.cell)
                     else if w in fut.wakers then PollGetAgain(w, true, false)
                     else PollLoad(w))
    case PollLoad(w) =>
      AtFuture(s, f, if s.mem.word.completed then PollGetAgain(w, false, false) else PollSetBit(w))
    case PollSetBit(w) => AtFuture(s, f, PollLock(w)).(mem := SetWaiterBit(s.mem))
    case PollLock(w) => Acquire(AtFuture(s, f, PollRecheck(w)), ByFuture(f))
    case PollRecheck(w) => AtFuture(s, f, if s.mem.word.completed then PollUnlock(w, false) else PollPush(w))
    case PollPush(w) =>
      AtFuture(s, f, PollUnlock(w, true)).(mem := s.mem.(registry := RegisterFuture(s.mem.registry, w)))
    case PollUnlock(w, registered) => AtFuture(s, f, PollGetAgain(w, false, registered)).(lock := None)
    case PollGetAgain(w, known, registered) =>
      if s.mem.word.completed then
        s.(futures := s.futures[f := fut.(pc := FutReady(s.mem.cell),
                                          leaked := if registered then Some(w) else fut.leaked)])
      else AtFuture(s, f, if known then FutIdle else PollRecord(w))
    case PollRecord(w) => s.(futures := s.futures[f := fut.(pc := FutIdle, wakers := fut.wakers + [w])])
    case DropLock => Acquire(AtFuture(s, f, DropRetain), ByFuture(f))
    case DropRetain =>
      s.(futures := s.futures[f := fut.(pc := DropUnlock, wakers := [])],
         mem := s.mem.(registry := Release(s.mem.registry, fut.wakers)))
    case DropUnlock => AtFuture(s, f, FutDropped).(lock := None)
    case _ => s
  }

  /** Publication and the drain's critical section. */
  function PublishStep(s: State): State {
    match s.completer
    case Publish =>
      s.(mem := s.mem.(word := s.mem.word.(completed := true, valid := true)),
         publishedAt := Some(s.clock + 1),
         completer := if s.mem.word.hasWaiter then DrainLock else Done(false, [], None))
    case DrainLock => Acquire(s, ByCompleter).(completer := DrainTake)
    case DrainTake => s.(mem := s.mem.(registry := []), completer := DrainUnlock(s.mem.registry))
    case DrainUnlock(taken) => s.(lock := None, completer := Notify(taken, 0, []))
    case _ => s
  }

  /** One iteration of the drain loop, or its end. */
  function NotifyStep(s: State, panics: bool): State
    requires s.completer.Notify?
  {
    var Notify(taken, next, panicked) := s.completer;
    if next >= |taken| then
      s.(completer := Done(true, taken, if |panicked| > 0 then Some(panicked[0]) else None))
    else
      match taken[next]
      case Thread(t) => s.(tokens := s.tokens + {t}, completer := Notify(taken, next + 1, panicked))
      case Waker(w, _, _) =>
        s.(fired := s.fired + [w],
           completer := Notify(taken, next + 1, if panics then panicked + [w] else panicked))
  }

  function CompleterStep(s: State, panics: bool): State {
    if s.completer.Notify? then NotifyStep(s, panics) else PublishStep(s)
  }

  /** The effect of one step, apart from the clock. */
  function Effect(s: State, step: Step): State
    requires Enabled(s, step)
  {
    match step
    case NewThread => s.(threads := s.threads + [WaitCall(WaitIdle, false, 0, 0, 0)])
    case StartWait(t, timed, via) =>
      s.(threads := s.threads[t := WaitCall(WaitLoad, timed, via, s.clock, s.clock)])
    case RunThread(t) => ThreadStep(s, t)
    case Spurious(t) => AtThread(s, t, WaitLoad)
    case Expire(t) => AtThread(s, t, WaitDeregLock)
    case StartCall(w, via) => s.(calls := s.calls + [RegisterCall(w, RegLoad, via)])
    case RunCall(c) => CallStep(s, c)
    case NewFuture(via) => s.(futures := s.futures + [FutureState(FutIdle, [], via, None)])
    case StartPoll(f, w) => AtFuture(s, f, PollGet(w))
    case RunFuture(f) => FutureStep(s, f)
    case StartDrop(f) => AtFuture(s, f, if s.futures[f].wakers == [] then FutDropped else DropLock)
    case StartComplete(v) => s.(mem := s.mem.(cell := Some(v)), completer := Publish)
    case RunCompleter(panics) => CompleterStep(s, panics)
    case OutsideUnpark(t) => s.(tokens := s.tokens + {t})
    case OutsidePark(t) => s.(tokens := s.tokens - {t})
  }

  function Apply(s: State, step: Step): State
    requires Enabled(s, step)
  {
    Tick(s, Effect(s, step))
  }

  function Tick(s: State, after: State): State {
    after.(clock := s.clock + 1)
  }

  // ---- The invariant -----------------------------------------------------------------------

  /** COMPLETED is set, and the completer has yet to take the registry. */
  predicate DrainPending(c: CompleterPc) {
    c.DrainLock? || c.DrainTake?
  }

  /** The drain has taken the registry. */
  predicate Taken(c: CompleterPc) {
    c.DrainUnlock? || c.Notify? || (c.Done? && c.drained)
  }

  /** The taken waiters that the drain has still to notify. */
  function Undelivered(c: CompleterPc): seq<Waiter> {
    match c
    case DrainUnlock(taken) => taken
    case Notify(taken, next, _) => if next <= |taken| then taken[next..] else []
    case _ => []
  }

  predicate ThreadHolds(pc: WaitPc) {
    pc.WaitPush? || pc.WaitRecheck? || pc.WaitRetain? || pc.WaitReadUnlock? || pc.WaitUnlock?
    || pc.WaitDereg? || pc.WaitDeregUnlock?
  }

  predicate CallHolds(pc: RegisterPc) {
    pc.RegRecheck? || pc.RegPush? || pc.RegUnlock?
  }

  predicate FutureHolds(pc: FuturePc) {
    pc.PollRecheck? || pc.PollPush? || pc.PollUnlock? || pc.DropRetain? || pc.DropUnlock?
  }

  predicate CompleterHolds(pc: CompleterPc) {
    pc.DrainTake? || pc.DrainUnlock?
  }

  /** Actor `a` is inside its critical section. */
  predicate Holds(s: State, a: Agent) {
    match a
    case ByThread(t) => t < |s.threads| && ThreadHolds(s.threads[t].pc)
    case ByCall(c) => c < |s.calls| && CallHolds(s.calls[c].pc)
    case ByFuture(f) => f < |s.futures| && FutureHolds(s.futures[f].pc)
    case ByCompleter => CompleterHolds(s.completer)
  }

  /** The registry mutex is held exactly by the actor inside its critical section. */
  ghost predicate LockInv(s: State) {
    forall a :: Holds(s, a) <==> s.lock == Some(a)
  }

  /** The cell is written before it is published, once, and then never changes. */
  ghost predicate CellInv(s: State) {
    && (s.mem.word.completed <==> !s.completer.Pending? && !s.completer.Publish?)
    && (s.mem.word.valid <==> s.mem.word.completed)
    && (s.mem.cell.Some? <==> !s.completer.Pending?)
    && (s.publishedAt.Some? <==> s.mem.word.completed)
    && (s.publishedAt.Some? ==> s.publishedAt.value <= s.clock)
  }

  /** Thread `t` cannot miss the completion: it is registered before the take, about to be notified, or notified. */
  predicate Armed(s: State, t: nat) {
    || (Thread(t) in s.mem.registry && (s.mem.word.completed ==> DrainPending(s.completer)))
    || Thread(t) in Undelivered(s.completer)
    || t in s.tokens
  }

  /** Only a call with a deadline tests it, and only a call without one parks for good. */
  predicate DeadlineOk(th: WaitCall) {
    && (TimedOnly(th.pc) ==> th.timed)
    && (th.pc.WaitPark? ==> !th.timed)
  }

  predicate TimedOnly(pc: WaitPc) {
    pc.WaitDeadline? || pc.WaitParkTimed? || pc.WaitDeregLock? || pc.WaitDereg? || pc.WaitDeregUnlock?
        || pc.WaitTimedOut?
  }

  ghost predicate ThreadOk(s: State, t: nat)
    requires t < |s.threads|
  {
    var th := s.threads[t];
    && th.begun <= th.seen <= s.clock
    && (th.pc.WaitIdle? || th.begun < s.clock)
    && DeadlineOk(th)
    && (match th.pc
        case WaitLock | WaitPush => s.mem.word.hasWaiter
        case WaitRecheck => s.mem.word.hasWaiter && Thread(t) in s.mem.registry
        case WaitRetain => s.mem.word.completed && s.mem.word.hasWaiter
        case WaitReadUnlock => s.mem.word.completed && s.mem.word.hasWaiter && Thread(t) !in s.mem.registry
        case WaitUnlock =>
          && Thread(t) in s.mem.registry
          && (s.mem.word.completed ==> DrainPending(s.completer))
          && NotYetAt(s, th.seen)
        case WaitPark | WaitDeadline | WaitParkTimed => Armed(s, t) && NotYetAt(s, th.seen)
        case WaitDeregLock | WaitDereg => NotYetAt(s, th.seen)
        case WaitDeregUnlock | WaitTimedOut => Thread(t) !in s.mem.registry && NotYetAt(s, th.seen)
        case WaitReturned(result) => s.mem.word.completed && result == s.mem.cell
        case _ => true)
  }

  /** The slot was still pending at instant `i`. */
  predicate NotYetAt(s: State, i: nat) {
    s.publishedAt.Some? ==> i < s.publishedAt.value
  }

  ghost predicate CallOk(s: State, c: nat)
    requires c < |s.calls|
  {
    match s.calls[c].pc
    case RegLock | RegRecheck => s.mem.word.hasWaiter
    case RegPush => s.mem.word.hasWaiter && (s.mem.word.completed ==> DrainPending(s.completer))
    case RegUnlock(result) => if result then s.mem.word.completed else s.calls[c].waker in s.directs
    case RegReturned(result) => if result then s.mem.word.completed else s.calls[c].waker in s.directs
    case _ => true
  }

  /** The waker of a poll that is on its way to register, or has registered and not yet recorded it. */
  function Unrecorded(pc: FuturePc): Option<WakerId> {
    match pc
    case PollLoad(w) => Some(w)
    case PollSetBit(w) => Some(w)
    case PollLock(w) => Some(w)
    case PollRecheck(w) => Some(w)
    case PollPush(w) => Some(w)
    case PollUnlock(w, _) => Some(w)
    case PollGetAgain(w, known, _) => if known then None else Some(w)
    case PollRecord(w) => Some(w)
    case _ => None
  }

  ghost predicate FutureOk(s: State, f: nat)
    requires f < |s.futures|
  {
    var fut := s.futures[f];
    && (fut.leaked.Some? ==> s.mem.word.completed && fut.leaked.value !in fut.wakers)
    && (Unrecorded(fut.pc).Some? ==> fut.leaked.None? && Unrecorded(fut.pc).value !in fut.wakers)
    && (match fut.pc
        case PollLock(_) => s.mem.word.hasWaiter
        case PollRecheck(_) => s.mem.word.hasWaiter
        case PollPush(_) => s.mem.word.hasWaiter && (s.mem.word.completed ==> DrainPending(s.completer))
        case PollUnlock(_, registered) => registered || s.mem.word.completed
        case PollGetAgain(w, known, registered) =>
          if known then !registered && w in fut.wakers else registered || s.mem.word.completed
        case FutReady(result) => s.mem.word.completed && result == s.mem.cell
        case DropUnlock => fut.wakers == []
        case FutDropped => fut.wakers == []
        case _ => true)
  }

  /** A waker entry is never left behind: after the drain point only threads inside the lock are listed. */
  ghost predicate RegistryInv(s: State) {
    && (s.mem.registry != [] ==> s.mem.word.hasWaiter && s.mem.boxed)
    && (s.lock.Some? ==> s.mem.boxed)
    && (forall e :: e in s.mem.registry && e.Thread? ==> e.thread < |s.threads|)
    && (s.mem.word.completed && !DrainPending(s.completer) ==>
          forall e :: e in s.mem.registry ==>
            && e.Thread?
            && s.lock == Some(ByThread(e.thread))
            && e.thread < |s.threads|
            && (s.threads[e.thread].pc.WaitRecheck? || s.threads[e.thread].pc.WaitRetain?))
  }

  /** Future `fut` accounts for one owner of `w`: recorded, registered and not yet recorded, or leaked. */
  predicate Owns(fut: FutureState, w: WakerId) {
    || w in fut.wakers
    || fut.leaked == Some(w)
    || (match fut.pc
        case PollUnlock(x, registered) => registered && x == w
        case PollGetAgain(x, _, registered) => registered && x == w
        case PollRecord(x) => x == w
        case _ => false)
  }

  function OwnerCount(futures: seq<FutureState>, w: WakerId): nat {
    if futures == [] then 0
    else (if Owns(futures[0], w) then 1 else 0) + OwnerCount(futures[1..], w)
  }

  /** Until the take, the registry says of each waker exactly what its owners are. */
  ghost predicate OwnersExact(s: State) {
    forall w :: TallyOf(s.mem.registry, w) == Single(OwnerCount(s.futures, w), w in s.directs)
  }

  ghost predicate OnceEach(ws: seq<WakerId>) {
    forall w :: multiset(ws)[w] <= 1
  }

  ghost predicate DrainInv(s: State) {
    && (!Taken(s.completer) ==> s.fired == [])
    && (Taken(s.completer) ==>
          && OnceEach(Wakers(s.completer.taken))
          && (forall w :: w in s.directs ==> w in Wakers(s.completer.taken))
          && (forall e :: e in s.completer.taken && e.Thread? ==> e.thread < |s.threads|))
    && (s.completer.DrainUnlock? ==> s.fired == [])
    && (s.completer.Notify? ==>
          && s.completer.next <= |s.completer.taken|
          && s.fired == Wakers(s.completer.taken[..s.completer.next]))
    && (s.completer.Done? && s.completer.drained ==> s.fired == Wakers(s.completer.taken))
  }

  /** After the take, whatever a future still owns was taken. */
  ghost predicate OwnedTaken(s: State) {
    Taken(s.completer) ==>
      forall f, w :: 0 <= f < |s.futures| && Owns(s.futures[f], w) ==> w in Wakers(s.completer.taken)
  }

  ghost predicate ThreadsOk(s: State) {
    forall t :: 0 <= t < |s.threads| ==> ThreadOk(s, t)
  }

  ghost predicate CallsOk(s: State) {
    forall c :: 0 <= c < |s.calls| ==> CallOk(s, c)
  }

  ghost predicate FuturesOk(s: State) {
    forall f :: 0 <= f < |s.futures| ==> FutureOk(s, f)
  }

  ghost predicate Inv(s: State) {
    && LockInv(s)
    && CellInv(s)
    && ThreadsOk(s)
    && CallsOk(s)
    && FuturesOk(s)
    && RegistryInv(s)
    && (!Taken(s.completer) ==> OwnersExact(s))
    && DrainInv(s)
    && OwnedTaken(s)
  }
}
