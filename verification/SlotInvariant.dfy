/**
 The protocol invariant holds initially and is kept by every step of every actor. Each kind of
 step is taken apart the same way: what it does to the lock, to what never goes back, to the
 registry, to the actor itself, and to the actors that did not move.
*/
module SlotInvariant {
  import opened Options
  import opened Registry
  import opened SlotMemory
  import opened SlotProtocol

  /** A step of some actor other than the completer: what it cannot change. */
  predicate Stable(s: State, s': State) {
    && s'.mem.word.completed == s.mem.word.completed
    && s'.mem.word.valid == s.mem.word.valid
    && s'.mem.cell == s.mem.cell
    && s'.completer == s.completer
    && s'.publishedAt == s.publishedAt
    && (s.mem.word.hasWaiter ==> s'.mem.word.hasWaiter)
    && s.directs <= s'.directs
    && s'.fired == s.fired
    && s'.clock == s.clock + 1
  }

  /** Thread `x` is untouched, and so are its entries and its token. */
  predicate ThreadUntouched(s: State, s': State, x: nat)
    requires x < |s.threads|
  {
    && x < |s'.threads|
    && s'.threads[x] == s.threads[x]
    && (Thread(x) in s'.mem.registry <==> Thread(x) in s.mem.registry)
    && (x in s.tokens ==> x in s'.tokens)
  }

  lemma ThreadStays(s: State, s': State, x: nat)
    requires x < |s.threads| && Stable(s, s') && ThreadUntouched(s, s', x) && ThreadOk(s, x)
    ensures ThreadOk(s', x)
  {
  }

  lemma CallsStay(s: State, s': State)
    requires Stable(s, s') && CallsOk(s)
    ensures forall c :: 0 <= c < |s.calls| && c < |s'.calls| && s'.calls[c] == s.calls[c] ==> CallOk(s', c)
  {
    forall c | 0 <= c < |s.calls| && c < |s'.calls| && s'.calls[c] == s.calls[c]
      ensures CallOk(s', c)
    {
      assert CallOk(s, c);
    }
  }

  lemma FuturesStay(s: State, s': State)
    requires Stable(s, s') && FuturesOk(s)
    ensures forall f :: 0 <= f < |s.futures| && f < |s'.futures| && s'.futures[f] == s.futures[f] ==> FutureOk(s', f)
  {
    forall f | 0 <= f < |s.futures| && f < |s'.futures| && s'.futures[f] == s.futures[f]
      ensures FutureOk(s', f)
    {
      assert FutureOk(s, f);
    }
  }

  /** A thread only adds and removes its own entries. */
  lemma ThreadSections(reg: seq<Waiter>, t: ThreadId)
    ensures forall w :: TallyOf(PushThread(reg, t), w) == TallyOf(reg, w)
    ensures forall w :: TallyOf(RemoveThread(reg, t), w) == TallyOf(reg, w)
    ensures forall e :: e in RemoveThread(reg, t) <==> e in reg && e != Thread(t)
    ensures forall e :: e in PushThread(reg, t) <==> e in reg || e == Thread(t)
  {
    forall w ensures TallyOf(PushThread(reg, t), w) == TallyOf(reg, w)
             ensures TallyOf(RemoveThread(reg, t), w) == TallyOf(reg, w) {
      PushThreadTally(reg, t, w);
      RemoveThreadTally(reg, t, w);
    }
    forall e ensures e in RemoveThread(reg, t) <==> e in reg && e != Thread(t) {
      RemoveThreadExact(reg, t, e);
    }
  }

  predicate CanRegister(s: State, t: nat) {
    && t < |s.threads|
    && Registering(s.threads[t].pc)
    && (s.threads[t].pc.WaitLock? ==> s.lock.None?)
  }

  lemma RegisteringLock(s: State, t: nat)
    requires LockInv(s) && CanRegister(s, t)
    ensures LockInv(Tick(s, RegisteringStep(s, t)))
  {
    assert Holds(s, ByThread(t)) == ThreadHolds(s.threads[t].pc);
  }

  lemma RegisteringStable(s: State, t: nat)
    requires CellInv(s) && CanRegister(s, t)
    ensures CellInv(Tick(s, RegisteringStep(s, t)))
    ensures Stable(s, Tick(s, RegisteringStep(s, t)))
  {
  }

  lemma RegisteringRegistry(s: State, t: nat)
    requires LockInv(s) && RegistryInv(s) && CellInv(s) && CanRegister(s, t) && ThreadOk(s, t)
    ensures RegistryInv(Tick(s, RegisteringStep(s, t)))
  {
    assert Holds(s, ByThread(t)) == ThreadHolds(s.threads[t].pc);
    ThreadSections(s.mem.registry, t);
  }

  lemma RegisteringSelf(s: State, t: nat)
    requires CellInv(s) && CanRegister(s, t) && ThreadOk(s, t)
    ensures ThreadOk(Tick(s, RegisteringStep(s, t)), t)
  {
    ThreadSections(s.mem.registry, t);
  }

  lemma RegisteringOthers(s: State, t: nat, x: nat)
    requires CanRegister(s, t) && x < |s.threads| && x != t
    ensures ThreadUntouched(s, Tick(s, RegisteringStep(s, t)), x)
  {
    ThreadSections(s.mem.registry, t);
  }

  predicate CanPark(s: State, t: nat) {
    && t < |s.threads|
    && ThreadBusy(s.threads[t].pc) && !Registering(s.threads[t].pc)
    && (s.threads[t].pc.WaitDeregLock? ==> s.lock.None?)
    && (s.threads[t].pc.WaitPark? ==> t in s.tokens)
  }

  lemma ParkingLock(s: State, t: nat)
    requires LockInv(s) && CanPark(s, t)
    ensures LockInv(Tick(s, ParkingStep(s, t)))
  {
    assert Holds(s, ByThread(t)) == ThreadHolds(s.threads[t].pc);
  }

  lemma ParkingStable(s: State, t: nat)
    requires CellInv(s) && CanPark(s, t)
    ensures CellInv(Tick(s, ParkingStep(s, t)))
    ensures Stable(s, Tick(s, ParkingStep(s, t)))
  {
  }

  lemma ParkingRegistry(s: State, t: nat)
    requires LockInv(s) && RegistryInv(s) && CellInv(s) && CanPark(s, t) && ThreadOk(s, t)
    ensures RegistryInv(Tick(s, ParkingStep(s, t)))
  {
    assert Holds(s, ByThread(t)) == ThreadHolds(s.threads[t].pc);
    ThreadSections(s.mem.registry, t);
  }

  lemma ParkingSelf(s: State, t: nat)
    requires CellInv(s) && CanPark(s, t) && ThreadOk(s, t)
    ensures ThreadOk(Tick(s, ParkingStep(s, t)), t)
  {
    ThreadSections(s.mem.registry, t);
  }

  lemma ParkingOthers(s: State, t: nat, x: nat)
    requires CanPark(s, t) && x < |s.threads| && x != t
    ensures ThreadUntouched(s, Tick(s, ParkingStep(s, t)), x)
  {
    ThreadSections(s.mem.registry, t);
  }

  /** Steps that leave every thread alone. */
  lemma ThreadsStay(s: State, s': State)
    requires Stable(s, s') && ThreadsOk(s) && s'.threads == s.threads && s'.tokens == s.tokens
    requires forall t :: Thread(t) in s'.mem.registry <==> Thread(t) in s.mem.registry
    ensures ThreadsOk(s')
  {
    forall t | 0 <= t < |s.threads| ensures ThreadOk(s', t) {
      ThreadStays(s, s', t);
    }
  }

  lemma WakerSections(reg: seq<Waiter>, w: WakerId, mine: seq<WakerId>)
    ensures forall t :: Thread(t) in RegisterDirect(reg, w) <==> Thread(t) in reg
    ensures forall t :: Thread(t) in RegisterFuture(reg, w) <==> Thread(t) in reg
    ensures forall t :: Thread(t) in Release(reg, mine) <==> Thread(t) in reg
  {
    forall t
      ensures Thread(t) in RegisterDirect(reg, w) <==> Thread(t) in reg
      ensures Thread(t) in RegisterFuture(reg, w) <==> Thread(t) in reg
      ensures Thread(t) in Release(reg, mine) <==> Thread(t) in reg
    {
      WakerSectionsKeepThreads(reg, w, mine, t);
    }
  }

  // ---- register_waker ------------------------------------------------------------------------

  predicate CanCall(s: State, c: nat) {
    && c < |s.calls|
    && !s.calls[c].pc.RegReturned?
    && (s.calls[c].pc.RegLock? ==> s.lock.None?)
  }

  lemma CallLock(s: State, c: nat)
    requires LockInv(s) && CanCall(s, c)
    ensures LockInv(Tick(s, CallStep(s, c)))
  {
    assert Holds(s, ByCall(c)) == CallHolds(s.calls[c].pc);
  }

  lemma CallStable(s: State, c: nat)
    requires CellInv(s) && CanCall(s, c)
    ensures CellInv(Tick(s, CallStep(s, c)))
    ensures Stable(s, Tick(s, CallStep(s, c)))
  {
  }

  lemma CallRegistry(s: State, c: nat)
    requires LockInv(s) && RegistryInv(s) && CellInv(s) && CanCall(s, c) && CallOk(s, c)
    ensures RegistryInv(Tick(s, CallStep(s, c)))
    ensures forall t :: Thread(t) in Tick(s, CallStep(s, c)).mem.registry <==> Thread(t) in s.mem.registry
  {
    assert Holds(s, ByCall(c)) == CallHolds(s.calls[c].pc);
    WakerSections(s.mem.registry, s.calls[c].waker, []);
  }

  lemma CallSelf(s: State, c: nat)
    requires CellInv(s) && CanCall(s, c) && CallOk(s, c)
    ensures CallOk(Tick(s, CallStep(s, c)), c)
  {
  }

  lemma CallOwners(s: State, c: nat)
    requires OwnersExact(s) && CanCall(s, c)
    ensures OwnersExact(Tick(s, CallStep(s, c)))
  {
    if s.calls[c].pc.RegPush? {
      var w := s.calls[c].waker;
      var s' := Tick(s, CallStep(s, c));
      forall x ensures TallyOf(s'.mem.registry, x) == Single(OwnerCount(s'.futures, x), x in s'.directs) {
        assert TallyOf(s.mem.registry, w) == Single(OwnerCount(s.futures, w), w in s.directs);
        assert TallyOf(s.mem.registry, x) == Single(OwnerCount(s.futures, x), x in s.directs);
        DirectTally(s.mem.registry, w, x);
      }
    }
  }

  // ---- Futures -------------------------------------------------------------------------------

  predicate CanRunFuture(s: State, f: nat) {
    && f < |s.futures|
    && FutureBusy(s.futures[f].pc)
    && (s.futures[f].pc.PollLock? || s.futures[f].pc.DropLock? ==> s.lock.None?)
  }

  lemma FutureLock(s: State, f: nat)
    requires LockInv(s) && CanRunFuture(s, f)
    ensures LockInv(Tick(s, FutureStep(s, f)))
  {
    assert Holds(s, ByFuture(f)) == FutureHolds(s.futures[f].pc);
  }

  lemma FutureStable(s: State, f: nat)
    requires CellInv(s) && CanRunFuture(s, f)
    ensures CellInv(Tick(s, FutureStep(s, f)))
    ensures Stable(s, Tick(s, FutureStep(s, f)))
  {
  }

  lemma FutureRegistry(s: State, f: nat)
    requires LockInv(s) && RegistryInv(s) && CellInv(s) && CanRunFuture(s, f) && FutureOk(s, f)
    ensures RegistryInv(Tick(s, FutureStep(s, f)))
    ensures forall t :: Thread(t) in Tick(s, FutureStep(s, f)).mem.registry <==> Thread(t) in s.mem.registry
  {
    assert Holds(s, ByFuture(f)) == FutureHolds(s.futures[f].pc);
    var fut := s.futures[f];
    WakerSections(s.mem.registry, if fut.pc.PollPush? then fut.pc.w else 0, fut.wakers);
    if s.mem.word.completed && !DrainPending(s.completer) {
      ReleaseWithoutWakers(s.mem.registry, fut.wakers);
    }
    if s.mem.registry == [] {
      assert Release(s.mem.registry, fut.wakers) == [];
    }
  }

  lemma FutureSelf(s: State, f: nat)
    requires CellInv(s) && CanRunFuture(s, f) && FutureOk(s, f)
    ensures FutureOk(Tick(s, FutureStep(s, f)), f)
  {
  }

  lemma {:induction false} OwnerCountUpdate(futures: seq<FutureState>, f: nat, fut: FutureState, w: WakerId)
    requires f < |futures|
    ensures OwnerCount(futures[f := fut], w)
            == OwnerCount(futures, w) - (if Owns(futures[f], w) then 1 else 0) + (if Owns(fut, w) then 1 else 0)
  {
    if f == 0 {
      assert futures[f := fut][1..] == futures[1..];
    } else {
      assert futures[f := fut][1..] == futures[1..][f - 1 := fut];
      OwnerCountUpdate(futures[1..], f - 1, fut, w);
    }
  }

  lemma {:induction false} OwnerCountAppend(futures: seq<FutureState>, fut: FutureState, w: WakerId)
    ensures OwnerCount(futures + [fut], w) == OwnerCount(futures, w) + (if Owns(fut, w) then 1 else 0)
  {
    if futures != [] {
      assert (futures + [fut])[1..] == futures[1..] + [fut];
      OwnerCountAppend(futures[1..], fut, w);
    }
  }

  lemma PushOwners(s: State, f: nat, x: WakerId)
    requires OwnersExact(s) && CanRunFuture(s, f) && FutureOk(s, f) && s.futures[f].pc.PollPush?
    ensures OwnerCount(FutureStep(s, f).futures, x)
            == OwnerCount(s.futures, x) + if x == s.futures[f].pc.w then 1 else 0
    ensures TallyOf(FutureStep(s, f).mem.registry, x)
            == Single(OwnerCount(FutureStep(s, f).futures, x), x in s.directs)
  {
    var w := s.futures[f].pc.w;
    OwnerCountUpdate(s.futures, f, FutureStep(s, f).futures[f], x);
    assert TallyOf(s.mem.registry, x) == Single(OwnerCount(s.futures, x), x in s.directs);
    assert TallyOf(s.mem.registry, w) == Single(OwnerCount(s.futures, w), w in s.directs);
    FutureTally(s.mem.registry, w, x);
  }

  lemma ReleaseOwners(s: State, f: nat, x: WakerId)
    requires OwnersExact(s) && CanRunFuture(s, f) && FutureOk(s, f) && s.futures[f].pc.DropRetain?
    ensures OwnerCount(FutureStep(s, f).futures, x)
            == OwnerCount(s.futures, x) - if x in s.futures[f].wakers then 1 else 0
    ensures TallyOf(FutureStep(s, f).mem.registry, x)
            == Single(OwnerCount(FutureStep(s, f).futures, x), x in s.directs)
  {
    OwnerCountUpdate(s.futures, f, FutureStep(s, f).futures[f], x);
    assert TallyOf(s.mem.registry, x) == Single(OwnerCount(s.futures, x), x in s.directs);
    ReleaseTally(s.mem.registry, s.futures[f].wakers, x);
  }

  /** Every other step of a future moves the ownership it holds, without changing it. */
  lemma OtherOwners(s: State, f: nat, x: WakerId)
    requires CanRunFuture(s, f) && FutureOk(s, f) && !s.futures[f].pc.PollPush? && !s.futures[f].pc.DropRetain?
    ensures FutureStep(s, f).mem.registry == s.mem.registry
    ensures OwnerCount(FutureStep(s, f).futures, x) == OwnerCount(s.futures, x)
  {
    assert FutureStep(s, f).futures == s.futures[f := FutureStep(s, f).futures[f]];
    OwnerCountUpdate(s.futures, f, FutureStep(s, f).futures[f], x);
  }

  /** After the take no poll can register, so ownership only shrinks. */
  lemma OwnershipShrinks(s: State, f: nat, w: WakerId)
    requires CanRunFuture(s, f) && FutureOk(s, f) && !s.futures[f].pc.PollPush?
    ensures Owns(FutureStep(s, f).futures[f], w) ==> Owns(s.futures[f], w)
  {
  }

  lemma FutureOwnedTaken(s: State, f: nat)
    requires CellInv(s) && OwnedTaken(s) && CanRunFuture(s, f) && FutureOk(s, f)
    ensures OwnedTaken(Tick(s, FutureStep(s, f)))
  {
    var s' := Tick(s, FutureStep(s, f));
    FutureFrame(s, f);
    if Taken(s.completer) {
      forall g, w | 0 <= g < |s'.futures| && Owns(s'.futures[g], w) ensures w in Wakers(s'.completer.taken) {
        if g == f {
          OwnershipShrinks(s, f, w);
        }
        assert Owns(s.futures[g], w);
      }
    }
  }

  lemma FutureOwners(s: State, f: nat)
    requires OwnersExact(s) && CanRunFuture(s, f) && FutureOk(s, f)
    ensures OwnersExact(Tick(s, FutureStep(s, f)))
  {
    var s' := FutureStep(s, f);
    forall x ensures TallyOf(s'.mem.registry, x) == Single(OwnerCount(s'.futures, x), x in s'.directs) {
      if s.futures[f].pc.PollPush? {
        PushOwners(s, f, x);
      } else if s.futures[f].pc.DropRetain? {
        ReleaseOwners(s, f, x);
      } else {
        OtherOwners(s, f, x);
        assert TallyOf(s.mem.registry, x) == Single(OwnerCount(s.futures, x), x in s.directs);
      }
    }
  }

  // ---- The completer ---------------------------------------------------------------------------

  lemma {:induction false} WakersConcat(a: seq<Waiter>, b: seq<Waiter>)
    ensures Wakers(a + b) == Wakers(a) + Wakers(b)
  {
    if a == [] {
      assert a + b == b;
    } else {
      assert (a + b)[1..] == a[1..] + b;
      WakersConcat(a[1..], b);
    }
  }

  predicate CanPublish(s: State) {
    && CompleterBusy(s.completer) && !s.completer.Notify?
    && (s.completer.DrainLock? ==> s.lock.None?)
  }

  lemma PublishLock(s: State)
    requires LockInv(s) && CanPublish(s)
    ensures LockInv(Tick(s, PublishStep(s)))
  {
    assert Holds(s, ByCompleter) == CompleterHolds(s.completer);
  }

  lemma PublishCell(s: State)
    requires CellInv(s) && CanPublish(s)
    ensures CellInv(Tick(s, PublishStep(s)))
  {
  }

  lemma PublishThreads(s: State, t: nat)
    requires LockInv(s) && CellInv(s) && RegistryInv(s) && CanPublish(s)
    requires t < |s.threads| && ThreadOk(s, t)
    ensures ThreadOk(Tick(s, PublishStep(s)), t)
  {
    assert Holds(s, ByCompleter) == CompleterHolds(s.completer);
    assert Holds(s, ByThread(t)) == ThreadHolds(s.threads[t].pc);
  }

  lemma PublishCalls(s: State, c: nat)
    requires LockInv(s) && CellInv(s) && CanPublish(s)
    requires c < |s.calls| && CallOk(s, c)
    ensures CallOk(Tick(s, PublishStep(s)), c)
  {
    assert Holds(s, ByCompleter) == CompleterHolds(s.completer);
    assert Holds(s, ByCall(c)) == CallHolds(s.calls[c].pc);
  }

  lemma PublishFutures(s: State, f: nat)
    requires LockInv(s) && CellInv(s) && CanPublish(s)
    requires f < |s.futures| && FutureOk(s, f)
    ensures FutureOk(Tick(s, PublishStep(s)), f)
  {
    assert Holds(s, ByCompleter) == CompleterHolds(s.completer);
    assert Holds(s, ByFuture(f)) == FutureHolds(s.futures[f].pc);
  }

  lemma PublishRegistry(s: State)
    requires LockInv(s) && RegistryInv(s) && CellInv(s) && CanPublish(s)
    ensures RegistryInv(Tick(s, PublishStep(s)))
  {
    assert Holds(s, ByCompleter) == CompleterHolds(s.completer);
  }

  /** The take moves out each owed waker once, and nothing else. */
  lemma TakeDelivers(s: State)
    requires OwnersExact(s)
    ensures OnceEach(Wakers(s.mem.registry))
    ensures forall w :: w in Wakers(s.mem.registry) <==> w in s.directs || OwnerCount(s.futures, w) > 0
  {
    forall w
      ensures multiset(Wakers(s.mem.registry))[w] <= 1
      ensures w in Wakers(s.mem.registry) <==> w in s.directs || OwnerCount(s.futures, w) > 0
    {
      TallyWakers(s.mem.registry, w);
      assert TallyOf(s.mem.registry, w) == Single(OwnerCount(s.futures, w), w in s.directs);
      assert w in Wakers(s.mem.registry) <==> w in multiset(Wakers(s.mem.registry));
    }
  }

  /** A counted waker is owned by some future, and an owned one is counted. */
  lemma {:induction false} CountedIsOwned(futures: seq<FutureState>, w: WakerId) returns (f: nat)
    requires OwnerCount(futures, w) > 0
    ensures f < |futures| && Owns(futures[f], w)
  {
    if Owns(futures[0], w) {
      f := 0;
    } else {
      f := CountedIsOwned(futures[1..], w);
      f := f + 1;
    }
  }

  lemma {:induction false} OwnedMeansCounted(futures: seq<FutureState>, f: nat, w: WakerId)
    requires f < |futures| && Owns(futures[f], w)
    ensures OwnerCount(futures, w) > 0
  {
    if f > 0 {
      OwnedMeansCounted(futures[1..], f - 1, w);
    }
  }

  lemma PublishOwnedTaken(s: State)
    requires CanPublish(s) && OwnedTaken(s) && (!Taken(s.completer) ==> OwnersExact(s))
    ensures OwnedTaken(Tick(s, PublishStep(s)))
  {
    if s.completer.DrainTake? {
      TakeDelivers(s);
      forall f, w | 0 <= f < |s.futures| && Owns(s.futures[f], w) ensures w in Wakers(s.mem.registry) {
        OwnedMeansCounted(s.futures, f, w);
      }
    }
  }

  lemma PublishDrain(s: State)
    requires CanPublish(s) && DrainInv(s) && RegistryInv(s) && (!Taken(s.completer) ==> OwnersExact(s))
    ensures DrainInv(Tick(s, PublishStep(s)))
    ensures !Taken(PublishStep(s).completer) ==> OwnersExact(Tick(s, PublishStep(s)))
  {
    if s.completer.DrainTake? {
      TakeDelivers(s);
    } else if s.completer.DrainUnlock? {
      assert s.completer.taken[..0] == [];
    } else {
      assert forall w :: TallyOf(s.mem.registry, w) == Single(OwnerCount(s.futures, w), w in s.directs);
    }
  }

  lemma NotifyThreads(s: State, panics: bool, t: nat)
    requires s.completer.Notify? && t < |s.threads| && ThreadOk(s, t) && CellInv(s)
    ensures ThreadOk(Tick(s, NotifyStep(s, panics)), t)
  {
    var Notify(taken, next, _) := s.completer;
    if next < |taken| {
      assert taken[next..] == [taken[next]] + taken[next + 1..];
    }
  }

  lemma WakersOfPrefix(taken: seq<Waiter>, next: nat)
    requires next <= |taken|
    ensures next == |taken| ==> Wakers(taken[..next]) == Wakers(taken)
    ensures next < |taken| ==>
              Wakers(taken[..next + 1])
              == Wakers(taken[..next]) + if taken[next].Waker? then [taken[next].waker] else []
  {
    if next < |taken| {
      WakersConcat(taken[..next], [taken[next]]);
      assert taken[..next + 1] == taken[..next] + [taken[next]];
      assert [taken[next]][1..] == [];
    } else {
      assert taken[..next] == taken;
    }
  }

  lemma NotifyDrain(s: State, panics: bool)
    requires s.completer.Notify? && DrainInv(s)
    ensures DrainInv(Tick(s, NotifyStep(s, panics)))
  {
    WakersOfPrefix(s.completer.taken, s.completer.next);
  }

  lemma NotifyRest(s: State, panics: bool)
    requires s.completer.Notify? && LockInv(s) && CellInv(s) && RegistryInv(s) && CallsOk(s) && FuturesOk(s)
    ensures var s' := Tick(s, NotifyStep(s, panics));
            LockInv(s') && CellInv(s') && RegistryInv(s') && CallsOk(s') && FuturesOk(s')
  {
    var s' := Tick(s, NotifyStep(s, panics));
    forall a ensures Holds(s', a) <==> s'.lock == Some(a) {
      assert Holds(s, a) <==> s.lock == Some(a);
    }
    forall c | 0 <= c < |s.calls| ensures CallOk(s', c) {
      assert CallOk(s, c);
    }
    forall f | 0 <= f < |s.futures| ensures FutureOk(s', f) {
      assert FutureOk(s, f);
    }
  }

  // ---- Every step ------------------------------------------------------------------------------

  lemma OwnersStay(s: State, s': State)
    requires OwnersExact(s) && s'.futures == s.futures && s'.directs == s.directs
    requires forall w :: TallyOf(s'.mem.registry, w) == TallyOf(s.mem.registry, w)
    ensures OwnersExact(s')
  {
    forall w ensures TallyOf(s'.mem.registry, w) == Single(OwnerCount(s'.futures, w), w in s'.directs) {
      assert TallyOf(s.mem.registry, w) == Single(OwnerCount(s.futures, w), w in s.directs);
    }
  }

  lemma DrainStays(s: State, s': State)
    requires DrainInv(s) && s'.completer == s.completer && s'.fired == s.fired
    requires Taken(s.completer) ==> s'.directs == s.directs
    requires |s.threads| <= |s'.threads|
    ensures DrainInv(s')
  {
  }

  lemma ThreadFrame(s: State, t: nat)
    requires t < |s.threads|
    ensures var s' := Tick(s, ThreadStep(s, t));
            && s'.calls == s.calls && s'.futures == s.futures && s'.directs == s.directs && s'.fired == s.fired
            && s'.completer == s.completer && |s'.threads| == |s.threads|
            && forall w :: TallyOf(s'.mem.registry, w) == TallyOf(s.mem.registry, w)
  {
    ThreadSections(s.mem.registry, t);
  }

  predicate CanRunThread(s: State, t: nat) {
    CanRegister(s, t) || CanPark(s, t)
  }

  lemma ThreadStepSound(s: State, t: nat)
    requires LockInv(s) && CellInv(s) && RegistryInv(s) && CanRunThread(s, t) && ThreadOk(s, t)
    ensures var s' := Tick(s, ThreadStep(s, t));
            LockInv(s') && CellInv(s') && RegistryInv(s') && ThreadOk(s', t) && Stable(s, s')
  {
    if Registering(s.threads[t].pc) {
      RegisteringLock(s, t);
      RegisteringStable(s, t);
      RegisteringRegistry(s, t);
      RegisteringSelf(s, t);
    } else {
      ParkingLock(s, t);
      ParkingStable(s, t);
      ParkingRegistry(s, t);
      ParkingSelf(s, t);
    }
  }

  lemma ThreadStepOthers(s: State, t: nat, x: nat)
    requires CanRunThread(s, t) && x < |s.threads| && x != t
    ensures ThreadUntouched(s, Tick(s, ThreadStep(s, t)), x)
  {
    if Registering(s.threads[t].pc) { RegisteringOthers(s, t, x); } else { ParkingOthers(s, t, x); }
  }

  lemma ThreadStepKeepsInv(s: State, t: nat)
    requires Inv(s) && CanRunThread(s, t)
    ensures Inv(Tick(s, ThreadStep(s, t)))
  {
    var s' := Tick(s, ThreadStep(s, t));
    assert ThreadOk(s, t);
    ThreadStepSound(s, t);
    ThreadFrame(s, t);
    forall x | 0 <= x < |s'.threads| && x != t ensures ThreadOk(s', x) {
      ThreadStepOthers(s, t, x);
      ThreadStays(s, s', x);
    }
    CallsStay(s, s');
    FuturesStay(s, s');
    if !Taken(s.completer) {
      OwnersStay(s, s');
    }
    DrainStays(s, s');
  }

  lemma CallFrame(s: State, c: nat)
    requires CellInv(s) && CanCall(s, c) && CallOk(s, c)
    ensures var s' := Tick(s, CallStep(s, c));
            && s'.threads == s.threads && s'.tokens == s.tokens && s'.futures == s.futures
            && s'.completer == s.completer && s'.fired == s.fired
            && s'.calls == s.calls[c := s'.calls[c]]
            && (Taken(s.completer) ==> s'.directs == s.directs)
  {
  }

  lemma CallStepSound(s: State, c: nat)
    requires LockInv(s) && CellInv(s) && RegistryInv(s) && CanCall(s, c) && CallOk(s, c)
    ensures var s' := Tick(s, CallStep(s, c));
            && LockInv(s') && CellInv(s') && RegistryInv(s') && CallOk(s', c) && Stable(s, s')
            && forall t :: Thread(t) in s'.mem.registry <==> Thread(t) in s.mem.registry
  {
    CallLock(s, c);
    CallStable(s, c);
    CallRegistry(s, c);
    CallSelf(s, c);
  }

  lemma CallStepKeepsInv(s: State, c: nat)
    requires Inv(s) && CanCall(s, c)
    ensures Inv(Tick(s, CallStep(s, c)))
  {
    var s' := Tick(s, CallStep(s, c));
    assert CallOk(s, c);
    CallStepSound(s, c);
    CallFrame(s, c);
    CallsStay(s, s');
    FuturesStay(s, s');
    ThreadsStay(s, s');
    if !Taken(s.completer) {
      CallOwners(s, c);
    }
    DrainStays(s, s');
  }

  lemma FutureFrame(s: State, f: nat)
    requires CanRunFuture(s, f)
    ensures var s' := Tick(s, FutureStep(s, f));
            && s'.threads == s.threads && s'.tokens == s.tokens && s'.calls == s.calls
            && s'.completer == s.completer && s'.fired == s.fired && s'.directs == s.directs
            && s'.futures == s.futures[f := s'.futures[f]]
  {
  }

  lemma FutureStepSound(s: State, f: nat)
    requires LockInv(s) && CellInv(s) && RegistryInv(s) && CanRunFuture(s, f) && FutureOk(s, f)
    ensures var s' := Tick(s, FutureStep(s, f));
            && LockInv(s') && CellInv(s') && RegistryInv(s') && FutureOk(s', f) && Stable(s, s')
            && forall t :: Thread(t) in s'.mem.registry <==> Thread(t) in s.mem.registry
  {
    FutureLock(s, f);
    FutureStable(s, f);
    FutureRegistry(s, f);
    FutureSelf(s, f);
  }

  lemma FutureStepKeepsInv(s: State, f: nat)
    requires Inv(s) && CanRunFuture(s, f)
    ensures Inv(Tick(s, FutureStep(s, f)))
  {
    var s' := Tick(s, FutureStep(s, f));
    assert FutureOk(s, f);
    FutureStepSound(s, f);
    FutureFrame(s, f);
    CallsStay(s, s');
    FuturesStay(s, s');
    ThreadsStay(s, s');
    if !Taken(s.completer) {
      FutureOwners(s, f);
    }
    FutureOwnedTaken(s, f);
    DrainStays(s, s');
  }

  lemma CompleterStepKeepsInv(s: State, panics: bool)
    requires Inv(s) && CompleterBusy(s.completer) && (s.completer.DrainLock? ==> s.lock.None?)
    ensures Inv(Tick(s, CompleterStep(s, panics)))
  {
    var s' := Tick(s, CompleterStep(s, panics));
    forall t | 0 <= t < |s.threads| ensures ThreadOk(s', t) {
      assert ThreadOk(s, t);
      if s.completer.Notify? { NotifyThreads(s, panics, t); } else { PublishThreads(s, t); }
    }
    if s.completer.Notify? {
      NotifyRest(s, panics);
      NotifyDrain(s, panics);
    } else {
      PublishLock(s);
      PublishCell(s);
      PublishRegistry(s);
      PublishDrain(s);
      PublishOwnedTaken(s);
      forall c | 0 <= c < |s.calls| ensures CallOk(s', c) { PublishCalls(s, c); }
      forall f | 0 <= f < |s.futures| ensures FutureOk(s', f) { PublishFutures(s, f); }
    }
  }

  /** A thread that starts a call, returns from `park` without a token, or finds its deadline passed. */
  predicate ThreadMoved(s: State, th: WaitCall, th': WaitCall) {
    || th' == th
    || (th'.pc.WaitLoad? && th'.begun <= th'.seen <= s.clock)
    || (th.pc.WaitDeadline? && th' == th.(pc := WaitDeregLock))
  }

  lemma OuterThreads(s: State, s': State)
    requires Inv(s) && s' == s.(threads := s'.threads, tokens := s'.tokens, clock := s.clock + 1)
    requires |s.threads| <= |s'.threads|
    requires forall t :: 0 <= t < |s.threads| ==>
               && ThreadMoved(s, s.threads[t], s'.threads[t])
               && (s'.threads[t] != s.threads[t] ==> !ThreadHolds(s.threads[t].pc))
               && (ThreadBusy(s.threads[t].pc) && t in s.tokens ==> t in s'.tokens)
    requires forall t :: |s.threads| <= t < |s'.threads| ==> s'.threads[t] == WaitCall(WaitIdle, false, 0, 0, 0)
    ensures Inv(s')
  {
    assert forall a :: Holds(s', a) == Holds(s, a);
    forall t | 0 <= t < |s'.threads| ensures ThreadOk(s', t) {
      if t < |s.threads| {
        assert ThreadOk(s, t);
      }
    }
    CallsStay(s, s');
    FuturesStay(s, s');
    if !Taken(s.completer) {
      OwnersStay(s, s');
    }
    DrainStays(s, s');
  }

  lemma OuterCall(s: State, w: WakerId, via: nat)
    requires Inv(s)
    ensures Inv(Tick(s, s.(calls := s.calls + [RegisterCall(w, RegLoad, via)])))
  {
    var s' := Tick(s, s.(calls := s.calls + [RegisterCall(w, RegLoad, via)]));
    assert forall a :: Holds(s', a) == Holds(s, a);
    CallsStay(s, s');
    FuturesStay(s, s');
    ThreadsStay(s, s');
    if !Taken(s.completer) {
      OwnersStay(s, s');
    }
    DrainStays(s, s');
  }

  /** `fut` is a new future, or future `f` as it starts to be polled or dropped. */
  predicate FutureStarts(s: State, f: nat, fut: FutureState) {
    if f < |s.futures| then
      && (s.futures[f].pc.FutIdle? || s.futures[f].pc.FutReady?)
      && (fut.pc.PollGet? || fut.pc.DropLock? || (fut.pc.FutDropped? && fut.wakers == []))
      && fut == s.futures[f].(pc := fut.pc)
    else f == |s.futures| && fut == FutureState(FutIdle, [], fut.via, None)
  }

  function StartFuture(s: State, f: nat, fut: FutureState): State
    requires f <= |s.futures|
  {
    s.(futures := if f == |s.futures| then s.futures + [fut] else s.futures[f := fut])
  }

  /** Starting changes nobody's ownership. */
  lemma OuterFutureOwners(s: State, f: nat, fut: FutureState)
    requires FutureStarts(s, f, fut) && OwnersExact(s)
    ensures OwnersExact(StartFuture(s, f, fut))
  {
    var s' := StartFuture(s, f, fut);
    forall w ensures TallyOf(s'.mem.registry, w) == Single(OwnerCount(s'.futures, w), w in s'.directs) {
      assert TallyOf(s.mem.registry, w) == Single(OwnerCount(s.futures, w), w in s.directs);
      if f < |s.futures| { OwnerCountUpdate(s.futures, f, fut, w); } else { OwnerCountAppend(s.futures, fut, w); }
    }
  }

  lemma OuterFuture(s: State, f: nat, fut: FutureState)
    requires Inv(s) && FutureStarts(s, f, fut)
    ensures Inv(Tick(s, StartFuture(s, f, fut)))
  {
    var s' := Tick(s, StartFuture(s, f, fut));
    assert forall a :: Holds(s', a) == Holds(s, a);
    if f < |s.futures| {
      assert FutureOk(s, f);
    }
    CallsStay(s, s');
    FuturesStay(s, s');
    ThreadsStay(s, s');
    if !Taken(s.completer) {
      OuterFutureOwners(s, f, fut);
    }
    DrainStays(s, s');
  }

  lemma OuterComplete(s: State, v: Outcome)
    requires Inv(s) && s.completer.Pending?
    ensures Inv(Tick(s, s.(mem := s.mem.(cell := Some(v)), completer := Publish)))
  {
    var s' := Tick(s, s.(mem := s.mem.(cell := Some(v)), completer := Publish));
    forall a ensures Holds(s', a) <==> s'.lock == Some(a) {
      assert Holds(s, a) <==> s.lock == Some(a);
    }
    forall t | 0 <= t < |s.threads| ensures ThreadOk(s', t) { assert ThreadOk(s, t); }
    forall c | 0 <= c < |s.calls| ensures CallOk(s', c) { assert CallOk(s, c); }
    forall f | 0 <= f < |s.futures| ensures FutureOk(s', f) { assert FutureOk(s, f); }
    OwnersStay(s, s');
  }

  lemma OuterStepKeepsInv(s: State, step: Step)
    requires Inv(s) && Enabled(s, step)
    requires !step.RunThread? && !step.RunCall? && !step.RunFuture? && !step.RunCompleter?
    ensures Inv(Apply(s, step))
  {
    if step.StartCall? {
      OuterCall(s, step.w, step.via);
    } else if step.NewFuture? {
      OuterFuture(s, |s.futures|, FutureState(FutIdle, [], step.via, None));
    } else if step.StartPoll? {
      OuterFuture(s, step.f, s.futures[step.f].(pc := PollGet(step.w)));
    } else if step.StartDrop? {
      var fut := s.futures[step.f];
      OuterFuture(s, step.f, fut.(pc := if fut.wakers == [] then FutDropped else DropLock));
    } else if step.StartComplete? {
      OuterComplete(s, step.v);
    } else {
      if step.Spurious? {
        assert ThreadOk(s, step.t);
      }
      OuterThreads(s, Apply(s, step));
    }
  }

  /** The invariant is inductive: no step of any actor, in any state that meets it, breaks it. */
  lemma StepKeepsInv(s: State, step: Step)
    requires Inv(s) && Enabled(s, step)
    ensures Inv(Apply(s, step))
  {
    match step
    case RunThread(t) => ThreadStepKeepsInv(s, t);
    case RunCall(c) => CallStepKeepsInv(s, c);
    case RunFuture(f) => FutureStepKeepsInv(s, f);
    case RunCompleter(panics) => CompleterStepKeepsInv(s, panics);
    case _ => OuterStepKeepsInv(s, step);
  }

  /** A slot no one has used yet meets the invariant, whatever tokens are about. */
  lemma FreshInv(mem: SlotMem, tokens: set<ThreadId>)
    requires mem == FreshMem().(boxed := mem.boxed)
    ensures Inv(Fresh(mem, tokens))
  {
  }
}
