/** The waiter registry of one slot. */
module Registry {
  // The vector behind `Mutex<Vec<Waiter>>`. Each function is one critical section of the library,
  // taken as a whole; the class `WaiterList` holds the same operations in the form the library gives
  // them, as loops over the vector, proved equal to the functions. The slot protocol uses the
  // functions as its steps.


  type ThreadId = nat
  type WakerId = nat

  /** `owners` is an integer, not a natural number, so that a decrement at zero would be visible. */
  datatype Waiter =
    | Thread(thread: ThreadId)
    | Waker(waker: WakerId, persistent: bool, owners: int)

  predicate IsWaker(e: Waiter, w: WakerId) {
    e.Waker? && e.waker == w
  }

  // ---- The critical sections -------------------------------------------------------------

  /** `register_waker`: mark the first entry of `w` persistent, or push a new one. */
  function RegisterDirect(reg: seq<Waiter>, w: WakerId): seq<Waiter> {
    if reg == [] then [Waker(w, true, 0)]
    else if IsWaker(reg[0], w) then [reg[0].(persistent := true)] + reg[1..]
    else [reg[0]] + RegisterDirect(reg[1..], w)
  }

  /** `register_future_waker`: add one owner to the first entry of `w`, or push a new one. */
  function RegisterFuture(reg: seq<Waiter>, w: WakerId): seq<Waiter> {
    if reg == [] then [Waker(w, false, 1)]
    else if IsWaker(reg[0], w) then [reg[0].(owners := reg[0].owners + 1)] + reg[1..]
    else [reg[0]] + RegisterFuture(reg[1..], w)
  }

  /** What the closure of `ObservationFuture::drop` leaves of one entry. */
  function ReleaseOne(e: Waiter, mine: seq<WakerId>): seq<Waiter> {
    if e.Thread? || e.waker !in mine then [e]
    else if e.persistent || e.owners - 1 != 0 then [e.(owners := e.owners - 1)]
    else []
  }

  /** `ObservationFuture::drop`: give up one owner of every entry whose waker is in `mine`. */
  function Release(reg: seq<Waiter>, mine: seq<WakerId>): seq<Waiter> {
    if reg == [] then [] else ReleaseOne(reg[0], mine) + Release(reg[1..], mine)
  }

  /** `wait`: push the thread unless the last entry already is that thread. */
  function PushThread(reg: seq<Waiter>, t: ThreadId): seq<Waiter> {
    if |reg| > 0 && reg[|reg| - 1] == Thread(t) then reg else reg + [Thread(t)]
  }

  /** `retain(|w| not this thread)`. */
  function RemoveThread(reg: seq<Waiter>, t: ThreadId): seq<Waiter> {
    if reg == [] then []
    else (if reg[0] == Thread(t) then [] else [reg[0]]) + RemoveThread(reg[1..], t)
  }

  /** The decrement in `Release` finds an owner in every entry it touches. */
  predicate ReleaseSafe(reg: seq<Waiter>, mine: seq<WakerId>) {
    forall i :: 0 <= i < |reg| && reg[i].Waker? && reg[i].waker in mine ==> reg[i].owners > 0
  }

  // ---- Views -----------------------------------------------------------------------------

  /** The waker entries of a registry, in order. */
  function Wakers(reg: seq<Waiter>): seq<WakerId> {
    if reg == [] then []
    else (if reg[0].Waker? then [reg[0].waker] else []) + Wakers(reg[1..])
  }

  /** Everything the registry says about one waker: entries, owners in all, any persistent entry. */
  datatype Tally = Tally(entries: nat, owners: int, persistent: bool)

  function TallyOf(reg: seq<Waiter>, w: WakerId): Tally {
    if reg == [] then Tally(0, 0, false)
    else
      var rest := TallyOf(reg[1..], w);
      if IsWaker(reg[0], w)
      then Tally(rest.entries + 1, rest.owners + reg[0].owners, rest.persistent || reg[0].persistent)
      else rest
  }

  /** The tally of a waker with a single entry, or of one with none. */
  function Single(owners: int, persistent: bool): Tally {
    if persistent || owners != 0 then Tally(1, owners, persistent) else Tally(0, 0, false)
  }

  // ---- What each critical section does to the views ----------------------------------------

  lemma {:induction false} TallyConcat(a: seq<Waiter>, b: seq<Waiter>, w: WakerId)
    ensures TallyOf(a + b, w) == Tally(TallyOf(a, w).entries + TallyOf(b, w).entries,
                                       TallyOf(a, w).owners + TallyOf(b, w).owners,
                                       TallyOf(a, w).persistent || TallyOf(b, w).persistent)
  {
    if a == [] {
      assert a + b == b;
    } else {
      assert (a + b)[1..] == a[1..] + b;
      TallyConcat(a[1..], b, w);
    }
  }

  lemma {:induction false} TallyPresent(reg: seq<Waiter>, i: nat, w: WakerId)
    requires i < |reg| && IsWaker(reg[i], w)
    ensures TallyOf(reg, w).entries >= 1
    ensures TallyOf(reg, w).entries == 1 ==>
              reg[i].owners == TallyOf(reg, w).owners && reg[i].persistent == TallyOf(reg, w).persistent
  {
    if i > 0 {
      TallyPresent(reg[1..], i - 1, w);
    } else if TallyOf(reg, w).entries == 1 {
      TallyAbsent(reg[1..], w);
    }
  }

  lemma {:induction false} TallyAbsent(reg: seq<Waiter>, w: WakerId)
    requires TallyOf(reg, w).entries == 0
    ensures TallyOf(reg, w) == Tally(0, 0, false)
  {
    if reg != [] {
      TallyAbsent(reg[1..], w);
    }
  }

  lemma {:induction false} TallyNoWakers(reg: seq<Waiter>, w: WakerId)
    requires forall e :: e in reg ==> e.Thread?
    ensures TallyOf(reg, w) == Tally(0, 0, false)
  {
    if reg != [] {
      assert reg[0].Thread?;
      TallyNoWakers(reg[1..], w);
    }
  }

  lemma {:induction false} TallyWakers(reg: seq<Waiter>, w: WakerId)
    ensures multiset(Wakers(reg))[w] == TallyOf(reg, w).entries
  {
    if reg != [] {
      TallyWakers(reg[1..], w);
    }
  }

  /** A direct registration makes `w` persistent in one entry and leaves every other waker alone. */
  lemma {:induction false} DirectTally(reg: seq<Waiter>, w: WakerId, x: WakerId)
    requires TallyOf(reg, w).entries <= 1
    ensures x == w ==> TallyOf(RegisterDirect(reg, w), x) == Tally(1, TallyOf(reg, w).owners, true)
    ensures x != w ==> TallyOf(RegisterDirect(reg, w), x) == TallyOf(reg, x)
  {
    if reg != [] {
      if IsWaker(reg[0], w) {
        assert RegisterDirect(reg, w)[1..] == reg[1..];
        TallyAbsent(reg[1..], w);
      } else {
        DirectTally(reg[1..], w, x);
        assert RegisterDirect(reg, w)[1..] == RegisterDirect(reg[1..], w);
      }
    }
  }

  lemma UpdateTail(reg: seq<Waiter>, k: nat, e: Waiter)
    requires 0 < k < |reg|
    ensures reg[k := e] == [reg[0]] + reg[1..][k - 1 := e]
  {
  }

  /** A registration changes the first entry of `w` in place, each kind its own field. */
  lemma {:induction false} RegistrationsFind(reg: seq<Waiter>, k: nat, w: WakerId)
    requires k < |reg| && IsWaker(reg[k], w) && forall j :: 0 <= j < k ==> !IsWaker(reg[j], w)
    ensures RegisterDirect(reg, w) == reg[k := reg[k].(persistent := true)]
    ensures RegisterFuture(reg, w) == reg[k := reg[k].(owners := reg[k].owners + 1)]
  {
    if k > 0 {
      assert !IsWaker(reg[0], w);
      assert forall j :: 0 <= j < k - 1 ==> reg[1..][j] == reg[j + 1];
      RegistrationsFind(reg[1..], k - 1, w);
      UpdateTail(reg, k, reg[k].(persistent := true));
      UpdateTail(reg, k, reg[k].(owners := reg[k].owners + 1));
    }
  }

  /** Without an entry of `w` it appends one, persistent without owners or owned once and not persistent. */
  lemma {:induction false} RegistrationsAppend(reg: seq<Waiter>, w: WakerId)
    requires forall j :: 0 <= j < |reg| ==> !IsWaker(reg[j], w)
    ensures RegisterDirect(reg, w) == reg + [Waker(w, true, 0)]
    ensures RegisterFuture(reg, w) == reg + [Waker(w, false, 1)]
  {
    if reg != [] {
      assert !IsWaker(reg[0], w);
      RegistrationsAppend(reg[1..], w);
    }
  }

  /** A future registration adds one owner to `w` and leaves every other waker alone. */
  lemma {:induction false} FutureTally(reg: seq<Waiter>, w: WakerId, x: WakerId)
    requires TallyOf(reg, w).entries <= 1
    ensures x == w ==> TallyOf(RegisterFuture(reg, w), x)
                       == Tally(1, TallyOf(reg, w).owners + 1, TallyOf(reg, w).persistent)
    ensures x != w ==> TallyOf(RegisterFuture(reg, w), x) == TallyOf(reg, x)
  {
    if reg != [] {
      if IsWaker(reg[0], w) {
        assert RegisterFuture(reg, w)[1..] == reg[1..];
        TallyAbsent(reg[1..], w);
      } else {
        FutureTally(reg[1..], w, x);
        assert RegisterFuture(reg, w)[1..] == RegisterFuture(reg[1..], w);
      }
    }
  }

  /** Cancelling takes one owner from each of `mine`; an entry goes when nothing holds it any more. */
  lemma {:induction false} ReleaseTally(reg: seq<Waiter>, mine: seq<WakerId>, x: WakerId)
    requires TallyOf(reg, x).entries <= 1
    ensures TallyOf(Release(reg, mine), x) ==
            if x !in mine || TallyOf(reg, x).entries == 0 then TallyOf(reg, x)
            else Single(TallyOf(reg, x).owners - 1, TallyOf(reg, x).persistent)
  {
    if reg != [] {
      ReleaseTally(reg[1..], mine, x);
      TallyConcat(ReleaseOne(reg[0], mine), Release(reg[1..], mine), x);
      if IsWaker(reg[0], x) {
        TallyAbsent(reg[1..], x);
      }
    }
  }

  lemma PushThreadTally(reg: seq<Waiter>, t: ThreadId, x: WakerId)
    ensures TallyOf(PushThread(reg, t), x) == TallyOf(reg, x)
  {
    TallyConcat(reg, [Thread(t)], x);
  }

  lemma {:induction false} RemoveThreadTally(reg: seq<Waiter>, t: ThreadId, x: WakerId)
    ensures TallyOf(RemoveThread(reg, t), x) == TallyOf(reg, x)
  {
    if reg != [] {
      RemoveThreadTally(reg[1..], t, x);
      TallyConcat(if reg[0] == Thread(t) then [] else [reg[0]], RemoveThread(reg[1..], t), x);
    }
  }

  /** No critical section on wakers touches a thread entry. */
  lemma {:induction false} WakerSectionsKeepThreads(reg: seq<Waiter>, w: WakerId, mine: seq<WakerId>, t: ThreadId)
    ensures Thread(t) in RegisterDirect(reg, w) <==> Thread(t) in reg
    ensures Thread(t) in RegisterFuture(reg, w) <==> Thread(t) in reg
    ensures Thread(t) in Release(reg, mine) <==> Thread(t) in reg
  {
    if reg != [] {
      WakerSectionsKeepThreads(reg[1..], w, mine, t);
      assert reg == [reg[0]] + reg[1..];
    }
  }

  /** After `wait` pushed, its thread is the last entry, pushed once however often it tries again. */
  lemma PushThreadExact(reg: seq<Waiter>, t: ThreadId)
    ensures var pushed := PushThread(reg, t);
            && |pushed| > 0 && pushed[|pushed| - 1] == Thread(t)
            && PushThread(pushed, t) == pushed
            && reg <= pushed && |pushed| <= |reg| + 1
            && (|reg| > 0 && reg[|reg| - 1] == Thread(t) ==> pushed == reg)
  {
  }

  predicate LastIs(reg: seq<Waiter>, t: ThreadId) {
    |reg| > 0 && reg[|reg| - 1] == Thread(t)
  }

  /** The push adds one entry of the thread, unless it is the last one already. */
  lemma PushThreadCounts(reg: seq<Waiter>, t: ThreadId)
    ensures multiset(PushThread(reg, t))[Thread(t)] == multiset(reg)[Thread(t)] + if LastIs(reg, t) then 0 else 1
  {
    assert multiset(reg + [Thread(t)]) == multiset(reg) + multiset{Thread(t)};
  }

  /**
   Only the last entry is looked at, so a thread is listed at most once after its push exactly if
   it was not listed before, or once and last.
  */
  lemma ListedOnceExactly(reg: seq<Waiter>, t: ThreadId)
    ensures multiset(PushThread(reg, t))[Thread(t)] <= 1
            <==> Thread(t) !in reg || (multiset(reg)[Thread(t)] == 1 && LastIs(reg, t))
  {
    PushThreadCounts(reg, t);
    assert Thread(t) in reg <==> Thread(t) in multiset(reg);
  }

  /** Deregistering a thread removes all its entries, however many, and no other entry. */
  lemma {:induction false} RemoveThreadExact(reg: seq<Waiter>, t: ThreadId, e: Waiter)
    ensures e in RemoveThread(reg, t) <==> e in reg && e != Thread(t)
    ensures multiset(RemoveThread(reg, t))[e] == if e == Thread(t) then 0 else multiset(reg)[e]
  {
    if reg != [] {
      RemoveThreadExact(reg[1..], t, e);
      assert reg == [reg[0]] + reg[1..];
      assert multiset(RemoveThread(reg, t))
          == multiset(if reg[0] == Thread(t) then [] else [reg[0]]) + multiset(RemoveThread(reg[1..], t));
    }
  }

  /** Deregistering and cancelling go entry by entry, so what stays keeps its order. */
  lemma {:induction false} RemovalsKeepOrder(a: seq<Waiter>, b: seq<Waiter>, t: ThreadId, mine: seq<WakerId>)
    ensures RemoveThread(a + b, t) == RemoveThread(a, t) + RemoveThread(b, t)
    ensures Release(a + b, mine) == Release(a, mine) + Release(b, mine)
  {
    if a == [] {
      assert a + b == b;
    } else {
      assert (a + b)[1..] == a[1..] + b;
      RemovalsKeepOrder(a[1..], b, t, mine);
    }
  }

  /**
   What cancelling does to a single entry: a thread's, or a waker's that is not the future's, stays
   as it is; else it loses one owner, and goes with the last unless it is persistent.
  */
  lemma ReleaseEntry(e: Waiter, mine: seq<WakerId>)
    ensures e.Thread? ==> Release([e], mine) == [e]
    ensures e.Waker? && e.waker !in mine ==> Release([e], mine) == [e]
    ensures e.Waker? && e.waker in mine && (e.persistent || e.owners != 1) ==>
              Release([e], mine) == [Waker(e.waker, e.persistent, e.owners - 1)]
    ensures e.Waker? && e.waker in mine && !e.persistent && e.owners == 1 ==> Release([e], mine) == []
  {
    assert [e][1..] == [];
  }

  lemma {:induction false} ReleaseWithoutWakers(reg: seq<Waiter>, mine: seq<WakerId>)
    requires forall e :: e in reg ==> e.Thread?
    ensures Release(reg, mine) == reg
  {
    if reg != [] {
      ReleaseWithoutWakers(reg[1..], mine);
    }
  }

  /** No waker section lengthens the registry by more than one entry. */
  lemma {:induction false} SectionLengths(reg: seq<Waiter>, w: WakerId, mine: seq<WakerId>, t: ThreadId)
    ensures |RegisterDirect(reg, w)| <= |reg| + 1
    ensures |RegisterFuture(reg, w)| <= |reg| + 1
    ensures |Release(reg, mine)| <= |reg|
    ensures |RemoveThread(reg, t)| <= |reg|
  {
    if reg != [] {
      SectionLengths(reg[1..], w, mine, t);
    }
  }
}
