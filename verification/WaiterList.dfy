/** The waiter vector as the library updates it, in place. */
module WaiterLists {
  // Each section is proved to be the function that the slot protocol takes as its step.

  import opened Options
  import opened Registry

  /** What the drain does for one waiter. */
  datatype Notification = Unparked(thread: ThreadId) | Woken(waker: WakerId)

  lemma ReleaseContinues(entries: seq<Waiter>, k: nat, mine: seq<WakerId>, before: seq<Waiter>, kept: seq<Waiter>)
    requires k < |entries| && kept == before + ReleaseOne(entries[k], mine)
    ensures before + Release(entries[k..], mine) == kept + Release(entries[k + 1..], mine)
  {
    assert entries[k..][1..] == entries[k + 1..];
  }

  lemma RemovalContinues(entries: seq<Waiter>, k: nat, t: ThreadId, before: seq<Waiter>, kept: seq<Waiter>)
    requires k < |entries| && kept == before + if entries[k] == Thread(t) then [] else [entries[k]]
    ensures before + RemoveThread(entries[k..], t) == kept + RemoveThread(entries[k + 1..], t)
  {
    assert entries[k..][1..] == entries[k + 1..];
  }

  class WaiterList {
    var entries: seq<Waiter>

    constructor ()
      ensures entries == []
    {
      entries := [];
    }

    /** The part of `register_waker` inside the lock. */
    method RegisterWaker(w: WakerId)
      modifies this
      ensures entries == RegisterDirect(old(entries), w)
    {
      var k := 0;
      while k < |entries|
        invariant 0 <= k <= |entries| && entries == old(entries)
        invariant forall j :: 0 <= j < k ==> !IsWaker(entries[j], w)
      {
        if IsWaker(entries[k], w) {
          RegistrationsFind(entries, k, w);
          entries := entries[k := entries[k].(persistent := true)];
          return;
        }
        k := k + 1;
      }
      RegistrationsAppend(entries, w);
      entries := entries + [Waker(w, true, 0)];
    }

    /** The part of `register_future_waker` inside the lock. */
    method RegisterFutureWaker(w: WakerId)
      modifies this
      ensures entries == RegisterFuture(old(entries), w)
    {
      var k := 0;
      while k < |entries|
        invariant 0 <= k <= |entries| && entries == old(entries)
        invariant forall j :: 0 <= j < k ==> !IsWaker(entries[j], w)
      {
        if IsWaker(entries[k], w) {
          RegistrationsFind(entries, k, w);
          entries := entries[k := entries[k].(owners := entries[k].owners + 1)];
          return;
        }
        k := k + 1;
      }
      RegistrationsAppend(entries, w);
      entries := entries + [Waker(w, false, 1)];
    }

    /** `wait`: one entry for the thread, unless it is the last one already. */
    method Push(t: ThreadId)
      modifies this
      ensures entries == PushThread(old(entries), t)
    {
      if |entries| == 0 || entries[|entries| - 1] != Thread(t) {
        entries := entries + [Thread(t)];
      }
    }

    /** `retain` every entry but those of one thread. */
    method Deregister(t: ThreadId)
      modifies this
      ensures entries == RemoveThread(old(entries), t)
    {
      var kept: seq<Waiter> := [];
      var k := 0;
      while k < |entries|
        invariant 0 <= k <= |entries| && entries == old(entries)
        invariant RemoveThread(entries, t) == kept + RemoveThread(entries[k..], t)
      {
        ghost var before := kept;
        if entries[k] != Thread(t) {
          kept := kept + [entries[k]];
        }
        RemovalContinues(entries, k, t, before, kept);
        k := k + 1;
      }
      entries := kept;
    }

    /** `ObservationFuture::drop`: give up one owner of each waker in `mine`, and the entries nobody holds. */
    method Cancel(mine: seq<WakerId>)
      modifies this
      ensures entries == Release(old(entries), mine)
    {
      var kept: seq<Waiter> := [];
      var k := 0;
      while k < |entries|
        invariant 0 <= k <= |entries| && entries == old(entries)
        invariant Release(entries, mine) == kept + Release(entries[k..], mine)
      {
        var e := entries[k];
        ghost var before := kept;
        if e.Waker? && e.waker in mine {
          e := e.(owners := e.owners - 1);
          if e.persistent || e.owners != 0 {
            kept := kept + [e];
          }
        } else {
          kept := kept + [e];
        }
        assert kept == before + ReleaseOne(entries[k], mine);
        ReleaseContinues(entries, k, mine, before, kept);
        k := k + 1;
      }
      entries := kept;
    }

    /** `mem::take` inside the lock of the drain. */
    method Take() returns (taken: seq<Waiter>)
      modifies this
      ensures taken == old(entries) && entries == []
    {
      taken := entries;
      entries := [];
    }

    method Clear()
      modifies this
      ensures entries == []
    {
      entries := [];
    }
  }

  /**
   The drain loop over the taken waiters; the wakes of the wakers at the positions `faulty` panic.
   Every waiter is notified once, in registration order, whatever panics; the panic that goes on is
   the first, if any.
  */
  method Drain(taken: seq<Waiter>, faulty: set<nat>) returns (notified: seq<Notification>, panic: Option<nat>)
    ensures |notified| == |taken|
    ensures forall k :: 0 <= k < |taken| && taken[k].Thread? ==> notified[k] == Unparked(taken[k].thread)
    ensures forall k :: 0 <= k < |taken| && taken[k].Waker? ==> notified[k] == Woken(taken[k].waker)
    ensures panic.None? <==> forall k: nat :: k < |taken| && k in faulty ==> taken[k].Thread?
    ensures panic.Some? ==> panic.value < |taken| && taken[panic.value].Waker? && panic.value in faulty
    ensures panic.Some? ==> forall k: nat :: k < panic.value && k in faulty ==> taken[k].Thread?
  {
    notified := [];
    var panics: seq<nat> := [];
    var k := 0;
    while k < |taken|
      invariant 0 <= k <= |taken|
      invariant |notified| == k
      invariant forall j :: 0 <= j < k && taken[j].Thread? ==> notified[j] == Unparked(taken[j].thread)
      invariant forall j :: 0 <= j < k && taken[j].Waker? ==> notified[j] == Woken(taken[j].waker)
      invariant panics == [] ==> forall j: nat :: j < k && j in faulty ==> taken[j].Thread?
      invariant panics != [] ==> panics[0] < k && taken[panics[0]].Waker? && panics[0] in faulty
      invariant panics != [] ==> forall j: nat :: j < panics[0] && j in faulty ==> taken[j].Thread?
    {
      match taken[k] {
        case Thread(t) =>
          notified := notified + [Unparked(t)];
        case Waker(w, _, _) =>
          notified := notified + [Woken(w)];
          if k in faulty {
            panics := panics + [k];
          }
      }
      k := k + 1;
    }
    panic := if |panics| > 0 then Some(panics[0]) else None;
  }

  /** The wakers among the notifications, in order. */
  function WokenBy(notified: seq<Notification>): seq<WakerId> {
    if notified == [] then []
    else (if notified[0].Woken? then [notified[0].waker] else []) + WokenBy(notified[1..])
  }

  /** The threads among the notifications. */
  function UnparkedBy(notified: seq<Notification>): set<ThreadId> {
    set n | n in notified && n.Unparked? :: n.thread
  }

  /** What the drain loop wakes is what the slot protocol's drain fires, step by step. */
  lemma {:induction false} DrainFiresTheWakers(taken: seq<Waiter>, notified: seq<Notification>)
    requires |notified| == |taken|
    requires forall k :: 0 <= k < |taken| && taken[k].Thread? ==> notified[k] == Unparked(taken[k].thread)
    requires forall k :: 0 <= k < |taken| && taken[k].Waker? ==> notified[k] == Woken(taken[k].waker)
    ensures WokenBy(notified) == Wakers(taken)
  {
    if taken != [] {
      assert forall k :: 0 <= k < |taken| - 1 ==> notified[1..][k] == notified[k + 1] && taken[1..][k] == taken[k + 1];
      DrainFiresTheWakers(taken[1..], notified[1..]);
    }
  }

  /** ... and the threads that it unparks are those that the registry listed. */
  lemma DrainUnparksTheThreads(taken: seq<Waiter>, notified: seq<Notification>)
    requires |notified| == |taken|
    requires forall k :: 0 <= k < |taken| && taken[k].Thread? ==> notified[k] == Unparked(taken[k].thread)
    requires forall k :: 0 <= k < |taken| && taken[k].Waker? ==> notified[k] == Woken(taken[k].waker)
    ensures forall t :: t in UnparkedBy(notified) <==> Thread(t) in taken
  {
    forall t | Thread(t) in taken ensures t in UnparkedBy(notified) {
      var k :| 0 <= k < |taken| && taken[k] == Thread(t);
      assert notified[k] in notified && notified[k] == Unparked(t);
    }
    forall t | t in UnparkedBy(notified) ensures Thread(t) in taken {
      var k :| 0 <= k < |notified| && notified[k] == Unparked(t);
      assert taken[k] in taken;
    }
  }
}
