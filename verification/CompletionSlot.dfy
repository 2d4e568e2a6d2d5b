/** One completion slot as an object: its state word, its outcome cell and its lazily created registry. */
module CompletionSlots {
  import opened Options
  import opened Registry
  import opened SlotMemory
  import opened WaiterLists

  const COMPLETED: bv64 := 1
  const HAS_WAITER: bv64 := 2
  const OUTCOME_VALID: bv64 := 4

  function WordOf(state: bv64): Word {
    Word(state & COMPLETED != 0, state & HAS_WAITER != 0, state & OUTCOME_VALID != 0)
  }

  class Slot {
    var state: bv64
    var cell: Option<Outcome>
    var waiters: WaiterList?

    ghost function Mem(): SlotMem
      reads this, waiters
    {
      SlotMem(WordOf(state), cell, waiters != null, if waiters == null then [] else waiters.entries)
    }

    constructor ()
      ensures Mem() == FreshMem()
    {
      state, cell, waiters := 0, None, null;
    }

    /** The registry, created on first use. */
    method Waiters() returns (list: WaiterList)
      modifies this`waiters
      ensures list == waiters && (old(waiters) == null ==> fresh(list))
              && (old(waiters) != null ==> list == old(waiters))
      ensures Mem() == old(Mem()).(boxed := true)
    {
      if waiters == null {
        waiters := new WaiterList();
      }
      list := waiters;
    }

    /** `complete`: write, publish, and drain if the word says that somebody registered. */
    method Complete(v: Outcome, faulty: set<nat>) returns (notified: seq<Notification>, panic: Option<nat>)
      requires state & COMPLETED == 0
      modifies this, waiters
      ensures Mem() == CompletedMem(old(Mem()), v)
      ensures var taken := if old(Mem()).word.hasWaiter then old(Mem()).registry else [];
              && |notified| == |taken|
              && (forall k :: 0 <= k < |taken| && taken[k].Thread? ==> notified[k] == Unparked(taken[k].thread))
              && (forall k :: 0 <= k < |taken| && taken[k].Waker? ==> notified[k] == Woken(taken[k].waker))
              && (panic.None? <==> forall k: nat :: k < |taken| && k in faulty ==> taken[k].Thread?)
              && (panic.Some? ==>
                    && panic.value < |taken| && taken[panic.value].Waker? && panic.value in faulty
                    && forall k: nat :: k < panic.value && k in faulty ==> taken[k].Thread?)
    {
      cell := Some(v);
      var previous := state;
      state := state | COMPLETED | OUTCOME_VALID;
      notified, panic := [], None;
      if previous & HAS_WAITER != 0 {
        var list := Waiters();
        var taken := list.Take();
        notified, panic := Drain(taken, faulty);
      }
    }

    /** `register_waker` by itself: nothing if the outcome is there, else one persistent entry for `w`. */
    method RegisterWaker(w: WakerId) returns (done: bool)
      modifies this, waiters
      ensures done == old(Mem()).word.completed
      ensures Mem() == if done then old(Mem()) else RegisteredMem(old(Mem()), w)
    {
      if state & COMPLETED != 0 {
        return true;
      }
      state := state | HAS_WAITER;
      var list := Waiters();
      if state & COMPLETED != 0 {
        return true;
      }
      list.RegisterWaker(w);
      done := false;
    }

    /** `reset`: what it destroys, and a pristine word. */
    method Reset() returns (destroyed: multiset<Outcome>)
      modifies this, waiters
      ensures Mem() == ResetMem(old(Mem())) && destroyed == Destroyed(old(Mem())) && waiters == old(waiters)
    {
      var before := state;
      destroyed := multiset{};
      if before & OUTCOME_VALID != 0 {
        destroyed := Live(cell);
        cell := None;
      }
      if before & HAS_WAITER != 0 && waiters != null {
        waiters.Clear();
      }
      state := 0;
    }

    /** The slot's final drop. */
    method Finalize() returns (destroyed: multiset<Outcome>)
      modifies this
      ensures Mem() == DropMem(old(Mem())) && destroyed == Destroyed(old(Mem()))
    {
      destroyed := multiset{};
      if state & OUTCOME_VALID != 0 {
        destroyed := Live(cell);
        cell := None;
      }
      waiters := null;
    }

    /** `into_outcome`, once the slot is owned alone: the value leaves, and the word says so. */
    method MoveOutcome() returns (out: Option<Outcome>)
      modifies this
      ensures Mem() == MoveOut(old(Mem()))
      ensures out == if old(Mem()).word.completed then old(Mem()).cell else None
    {
      out := None;
      if state & COMPLETED != 0 {
        out := cell;
        cell := None;
        state := state & !OUTCOME_VALID;
      }
    }
  }
}
