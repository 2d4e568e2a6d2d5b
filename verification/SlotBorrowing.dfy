/**
 When a slot is clean enough to be recycled.

 A protocol step is made through a handle; a slot without handles is at rest, and recycling it
 leaves a fresh slot.
*/
module SlotBorrowing {
  import opened Options
  import opened SlotMemory
  import opened SlotProtocol
  import opened SlotInvariant

  /** An operation that runs after a step either ran before it through the same handle, or was started by it. */
  predicate KeepsBorrows(p: State, p': State, step: Step) {
    && |p.threads| <= |p'.threads| && |p.calls| <= |p'.calls| && |p.futures| <= |p'.futures|
    && (forall t :: 0 <= t < |p'.threads| && ThreadBusy(p'.threads[t].pc) ==>
          || (step.StartWait? && step.t == t && p'.threads[t].via == step.via)
          || (t < |p.threads| && ThreadBusy(p.threads[t].pc) && p'.threads[t].via == p.threads[t].via))
    && (forall c :: 0 <= c < |p'.calls| && !p'.calls[c].pc.RegReturned? ==>
          || (step.StartCall? && c == |p.calls| && p'.calls[c].via == step.via)
          || (c < |p.calls| && !p.calls[c].pc.RegReturned? && p'.calls[c].via == p.calls[c].via))
    && (forall f :: 0 <= f < |p'.futures| ==>
          if f < |p.futures| then
            && p'.futures[f].via == p.futures[f].via
            && (p.futures[f].pc.FutDropped? ==> p'.futures[f].pc.FutDropped?)
          else step.NewFuture? && f == |p.futures| && p'.futures[f].via == step.via)
    && (step.NewFuture? ==> |p'.futures| == |p.futures| + 1)
    && (CompleterBusy(p'.completer) ==> CompleterBusy(p.completer) || step.StartComplete?)
  }

  /** Only the start of a completion touches the cell or leaves the pending state. */
  predicate KeepsOutcome(p: State, p': State, step: Step) {
    if step.StartComplete? then
      p.mem.cell.None? && p'.mem.cell == Some(step.v) && p.completer.Pending? && !p'.completer.Pending?
    else p'.mem.cell == p.mem.cell && (p'.completer.Pending? <==> p.completer.Pending?)
  }

  lemma CompleterFrame(p: State, panics: bool)
    requires CompleterBusy(p.completer)
    ensures KeepsBorrows(p, Tick(p, CompleterStep(p, panics)), RunCompleter(panics))
    ensures KeepsOutcome(p, Tick(p, CompleterStep(p, panics)), RunCompleter(panics))
  {
  }

  lemma ThreadBorrows(p: State, t: nat)
    requires CanRunThread(p, t)
    ensures KeepsBorrows(p, Tick(p, ThreadStep(p, t)), RunThread(t))
  {
    var p' := Tick(p, ThreadStep(p, t));
    ThreadFrame(p, t);
    forall x | 0 <= x < |p'.threads| && ThreadBusy(p'.threads[x].pc)
      ensures ThreadBusy(p.threads[x].pc) && p'.threads[x].via == p.threads[x].via
    {
      if x != t {
        ThreadStepOthers(p, t, x);
      }
    }
  }

  lemma CallBorrows(p: State, c: nat)
    requires CellInv(p) && CanCall(p, c) && CallOk(p, c)
    ensures KeepsBorrows(p, Tick(p, CallStep(p, c)), RunCall(c))
    ensures KeepsOutcome(p, Tick(p, CallStep(p, c)), RunCall(c))
  {
    CallFrame(p, c);
    CallStable(p, c);
  }

  lemma FutureBorrows(p: State, f: nat)
    requires CellInv(p) && CanRunFuture(p, f)
    ensures KeepsBorrows(p, Tick(p, FutureStep(p, f)), RunFuture(f))
    ensures KeepsOutcome(p, Tick(p, FutureStep(p, f)), RunFuture(f))
  {
    FutureFrame(p, f);
    FutureStable(p, f);
  }

  lemma OuterBorrows(p: State, step: Step)
    requires CellInv(p) && Enabled(p, step)
    requires !step.RunThread? && !step.RunCall? && !step.RunFuture? && !step.RunCompleter?
    ensures KeepsBorrows(p, Apply(p, step), step)
    ensures KeepsOutcome(p, Apply(p, step), step)
  {
  }

  lemma StepKeepsBorrows(p: State, step: Step)
    requires Inv(p) && Enabled(p, step)
    ensures KeepsBorrows(p, Apply(p, step), step)
    ensures KeepsOutcome(p, Apply(p, step), step)
  {
    if step.RunThread? {
      ThreadFrame(p, step.t);
      ThreadStepSound(p, step.t);
      ThreadBorrows(p, step.t);
    } else if step.RunCall? {
      assert CallOk(p, step.c);
      CallBorrows(p, step.c);
    } else if step.RunFuture? {
      FutureBorrows(p, step.f);
    } else if step.RunCompleter? {
      CompleterFrame(p, step.panics);
    } else {
      OuterBorrows(p, step);
    }
  }

  /** No operation is running and every future is gone. */
  predicate Quiescent(p: State) {
    && (forall t :: 0 <= t < |p.threads| ==> !ThreadBusy(p.threads[t].pc))
    && (forall c :: 0 <= c < |p.calls| ==> p.calls[c].pc.RegReturned?)
    && (forall f :: 0 <= f < |p.futures| ==> p.futures[f].pc.FutDropped?)
    && !CompleterBusy(p.completer)
  }

  /**
   Clean reuse: `reset` on a quiescent slot leaves a fresh slot, but for a registry box that may
   already exist; it destroys the outcome if there is one and forgets every stale registration.
  */
  lemma ResetIsFresh(p: State)
    requires Inv(p) && Quiescent(p)
    ensures ResetMem(p.mem) == FreshMem().(boxed := p.mem.boxed)
    ensures Destroyed(p.mem) == Live(p.mem.cell)
    ensures p.lock.None?
    ensures Inv(Fresh(ResetMem(p.mem), p.tokens))
  {
    if p.lock.Some? {
      assert Holds(p, p.lock.value);
    }
    FreshInv(ResetMem(p.mem), p.tokens);
  }

  /** The final drop of a quiescent slot destroys the outcome if there is one, reclaims the registry, and leaves
      nothing live. */
  lemma DropIsClean(p: State)
    requires Inv(p) && Quiescent(p)
    ensures DropMem(p.mem).cell.None? && !DropMem(p.mem).boxed && DropMem(p.mem).registry == []
    ensures Destroyed(p.mem) == Live(p.mem.cell)
  {
  }
}
