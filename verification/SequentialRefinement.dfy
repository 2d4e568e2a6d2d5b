/** The library conforms to the reference model. */
module SequentialRefinement {
  // Every answer of the library, used by one thread, is the answer of the reference model.

  import opened Space
  import opened Lifecycle
  import opened LifecycleHistory
  import opened ModelSpec
  import opened Sequential
  import opened SequentialAbstraction
  import opened SequentialRuns
  import opened SequentialSlots
  import opened SequentialHandles
  import opened SequentialGains
  import opened SequentialCompletion

  // ---- Every sequence of operations ---------------------------------------------------------------------------------

  lemma HandleKinds(x: Client, m: Model, id: nat)
    requires Refines(x, m)
    ensures Observes(x, id) <==> id < |m.handles| && m.handles[id].ObservationOf?
    ensures Awaits(x, id) <==> id < |m.handles| && m.handles[id].FutureOf?
  {
    var names :| RefinesAs(x, m, names);
    if id < |x.ids| {
      assert HandleMatches(x.life, names, x.ids[id], m.handles[id]);
    }
  }

  lemma TryGetAnswers(x: Client, m: Model, id: nat)
    requires Refines(x, m)
    ensures ClientStep(x, TryGet(id)) == (x, ModelStep(m, TryGet(id)).1)
  {
    var names :| RefinesAs(x, m, names);
    HandleKinds(x, m, id);
    if Observes(x, id) {
      var h := x.ids[id];
      assert HandleMatches(x.life, names, h, m.handles[id]);
      LiveSlot(x.life, m, names, h);
      assert OutcomeMatches(x.life, m, names, x.life.handles[h].inc);
    }
  }

  predicate OnKey(op: Op) {
    op.Register? || op.Complete? || op.ObserveKey? || op.RetireKey?
  }

  lemma KeyOpRefines(x: Client, m: Model, op: Op)
    requires Refines(x, m) && x.life.space.nextGeneration < LAST_GENERATION && OnKey(op)
    ensures ClientStep(x, op).1 == ModelStep(m, op).1
    ensures Refines(ClientStep(x, op).0, ModelStep(m, op).0)
  {
    if op.Register? {
      RegisterRefines(x, m, op.key);
    } else if op.Complete? {
      CompleteRefines(x, m, op.key, op.v);
    } else if op.ObserveKey? {
      ObserveRefines(x, m, op.key);
    } else {
      RetireRefines(x, m, op.key);
    }
  }

  lemma ObservationOpRefines(x: Client, m: Model, op: Op)
    requires Refines(x, m) && !OnKey(op) && Observes(x, op.id) && !op.PollFuture? && !op.CancelFuture?
    ensures ClientStep(x, op).1 == ModelStep(m, op).1
    ensures Refines(ClientStep(x, op).0, ModelStep(m, op).0)
  {
    HandleKinds(x, m, op.id);
    if op.TryGet? {
      TryGetAnswers(x, m, op.id);
    } else if op.RegisterWaker? {
      RegisterWakerRefines(x, m, op.id, op.w);
    } else if op.IntoOutcome? {
      IntoOutcomeRefines(x, m, op.id);
    } else if op.DropObservation? {
      DropRefines(x, m, op.id);
    } else {
      NewFutureRefines(x, m, op.id);
    }
  }

  lemma HandleOpRefines(x: Client, m: Model, op: Op)
    requires Refines(x, m) && !OnKey(op)
    ensures ClientStep(x, op).1 == ModelStep(m, op).1
    ensures Refines(ClientStep(x, op).0, ModelStep(m, op).0)
  {
    HandleKinds(x, m, op.id);
    if op.PollFuture? && Awaits(x, op.id) {
      PollRefines(x, m, op.id, op.w);
    } else if op.CancelFuture? && Awaits(x, op.id) {
      CancelRefines(x, m, op.id);
    } else if Observes(x, op.id) && !op.PollFuture? && !op.CancelFuture? {
      ObservationOpRefines(x, m, op);
    }
  }

  /** One operation: the answers agree, and so do the states afterwards. */
  lemma StepRefines(x: Client, m: Model, op: Op)
    requires Refines(x, m) && x.life.space.nextGeneration < LAST_GENERATION
    ensures ClientStep(x, op).1 == ModelStep(m, op).1
    ensures Refines(ClientStep(x, op).0, ModelStep(m, op).0)
  {
    if OnKey(op) {
      KeyOpRefines(x, m, op);
    } else {
      HandleOpRefines(x, m, op);
    }
  }

  /** An operation uses at most one generation. */
  lemma StepGenerations(x: Client, op: Op)
    ensures ClientStep(x, op).0.life.space.nextGeneration <= x.life.space.nextGeneration + 1
  {
  }

  lemma {:induction false} AnswersFrom(x: Client, m: Model, ops: seq<Op>)
    requires Refines(x, m) && x.life.space.nextGeneration + |ops| <= LAST_GENERATION
    ensures ClientAnswers(x, ops) == ModelAnswers(m, ops)
    decreases |ops|
  {
    if ops != [] {
      StepRefines(x, m, ops[0]);
      StepGenerations(x, ops[0]);
      AnswersFrom(ClientStep(x, ops[0]).0, ModelStep(m, ops[0]).0, ops[1..]);
    }
  }

  /**
   Conformance to the reference model: for every sequence of operations that does not exhaust the
   generations, the library gives the answers of the model, one for one: conflicts, observations,
   outcomes, completion flags, the wakers fired, and what `into_outcome` moves out.
  */
  lemma ConformsToModel(ops: seq<Op>)
    requires |ops| < 0xFFFF_FFFF_FFFF_FFFF
    ensures ClientAnswers(NEW_CLIENT, ops) == ModelAnswers(EMPTY_MODEL, ops)
  {
    InitialInv();
    OneThreadIsARun([]);
    forall k: Key ensures KeyMatches(INITIAL, EMPTY_MODEL, [], k) {}
    forall n: nat ensures OutcomeMatches(INITIAL, EMPTY_MODEL, [], n) {}
    forall h: nat ensures Accounted(INITIAL, [], h) {}
    assert RefinesAs(NEW_CLIENT, EMPTY_MODEL, []);
    AnswersFrom(NEW_CLIENT, EMPTY_MODEL, ops);
  }
}
