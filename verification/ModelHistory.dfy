/** Answers as history. */
module ModelHistory {
  // An answer is a fact about the operations before it: which value its generation was completed
  // with, who still holds the generation, and who registered on it. Proved of the reference model,
  // and by conformance of the library.

  import opened Options
  import opened SlotMemory
  import opened Registry
  import opened Space
  import opened ModelSpec
  import opened Sequential
  import opened SequentialAbstraction
  import opened SequentialRefinement

  function After(m: Model, ops: seq<Op>): Model
    decreases |ops|
  {
    if ops == [] then m else After(ModelStep(m, ops[0]).0, ops[1..])
  }

  lemma {:induction false} AfterOneMore(m: Model, ops: seq<Op>, op: Op)
    ensures After(m, ops + [op]) == ModelStep(After(m, ops), op).0
    ensures ModelAnswers(m, ops + [op]) == ModelAnswers(m, ops) + [ModelStep(After(m, ops), op).1]
    decreases |ops|
  {
    if ops == [] {
      assert [op][1..] == [];
    } else {
      assert (ops + [op])[0] == ops[0] && (ops + [op])[1..] == ops[1..] + [op];
      AfterOneMore(ModelStep(m, ops[0]).0, ops[1..], op);
    }
  }

  /** A new model after `ops`. */
  function ModelAt(ops: seq<Op>): Model {
    After(EMPTY_MODEL, ops)
  }

  predicate IsLive(m: Model, key: Key, epoch: nat) {
    key in m.keys && m.keys[key].epoch == epoch
  }

  // ---- The outcome of an epoch -------------------------------------------------------------------------------

  /** The value of the first `Complete` of the key while the epoch was live. */
  function CompletedWith(ops: seq<Op>, key: Key, epoch: nat): Option<Outcome> {
    if ops == [] then None
    else
      var before, op := ops[..|ops| - 1], ops[|ops| - 1];
      if CompletedWith(before, key, epoch).Some? then CompletedWith(before, key, epoch)
      else if op.Complete? && op.key == key && IsLive(ModelAt(before), key, epoch) then Some(op.v)
      else None
  }

  predicate HandlePast(m: Model, id: nat) {
    id < |m.handles| && !m.handles[id].Dropped? ==> Past(m, (m.handles[id].key, m.handles[id].epoch))
  }

  /** Only epochs that were begun are spoken of. */
  ghost predicate WellFormed(m: Model) {
    EpochsOk(m) && forall id: nat :: HandlePast(m, id)
  }

  lemma PastStays(m: Model, op: Op, name: Name)
    requires EpochsOk(m) && Past(m, name)
    ensures Past(ModelStep(m, op).0, name)
  {
  }

  lemma StepKeepsForm(m: Model, op: Op)
    requires WellFormed(m)
    ensures WellFormed(ModelStep(m, op).0)
  {
    var m' := ModelStep(m, op).0;
    forall name | name in m'.retired ensures Past(m', name) {
      assert name in m.retired ==> Past(m, name);
    }
    forall id: nat ensures HandlePast(m', id) {
      assert HandlePast(m, id);
    }
    forall r | r in m'.registrations ensures Past(m', (r.key, r.epoch)) {
      assert r in m.registrations ==> Past(m, (r.key, r.epoch));
      assert op.RegisterWaker? ==> HandlePast(m, op.id);
    }
  }

  lemma OutcomeMoves(m: Model, op: Op, key: Key, epoch: nat)
    requires WellFormed(m)
    ensures OutcomeOf(ModelStep(m, op).0, key, epoch)
            == if OutcomeOf(m, key, epoch).Some? then OutcomeOf(m, key, epoch)
               else if op.Complete? && op.key == key && IsLive(m, key, epoch) then Some(op.v) else None
  {
    if (key, epoch) in m.retired { assert Past(m, (key, epoch)); }
  }

  lemma {:induction false} AlwaysWellFormed(ops: seq<Op>)
    ensures WellFormed(ModelAt(ops))
    decreases |ops|
  {
    if ops != [] {
      var before := ops[..|ops| - 1];
      assert ops == before + [ops[|ops| - 1]];
      AfterOneMore(EMPTY_MODEL, before, ops[|ops| - 1]);
      AlwaysWellFormed(before);
      StepKeepsForm(ModelAt(before), ops[|ops| - 1]);
    }
  }

  /** What an observation of an epoch sees is what the epoch was completed with, retired or not. */
  lemma {:induction false} OutcomeIsHistory(ops: seq<Op>, key: Key, epoch: nat)
    ensures OutcomeOf(ModelAt(ops), key, epoch) == CompletedWith(ops, key, epoch)
    decreases |ops|
  {
    if ops != [] {
      var before := ops[..|ops| - 1];
      assert ops == before + [ops[|ops| - 1]];
      AfterOneMore(EMPTY_MODEL, before, ops[|ops| - 1]);
      AlwaysWellFormed(before);
      OutcomeIsHistory(before, key, epoch);
      OutcomeMoves(ModelAt(before), ops[|ops| - 1], key, epoch);
    }
  }

  // ---- Who holds an epoch, and who is registered on it ------------------------------------------------------------

  /** Handle `id` is the only reference to its epoch: the subject is gone, and so is every other handle of it. */
  predicate LastHolder(m: Model, id: nat, key: Key, epoch: nat) {
    !IsLive(m, key, epoch) && forall g :: 0 <= g < |m.handles| && g != id ==> !IsOf(m.handles[g], key, epoch)
  }

  lemma {:induction false} NoHandles(handles: seq<ModelHandle>, key: Key, epoch: nat)
    ensures HandlesOf(handles, key, epoch) == 0
            <==> forall g :: 0 <= g < |handles| ==> !IsOf(handles[g], key, epoch)
  {
    if handles != [] {
      NoHandles(handles[1..], key, epoch);
      assert forall g :: 0 <= g < |handles| - 1 ==> handles[1..][g] == handles[g + 1];
      assert forall g :: 0 < g < |handles| ==> handles[g] == handles[1..][g - 1];
    }
  }

  /** The `j`-th operation registers `w` directly on the epoch, through an observation, while it is pending. */
  predicate RegistersAt(ops: seq<Op>, j: nat, key: Key, epoch: nat, w: WakerId) {
    && j < |ops| && ops[j].RegisterWaker? && ops[j].w == w
    && var m := ModelAt(ops[..j]);
    && ops[j].id < |m.handles| && m.handles[ops[j].id] == ObservationOf(key, epoch)
    && CompletedWith(ops[..j], key, epoch).None?
  }

  /** The `j`-th operation polls future `id` with `w`, while its epoch is pending. */
  predicate PollsAt(ops: seq<Op>, j: nat, id: nat, w: WakerId) {
    && j < |ops| && ops[j] == PollFuture(id, w)
    && var m := ModelAt(ops[..j]);
    && id < |m.handles| && m.handles[id].FutureOf?
    && CompletedWith(ops[..j], m.handles[id].key, m.handles[id].epoch).None?
  }

  lemma RegistersEarlier(before: seq<Op>, op: Op, key: Key, epoch: nat, w: WakerId)
    ensures forall j: nat :: j < |before| ==>
              (RegistersAt(before + [op], j, key, epoch, w) <==> RegistersAt(before, j, key, epoch, w))
    ensures forall j: nat, id: nat :: j < |before| ==>
              (PollsAt(before + [op], j, id, w) <==> PollsAt(before, j, id, w))
  {
    forall j: nat | j < |before| ensures (before + [op])[..j] == before[..j] && (before + [op])[j] == before[j] {}
  }

  /** The direct registrations of an epoch are those that were made on it while it was pending. */
  lemma {:induction false} RegistrationsAreHistory(ops: seq<Op>, key: Key, epoch: nat, w: WakerId)
    ensures Registered(key, epoch, w) in ModelAt(ops).registrations
            <==> exists j: nat :: RegistersAt(ops, j, key, epoch, w)
    decreases |ops|
  {
    if ops != [] {
      var before, op := ops[..|ops| - 1], ops[|ops| - 1];
      assert ops == before + [op];
      AfterOneMore(EMPTY_MODEL, before, op);
      RegistrationsAreHistory(before, key, epoch, w);
      RegistersEarlier(before, op, key, epoch, w);
      OutcomeIsHistory(before, key, epoch);
      RegistersLast(before, op, key, epoch, w);
    }
  }

  lemma RegistersLast(before: seq<Op>, op: Op, key: Key, epoch: nat, w: WakerId)
    requires OutcomeOf(ModelAt(before), key, epoch) == CompletedWith(before, key, epoch)
    ensures Registered(key, epoch, w) in ModelStep(ModelAt(before), op).0.registrations
            <==> Registered(key, epoch, w) in ModelAt(before).registrations
                 || RegistersAt(before + [op], |before|, key, epoch, w)
  {
    assert (before + [op])[..|before|] == before;
  }

  lemma PollsLast(before: seq<Op>, op: Op, id: nat, w: WakerId)
    requires forall key, epoch ::
               OutcomeOf(ModelAt(before), key, epoch) == CompletedWith(before, key, epoch)
    ensures var m := ModelAt(before); var m' := ModelStep(m, op).0;
            var polls := PollsAt(before + [op], |before|, id, w);
            && (polls ==> id < |m'.handles| && m'.handles[id].FutureOf? && w in m'.handles[id].wakers)
            && (id < |m.handles| ==> id < |m'.handles|)
            && (id < |m.handles| && !m.handles[id].ObservationOf? ==> !m'.handles[id].ObservationOf?)
            && (id < |m'.handles| && m'.handles[id].FutureOf? && w in m'.handles[id].wakers ==>
                  polls || (id < |m.handles| && m.handles[id].FutureOf? && w in m.handles[id].wakers))
            && (id < |m'.handles| && m'.handles[id].FutureOf? && w !in m'.handles[id].wakers ==>
                  id >= |m.handles| || m.handles[id].ObservationOf?
                  || (m.handles[id].FutureOf? && w !in m.handles[id].wakers))
  {
    assert (before + [op])[..|before|] == before;
  }

  /** The wakers of a live future are those that polled it while its epoch was pending. */
  lemma {:induction false} WakersAreHistory(ops: seq<Op>, id: nat, w: WakerId)
    ensures var m := ModelAt(ops);
            && ((exists j: nat :: PollsAt(ops, j, id, w)) ==> id < |m.handles| && !m.handles[id].ObservationOf?)
            && (id < |m.handles| && m.handles[id].FutureOf? ==>
                  (w in m.handles[id].wakers <==> exists j: nat :: PollsAt(ops, j, id, w)))
    decreases |ops|
  {
    if ops != [] {
      var before, op := ops[..|ops| - 1], ops[|ops| - 1];
      assert ops == before + [op];
      AfterOneMore(EMPTY_MODEL, before, op);
      WakersAreHistory(before, id, w);
      RegistersEarlier(before, op, 0, 0, w);
      forall key, epoch ensures OutcomeOf(ModelAt(before), key, epoch) == CompletedWith(before, key, epoch) {
        OutcomeIsHistory(before, key, epoch);
      }
      PollsLast(before, op, id, w);
    }
  }

  /** The `j`-th operation registers the key, and no later one retires it. */
  predicate RetainedSince(ops: seq<Op>, j: nat, key: Key) {
    j < |ops| && ops[j] == Register(key) && forall i: nat :: j < i < |ops| ==> ops[i] != RetireKey(key)
  }

  /** A key is live exactly since its last registration that no retirement followed. */
  lemma {:induction false} LiveIsHistory(ops: seq<Op>, key: Key)
    ensures key in ModelAt(ops).keys <==> exists j: nat :: RetainedSince(ops, j, key)
    decreases |ops|
  {
    if ops != [] {
      var before, op := ops[..|ops| - 1], ops[|ops| - 1];
      assert ops == before + [op];
      AfterOneMore(EMPTY_MODEL, before, op);
      LiveIsHistory(before, key);
      if op == Register(key) {
        assert RetainedSince(ops, |ops| - 1, key);
      } else if op == RetireKey(key) {
        assert forall j: nat :: j < |ops| ==> !RetainedSince(ops, j, key);
      } else {
        assert forall j: nat :: RetainedSince(ops, j, key) <==> RetainedSince(before, j, key);
      }
    }
  }

  // ---- The library's answers -------------------------------------------------------------------------------------

  /** What the library answers to `op` after `ops`. */
  function Answer(ops: seq<Op>, op: Op): Result {
    var answers := ClientAnswers(NEW_CLIENT, ops + [op]);
    if answers == [] then Skipped else answers[|answers| - 1]
  }

  lemma AnswerIsTheModels(ops: seq<Op>, op: Op)
    requires |ops| + 1 < 0xFFFF_FFFF_FFFF_FFFF
    ensures Answer(ops, op) == ModelStep(ModelAt(ops), op).1
  {
    ConformsToModel(ops + [op]);
    AfterOneMore(EMPTY_MODEL, ops, op);
  }

  /**
   What an observation says: `try_get` gives the value its generation was completed with, if it was;
   `register_waker` says whether it was; `into_outcome` gives it exactly to the last holder.
  */
  lemma ObservationsTellHistory(ops: seq<Op>, id: nat, w: WakerId, key: Key, epoch: nat)
    requires |ops| + 1 < 0xFFFF_FFFF_FFFF_FFFF
    requires id < |ModelAt(ops).handles| && ModelAt(ops).handles[id] == ObservationOf(key, epoch)
    ensures Answer(ops, TryGet(id)) == Value(CompletedWith(ops, key, epoch))
    ensures Answer(ops, RegisterWaker(id, w)) == Flag(CompletedWith(ops, key, epoch).Some?)
    ensures Answer(ops, IntoOutcome(id))
            == Value(if LastHolder(ModelAt(ops), id, key, epoch) then CompletedWith(ops, key, epoch) else None)
  {
    var m := ModelAt(ops);
    AnswerIsTheModels(ops, TryGet(id));
    AnswerIsTheModels(ops, RegisterWaker(id, w));
    AnswerIsTheModels(ops, IntoOutcome(id));
    OutcomeIsHistory(ops, key, epoch);
    NoHandles(m.handles[id := Dropped], key, epoch);
    forall g | 0 <= g < |m.handles| ensures m.handles[id := Dropped][g] == if g == id then Dropped else m.handles[g] {}
  }

  /** A poll is ready exactly if the generation was completed, with the value it was completed with. */
  lemma PollsTellHistory(ops: seq<Op>, id: nat, w: WakerId, key: Key, epoch: nat)
    requires |ops| + 1 < 0xFFFF_FFFF_FFFF_FFFF
    requires id < |ModelAt(ops).handles| && ModelAt(ops).handles[id].FutureOf?
    requires IsOf(ModelAt(ops).handles[id], key, epoch)
    ensures CompletedWith(ops, key, epoch).Some? ==>
              Answer(ops, PollFuture(id, w)) == Ready(CompletedWith(ops, key, epoch).value)
    ensures CompletedWith(ops, key, epoch).None? ==> Answer(ops, PollFuture(id, w)) == NotReady
  {
    AnswerIsTheModels(ops, PollFuture(id, w));
    OutcomeIsHistory(ops, key, epoch);
  }

  /** Registration is refused, and observation accepted, exactly while the key is retained. */
  lemma KeysTellHistory(ops: seq<Op>, key: Key)
    requires |ops| + 1 < 0xFFFF_FFFF_FFFF_FFFF
    ensures Answer(ops, Register(key)) == Rejected <==> exists j: nat :: RetainedSince(ops, j, key)
    ensures Answer(ops, ObserveKey(key)) == Accepted <==> exists j: nat :: RetainedSince(ops, j, key)
    ensures Answer(ops, Register(key)).Rejected? || Answer(ops, Register(key)).Accepted?
    ensures Answer(ops, ObserveKey(key)).Rejected? || Answer(ops, ObserveKey(key)).Accepted?
  {
    AnswerIsTheModels(ops, Register(key));
    AnswerIsTheModels(ops, ObserveKey(key));
    LiveIsHistory(ops, key);
  }

  /** Somebody is to be woken by `w`: a registration of the epoch, or a future of it that was not cancelled. */
  ghost predicate Awaited(ops: seq<Op>, key: Key, epoch: nat, w: WakerId) {
    || (exists j: nat :: RegistersAt(ops, j, key, epoch, w))
    || (exists id: nat, j: nat :: FutureAwaits(ops, id, j, key, epoch, w))
  }

  predicate FutureAwaits(ops: seq<Op>, id: nat, j: nat, key: Key, epoch: nat, w: WakerId) {
    && id < |ModelAt(ops).handles| && ModelAt(ops).handles[id].FutureOf?
    && IsOf(ModelAt(ops).handles[id], key, epoch) && PollsAt(ops, j, id, w)
  }

  lemma FutureWakersAreHistory(ops: seq<Op>, key: Key, epoch: nat, w: WakerId)
    ensures w in FutureWakers(ModelAt(ops).handles, key, epoch)
            <==> exists id: nat, j: nat :: FutureAwaits(ops, id, j, key, epoch, w)
  {
    var m := ModelAt(ops);
    if w in FutureWakers(m.handles, key, epoch) {
      var id: nat :| id < |m.handles| && m.handles[id].FutureOf? && IsOf(m.handles[id], key, epoch)
                     && w in m.handles[id].wakers;
      WakersAreHistory(ops, id, w);
      var j: nat :| PollsAt(ops, j, id, w);
      assert FutureAwaits(ops, id, j, key, epoch, w);
    }
    forall id: nat, j: nat | FutureAwaits(ops, id, j, key, epoch, w)
      ensures w in FutureWakers(m.handles, key, epoch)
    {
      WakersAreHistory(ops, id, w);
    }
  }

  /** A completion wakes, once each, exactly the wakers awaiting that very generation, in whatever way. */
  lemma CompletionsTellHistory(ops: seq<Op>, key: Key, epoch: nat, v: Outcome)
    requires |ops| + 1 < 0xFFFF_FFFF_FFFF_FFFF
    requires IsLive(ModelAt(ops), key, epoch) && CompletedWith(ops, key, epoch).None?
    ensures Answer(ops, Complete(key, v)).Woken?
    ensures forall w :: Answer(ops, Complete(key, v)).wakes[w] == if Awaited(ops, key, epoch, w) then 1 else 0
  {
    var m := ModelAt(ops);
    AnswerIsTheModels(ops, Complete(key, v));
    OutcomeIsHistory(ops, key, epoch);
    forall w ensures Answer(ops, Complete(key, v)).wakes[w] == if Awaited(ops, key, epoch, w) then 1 else 0 {
      FutureWakersAreHistory(ops, key, epoch, w);
      RegistrationsAreHistory(ops, key, epoch, w);
      DirectIsRegistered(m, key, epoch, w);
    }
  }

  lemma DirectIsRegistered(m: Model, key: Key, epoch: nat, w: WakerId)
    ensures w in DirectWakers(m.registrations, key, epoch) <==> Registered(key, epoch, w) in m.registrations
  {
    if Registered(key, epoch, w) in m.registrations {
      var r := Registered(key, epoch, w);
      assert r in m.registrations && r.key == key && r.epoch == epoch;
    }
  }
}
