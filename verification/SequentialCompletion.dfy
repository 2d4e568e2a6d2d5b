/**
 Completion, sequentially.

 The outcome is recorded and exactly the wakers that the model expects fire.
*/
module SequentialCompletion {
  import opened Options
  import opened SlotMemory
  import opened Registry
  import opened Space
  import opened Lifecycle
  import opened LifecycleInvariant
  import opened LifecycleHistory
  import opened SlotAlone
  import opened ModelSpec
  import opened Sequential
  import opened SequentialAbstraction
  import opened SequentialRuns
  import P = SlotProtocol
  import SlotTheorems
  import SlotInvariant

  // ---- complete --------------------------------------------------------------------------------------------------

  /** On a pending slot at rest, a future owns what it recorded. */
  lemma RestingOwns(p: P.State, f: nat, w: WakerId)
    requires P.Inv(p) && Resting(p) && !p.mem.word.completed && f < |p.futures|
    ensures P.Owns(p.futures[f], w) <==> w in p.futures[f].wakers
    ensures w in p.futures[f].wakers ==> !p.futures[f].pc.FutDropped?
  {
    assert P.FutureOk(p, f);
  }

  /** A waker owed through a future is recorded by a future of the model, of the same epoch. */
  lemma OwedByModel(x: Client, m: Model, names: seq<Name>, h: nat, i: SlotId, name: Name, w: WakerId)
    requires RefinesAs(x, m, names) && h < |x.life.handles| && Current(x.life.handles[h]) && x.life.handles[h].slot == i
    requires name == NameOf(names, x.life.handles[h].inc) && !x.life.protos[i].mem.word.completed
    requires P.OwnerCount(x.life.protos[i].futures, w) > 0
    ensures w in FutureWakers(m.handles, name.0, name.1)
  {
    ReachableInv(x.life);
    var s := x.life;
    var p := s.protos[i];
    LiveSlot(s, m, names, h);
    var f := SlotInvariant.CountedIsOwned(p.futures, w);
    RestingOwns(p, f, w);
    assert Borrowed(s, i);
    var g := p.futures[f].via;
    assert Accounted(s, x.ids, g);
    var id :| 0 <= id < |x.ids| && x.ids[id] == g;
    assert HandleMatches(s, names, x.ids[id], m.handles[id]);
    SameSlot(s, m, names, g, h);
    assert IsOf(m.handles[id], name.0, name.1);
  }

  /** A waker recorded by a future of the model is owed a wake. */
  lemma OwedToModel(x: Client, m: Model, names: seq<Name>, h: nat, i: SlotId, name: Name, w: WakerId)
    requires RefinesAs(x, m, names) && h < |x.life.handles| && Current(x.life.handles[h]) && x.life.handles[h].slot == i
    requires name == NameOf(names, x.life.handles[h].inc)
    requires w in FutureWakers(m.handles, name.0, name.1)
    ensures P.OwnerCount(x.life.protos[i].futures, w) > 0
  {
    ReachableInv(x.life);
    var s := x.life;
    var id :| 0 <= id < |m.handles| && m.handles[id].FutureOf? && IsOf(m.handles[id], name.0, name.1)
        && w in m.handles[id].wakers;
    assert HandleMatches(s, names, x.ids[id], m.handles[id]);
    var f := s.handles[x.ids[id]].id;
    SameSlot(s, m, names, x.ids[id], h);
    assert P.Owns(s.protos[i].futures[f], w);
    SlotInvariant.OwnedMeansCounted(s.protos[i].futures, f, w);
  }

  /** The library owes a wake to exactly the wakers that the model expects to be woken. */
  lemma OwedAreExpected(x: Client, m: Model, names: seq<Name>, h: nat, i: SlotId, name: Name, w: WakerId)
    requires RefinesAs(x, m, names) && h < |x.life.handles| && Current(x.life.handles[h]) && x.life.handles[h].slot == i
    requires name == NameOf(names, x.life.handles[h].inc) && !x.life.protos[i].mem.word.completed
    ensures SlotTheorems.Owed(x.life.protos[i], w)
            <==> w in FutureWakers(m.handles, name.0, name.1) + DirectWakers(m.registrations, name.0, name.1)
  {
    var p := x.life.protos[i];
    LiveSlot(x.life, m, names, h);
    assert DirectMatches(p, m, name, w);
    assert w in DirectWakers(m.registrations, name.0, name.1) <==> w in p.directs;
    if P.OwnerCount(p.futures, w) > 0 { OwedByModel(x, m, names, h, i, name, w); }
    if w in FutureWakers(m.handles, name.0, name.1) { OwedToModel(x, m, names, h, i, name, w); }
  }

  lemma WakesAreExpected(x: Client, m: Model, names: seq<Name>, h: nat, i: SlotId, name: Name, fired: seq<WakerId>)
    requires RefinesAs(x, m, names) && h < |x.life.handles| && Current(x.life.handles[h]) && x.life.handles[h].slot == i
    requires name == NameOf(names, x.life.handles[h].inc) && !x.life.protos[i].mem.word.completed
    requires forall w :: multiset(fired)[w] == if SlotTheorems.Owed(x.life.protos[i], w) then 1 else 0
    ensures multiset(fired) == ExpectedWakes(m, name.0, name.1)
  {
    forall w ensures multiset(fired)[w] == ExpectedWakes(m, name.0, name.1)[w] {
      OwedAreExpected(x, m, names, h, i, name, w);
    }
  }

  /** Subject `h` completed slot `i` with `v`: the books, and the slot's new state. */
  function Completed(s: State, h: nat, i: SlotId, inc: nat, v: Outcome, q: P.State): State
    requires h < |s.handles| && s.handles[h].Subject? && i < |s.protos|
  {
    s.(protos := s.protos[i := q],
       handles := s.handles[h := s.handles[h].(completed := true)],
       published := s.published[inc := v],
       passed := s.passed + multiset{v})
  }

  lemma CompleteStarts(s: State, h: nat, i: SlotId, p: P.State, v: Outcome)
    requires Shape(s) && h < |s.handles| && s.handles[h].Subject? && !s.handles[h].completed
    requires i == s.handles[h].slot && p == s.protos[i] && p.completer.Pending?
    ensures Do(s, SlotStep(h, P.StartComplete(v)))
            == Completed(s, h, i, s.handles[h].inc, v, P.Apply(p, P.StartComplete(v)))
    ensures Enabled(s, SlotStep(h, P.StartComplete(v)))
  {
  }

  lemma CompletedTwice(s: State, h: nat, i: SlotId, inc: nat, v: Outcome, p: P.State, q: P.State)
    requires h < |s.handles| && s.handles[h].Subject? && i < |s.protos|
    ensures Stepped(Completed(s, h, i, inc, v, p), i, q) == Completed(s, h, i, inc, v, q)
  {
  }

  /** `complete` through the machine is `complete` on the slot alone, with the books kept. */
  lemma CompletionIsAlone(s: State, h: nat, i: SlotId, p: P.State, v: Outcome, n: nat) returns (s': State, q: P.State)
    requires Shape(s) && h < |s.handles| && s.handles[h].Subject? && !s.handles[h].completed
    requires i == s.handles[h].slot && p == s.protos[i] && p.completer.Pending?
    ensures q == Alone(P.Apply(p, P.StartComplete(v)), P.RunCompleter(false), n)
    ensures s' == Finish(Do(s, SlotStep(h, P.StartComplete(v))), h, P.RunCompleter(false), n)
    ensures s' == Completed(s, h, i, s.handles[h].inc, v, q)
  {
    var p1 := P.Apply(p, P.StartComplete(v));
    var s1 := Completed(s, h, i, s.handles[h].inc, v, p1);
    q := Alone(p1, P.RunCompleter(false), n);
    s' := Completed(s, h, i, s.handles[h].inc, v, q);
    CompleteStarts(s, h, i, p, v);
    FinishIsAlone(s1, h, i, p1, P.RunCompleter(false), n);
    CompletedTwice(s, h, i, s.handles[h].inc, v, p1, q);
  }

  /** `complete` by the only thread runs to its end. */
  lemma CompleteRuns(s: State, h: nat, i: SlotId, p: P.State, v: Outcome) returns (s': State, q: P.State)
    requires Reachable(s) && h < |s.handles| && s.handles[h].Subject? && !s.handles[h].completed
    requires i == s.handles[h].slot && p == s.protos[i] && Resting(p) && p.completer.Pending?
    ensures s' == Finish(Do(s, SlotStep(h, P.StartComplete(v))), h, P.RunCompleter(false), 5 + |p.mem.registry|)
    ensures s' == Completed(s, h, i, s.handles[h].inc, v, q) && Reachable(s')
    ensures Resting(q) && q.futures == p.futures && q.directs == p.directs
    ensures forall w :: multiset(q.fired)[w] == if SlotTheorems.Owed(p, w) then 1 else 0
  {
    ProtocolHolds(s, h);
    s', q := CompletionIsAlone(s, h, i, p, v, 5 + |p.mem.registry|);
    CompleteAlone(p, v);
    DoReaches(s, SlotStep(h, P.StartComplete(v)));
    FinishReaches(Do(s, SlotStep(h, P.StartComplete(v))), h, P.RunCompleter(false), 5 + |p.mem.registry|);
  }

  function Fulfilled(m: Model, key: Key, v: Outcome): Model
    requires key in m.keys
  {
    m.(keys := m.keys[key := m.keys[key].(outcome := Some(v))])
  }

  lemma FulfilledEpochs(m: Model, names: seq<Name>, key: Key, v: Outcome)
    requires key in m.keys && NamesOk(m, names) && EpochsOk(m)
    ensures NamesOk(Fulfilled(m, key, v), names) && EpochsOk(Fulfilled(m, key, v))
    ensures forall k: Key, e: nat :: OutcomeOf(Fulfilled(m, key, v), k, e)
                                     == if (k, e) == (key, m.keys[key].epoch) then Some(v) else OutcomeOf(m, k, e)
  {
    var m' := Fulfilled(m, key, v);
    forall a | 0 <= a < |names| ensures Past(m', names[a]) { assert Past(m, names[a]); }
    forall r | r in m'.registrations ensures Past(m', (r.key, r.epoch)) { assert Past(m, (r.key, r.epoch)); }
    forall name | name in m'.retired ensures Past(m', name) { assert Past(m, name); }
  }

  lemma CompletedKeys(s: State, s': State, h: nat, m: Model, names: seq<Name>, key: Key, i: SlotId, v: Outcome,
      q: P.State)
    requires Shape(s) && KeysMatch(s, m, names)
    requires key in m.keys && key in s.subjectOf && s.subjectOf[key] == h
    requires h < |s.handles| && s.handles[h].Subject? && i == s.handles[h].slot
    requires s' == Completed(s, h, i, s.handles[h].inc, v, q)
    ensures KeysMatch(s', Fulfilled(m, key, v), names)
  {
    forall k: Key ensures KeyMatches(s', Fulfilled(m, key, v), names, k) {
      assert KeyMatches(s, m, names, k);
    }
  }

  lemma CompletedOutcomes(s: State, s': State, h: nat, m: Model, names: seq<Name>, key: Key, i: SlotId, v: Outcome,
      q: P.State)
    requires Reachable(s) && KeysMatch(s, m, names) && OutcomesMatch(s, m, names) && NamesOk(m, names) && EpochsOk(m)
    requires key in m.keys && key in s.subjectOf && s.subjectOf[key] == h && |names| == s.nextInc
    requires h < |s.handles| && s.handles[h].Subject? && i == s.handles[h].slot
    requires s' == Completed(s, h, i, s.handles[h].inc, v, q)
    ensures OutcomesMatch(s', Fulfilled(m, key, v), names)
  {
    ReachableInv(s);
    var m' := Fulfilled(m, key, v);
    FulfilledEpochs(m, names, key, v);
    assert KeyMatches(s, m, names, key);
    assert s.handles[h].inc == s.incs[i] < s.nextInc;
    forall n: nat ensures OutcomeMatches(s', m', names, n) { assert OutcomeMatches(s, m, names, n); }
  }

  lemma CompletedHandles(s: State, s': State, h: nat, m: Model, m': Model, names: seq<Name>, ids: seq<nat>, i: SlotId,
      v: Outcome, q: P.State)
    requires Shape(s) && HandlesMatch(s, m, names, ids) && m'.handles == m.handles
    requires h < |s.handles| && s.handles[h].Subject? && i == s.handles[h].slot
    requires s' == Completed(s, h, i, s.handles[h].inc, v, q) && q.futures == s.protos[i].futures
    ensures HandlesMatch(s', m', names, ids)
  {
    forall k | 0 <= k < |ids| ensures HandleMatches(s', names, ids[k], m.handles[k]) {
      assert HandleMatches(s, names, ids[k], m.handles[k]);
    }
    forall g: nat ensures Accounted(s', ids, g) {
      assert Accounted(s, ids, g);
    }
  }

  lemma CompletedSlots(s: State, s': State, h: nat, m: Model, m': Model, names: seq<Name>, i: SlotId, v: Outcome,
      q: P.State)
    requires Shape(s) && Shape(s') && SlotsMatch(s, m, names) && m'.registrations == m.registrations
    requires h < |s.handles| && s.handles[h].Subject? && i == s.handles[h].slot
    requires s' == Completed(s, h, i, s.handles[h].inc, v, q) && Resting(q) && q.directs == s.protos[i].directs
    ensures SlotsMatch(s', m', names)
  {
    forall j | 0 <= j < |s'.protos| ensures SlotMatches(s', m', names, j) {
      assert SlotMatches(s, m, names, j);
      if s.space.strong[j] > 0 && j !in s.space.pool {
        forall w ensures DirectMatches(s'.protos[j], m', NameOf(names, s'.incs[j]), w) {
          assert DirectMatches(s.protos[j], m, NameOf(names, s.incs[j]), w);
        }
      }
    }
  }

  /** The completed client stands for the model with the outcome recorded. */
  lemma CompletedRefines(x: Client, m: Model, names: seq<Name>, key: Key, h: nat, i: SlotId, v: Outcome, q: P.State)
    requires RefinesAs(x, m, names) && key in m.keys && key in x.life.subjectOf && h == x.life.subjectOf[key]
    requires h < |x.life.handles| && x.life.handles[h].Subject? && i == x.life.handles[h].slot
    requires Resting(q) && q.futures == x.life.protos[i].futures && q.directs == x.life.protos[i].directs
    requires Reachable(Completed(x.life, h, i, x.life.handles[h].inc, v, q))
    ensures RefinesAs(x.(life := Completed(x.life, h, i, x.life.handles[h].inc, v, q)), Fulfilled(m, key, v), names)
  {
    var s := x.life;
    var s' := Completed(s, h, i, s.handles[h].inc, v, q);
    CompletedKeys(s, s', h, m, names, key, i, v, q);
    CompletedOutcomes(s, s', h, m, names, key, i, v, q);
    CompletedHandles(s, s', h, m, Fulfilled(m, key, v), names, x.ids, i, v, q);
    CompletedSlots(s, s', h, m, Fulfilled(m, key, v), names, i, v, q);
    FulfilledEpochs(m, names, key, v);
  }

  lemma ModelCompletes(m: Model, key: Key, v: Outcome)
    ensures ModelStep(m, Complete(key, v)) ==
            if key !in m.keys || m.keys[key].outcome.Some? then (m, Skipped)
            else (Fulfilled(m, key, v), Woken(ExpectedWakes(m, key, m.keys[key].epoch)))
  {
  }

  /** What the model knows about the subject of `key`: its epoch's outcome is there exactly if it completed. */
  lemma SubjectKnown(x: Client, m: Model, names: seq<Name>, key: Key) returns (h: nat)
    requires RefinesAs(x, m, names) && key in m.keys
    ensures key in x.life.subjectOf && h == x.life.subjectOf[key]
    ensures h < |x.life.handles| && x.life.handles[h].Subject? && Current(x.life.handles[h])
    ensures NameOf(names, x.life.handles[h].inc) == (key, m.keys[key].epoch)
    ensures m.keys[key].outcome.Some? <==> x.life.handles[h].completed
    ensures x.life.handles[h].completed <==> x.life.protos[x.life.handles[h].slot].mem.word.completed
  {
    var s := x.life;
    assert KeyMatches(s, m, names, key);
    h := s.subjectOf[key];
    LiveSlot(s, m, names, h);
    assert HandleOk(s, h) && OutcomeMatches(s, m, names, s.handles[h].inc);
  }

  lemma CompleteOpIs(x: Client, key: Key, v: Outcome, h: nat, i: SlotId, s': State)
    requires key in x.life.subjectOf && h == x.life.subjectOf[key] && h < |x.life.handles|
    requires x.life.handles[h].Subject? && !x.life.handles[h].completed
    requires i == x.life.handles[h].slot && i < |x.life.protos| && i < |s'.protos|
    requires s' == Finish(Do(x.life, SlotStep(h, P.StartComplete(v))), h, P.RunCompleter(false),
                          5 + |x.life.protos[i].mem.registry|)
    ensures CompleteOp(x, key, v) == (x.(life := s'), Woken(multiset(s'.protos[i].fired)))
  {
  }

  lemma PendingRefines(x: Client, m: Model, names: seq<Name>, key: Key, v: Outcome, h: nat, i: SlotId, p: P.State)
    requires RefinesAs(x, m, names) && key in m.keys && key in x.life.subjectOf && h == x.life.subjectOf[key]
    requires h < |x.life.handles| && x.life.handles[h].Subject? && !x.life.handles[h].completed
    requires NameOf(names, x.life.handles[h].inc) == (key, m.keys[key].epoch)
    requires i == x.life.handles[h].slot && p == x.life.protos[i] && !p.mem.word.completed
    ensures CompleteOp(x, key, v).1 == Woken(ExpectedWakes(m, key, m.keys[key].epoch))
    ensures RefinesAs(CompleteOp(x, key, v).0, Fulfilled(m, key, v), names)
  {
    LiveSlot(x.life, m, names, h);
    var s', q := CompleteRuns(x.life, h, i, p, v);
    CompleteOpIs(x, key, v, h, i, s');
    WakesAreExpected(x, m, names, h, i, (key, m.keys[key].epoch), q.fired);
    CompletedRefines(x, m, names, key, h, i, v, q);
  }

  lemma CompleteRefines(x: Client, m: Model, key: Key, v: Outcome)
    requires Refines(x, m)
    ensures CompleteOp(x, key, v).1 == ModelStep(m, Complete(key, v)).1
    ensures Refines(CompleteOp(x, key, v).0, ModelStep(m, Complete(key, v)).0)
  {
    var names :| RefinesAs(x, m, names);
    ModelCompletes(m, key, v);
    assert KeyMatches(x.life, m, names, key);
    if key in m.keys {
      var h := SubjectKnown(x, m, names, key);
      if !x.life.handles[h].completed {
        var i := x.life.handles[h].slot;
        PendingRefines(x, m, names, key, v, h, i, x.life.protos[i]);
      }
    }
  }
}
