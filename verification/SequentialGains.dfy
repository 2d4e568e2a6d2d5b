/**
 New handles, sequentially: `observe` adds a reference to the slot of the retained generation,
 `into_future` turns an observation into a future of the same slot, and registering a vacant key
 starts a new incarnation, on a new slot or on a recycled one, under a name that no incarnation had.
*/
module SequentialGains {
  import opened Options
  import opened Space
  import opened Lifecycle
  import opened LifecycleInvariant
  import opened LifecycleRecycling
  import opened LifecycleHistory
  import opened ModelSpec
  import opened Sequential
  import opened SequentialAbstraction
  import opened SequentialRuns
  import P = SlotProtocol
  import opened SequentialSlots
  import opened SequentialHandles

  // ---- New handles --------------------------------------------------------------------------------------------

  /** A new handle of the client: the old ones look as they did, and the new one is the model's new one. */
  lemma HandleGained(s: State, s': State, m: Model, names: seq<Name>, ids: seq<nat>, handle: ModelHandle)
    requires Shape(s) && HandlesMatch(s, m, names, ids) && |s'.handles| == |s.handles| + 1
    requires forall g {:trigger HandleFramed(s, s', g)} :: 0 <= g < |s.handles| ==> HandleFramed(s, s', g)
    requires HandleMatches(s', names, |s.handles|, handle)
    ensures HandlesMatch(s', m.(handles := m.handles + [handle]), names, ids + [|s.handles|])
  {
    var ids' := ids + [|s.handles|];
    var handles' := m.handles + [handle];
    forall k | 0 <= k < |ids'| ensures HandleMatches(s', names, ids'[k], handles'[k]) {
      if k < |ids| {
        assert HandleMatches(s, names, ids[k], m.handles[k]);
        assert HandleFramed(s, s', ids[k]);
      }
    }
    forall a, b | 0 <= a < b < |ids'| ensures ids'[a] != ids'[b] {
      assert HandleMatches(s, names, ids[a], m.handles[a]);
    }
    forall g: nat ensures Accounted(s', ids', g) {
      assert Accounted(s, ids, g);
      if g < |s.handles| {
        assert HandleFramed(s, s', g);
      } else if g == |s.handles| {
        assert ids'[|ids|] == g;
      }
    }
  }

  lemma MoreHandles(s: State, s': State, m: Model, m': Model, names: seq<Name>)
    requires Shape(s) && Shape(s') && KeysMatch(s, m, names) && OutcomesMatch(s, m, names) && SlotsMatch(s, m, names)
    requires SameEpochs(m, m') && m'.registrations == m.registrations
    requires |s'.handles| == |s.handles| + 1 && s'.handles[..|s.handles|] == s.handles
    requires s' == s.(handles := s'.handles, space := s'.space) && s'.space.pool == s.space.pool
    requires forall j :: 0 <= j < |s.protos| && s'.space.strong[j] > 0 ==> s.space.strong[j] > 0
    ensures KeysMatch(s', m', names) && OutcomesMatch(s', m', names) && SlotsMatch(s', m', names)
  {
    forall k: Key ensures KeyMatches(s', m', names, k) { assert KeyMatches(s, m, names, k); }
    forall n: nat ensures OutcomeMatches(s', m', names, n) { assert OutcomeMatches(s, m, names, n); }
    forall j | 0 <= j < |s'.protos| ensures SlotMatches(s', m', names, j) {
      assert SlotMatches(s, m, names, j);
      if s.space.strong[j] > 0 && j !in s.space.pool {
        forall w ensures DirectMatches(s'.protos[j], m', NameOf(names, s'.incs[j]), w) {
          assert DirectMatches(s.protos[j], m, NameOf(names, s.incs[j]), w);
        }
      }
    }
  }

  /** `observe` on a retained key: one more handle on the slot of its generation. */
  lemma ObserveRuns(s: State, m: Model, names: seq<Name>, key: Key, i: SlotId)
    requires Reachable(s) && !s.closed && KeysMatch(s, m, names) && key in m.keys
    requires key in s.space.table ==> i == s.space.table[key].slot
    ensures key in s.space.table && i < |s.protos| && s.space.strong[i] > 0
    ensures NameOf(names, s.incs[i]) == (key, m.keys[key].epoch)
    ensures Do(s, Observe(key)) == AddHandle(s, i, Observation(i, s.incs[i])) && Reachable(Do(s, Observe(key)))
  {
    ReachableInv(s);
    assert KeyMatches(s, m, names, key);
    assert EntryOk(s, key);
    RefsPositive(s.handles, s.subjectOf[key], i);
    DoReaches(s, Observe(key));
  }

  lemma ListedKeys(s: State, key: Key)
    requires Reachable(s)
    ensures key in s.space.table <==> key in s.subjectOf
  {
    ReachableInv(s);
    assert key in s.space.table ==> EntryOk(s, key);
  }

  lemma ObserveRefines(x: Client, m: Model, key: Key)
    requires Refines(x, m)
    ensures ClientStep(x, ObserveKey(key)).1 == ModelStep(m, ObserveKey(key)).1
    ensures Refines(ClientStep(x, ObserveKey(key)).0, ModelStep(m, ObserveKey(key)).0)
  {
    var names :| RefinesAs(x, m, names);
    var s := x.life;
    assert KeyMatches(s, m, names, key);
    if key in m.keys {
      var i := if key in s.space.table then s.space.table[key].slot else 0;
      ObserveRuns(s, m, names, key, i);
      ObservationGained(x, m, names, key, i, Do(s, Observe(key)));
    } else {
      ListedKeys(s, key);
    }
  }

  lemma ObservationGained(x: Client, m: Model, names: seq<Name>, key: Key, i: SlotId, s': State)
    requires RefinesAs(x, m, names) && key in m.keys && i < |x.life.protos| && x.life.space.strong[i] > 0
    requires NameOf(names, x.life.incs[i]) == (key, m.keys[key].epoch)
    requires s' == AddHandle(x.life, i, Observation(i, x.life.incs[i])) && Reachable(s')
    ensures RefinesAs(Client(s', x.ids + [|x.life.handles|]),
                    m.(handles := m.handles + [ObservationOf(key, m.keys[key].epoch)]), names)
  {
    var s := x.life;
    var m' := m.(handles := m.handles + [ObservationOf(key, m.keys[key].epoch)]);
    MoreHandles(s, s', m, m', names);
    HandleGained(s, s', m, names, x.ids, ObservationOf(key, m.keys[key].epoch));
  }

  // ---- into_future ---------------------------------------------------------------------------------------------

  lemma FutureRuns(s: State, h: nat, i: SlotId, inc: nat, q: P.State)
    requires Reachable(s) && AllRest(s) && h < |s.handles| && s.handles[h] == Observation(i, inc)
            && s.space.strong[i] > 0
    requires q == P.Apply(s.protos[i], P.NewFuture(h))
    ensures Do(s, IntoFuture(h)) == Futured(s, h, q)
    ensures Reachable(Futured(s, h, q)) && Resting(q)
    ensures q.directs == s.protos[i].directs
            && q.futures == s.protos[i].futures + [P.FutureState(P.FutIdle, [], h, None)]
  {
    assert RestsAt(s, i);
    DoReaches(s, IntoFuture(h));
  }

  lemma FuturedSlots(s: State, h: nat, m: Model, m': Model, names: seq<Name>, q: P.State)
    requires Shape(s) && h < |s.handles| && s.handles[h].Observation? && Shape(Futured(s, h, q))
    requires SlotsMatch(s, m, names) && m'.registrations == m.registrations
    requires Resting(q) && q.directs == s.protos[s.handles[h].slot].directs && s.space.strong[s.handles[h].slot] > 0
    ensures SlotsMatch(Futured(s, h, q), m', names)
  {
    var s' := Futured(s, h, q);
    forall j | 0 <= j < |s'.protos| ensures SlotMatches(s', m', names, j) {
      assert SlotMatches(s, m, names, j);
      if s.space.strong[j] > 0 && j !in s.space.pool {
        forall w ensures DirectMatches(s'.protos[j], m', NameOf(names, s.incs[j]), w) {
          assert DirectMatches(s.protos[j], m, NameOf(names, s.incs[j]), w);
        }
      }
    }
  }

  lemma FuturedFrames(s: State, h: nat, q: P.State)
    requires Shape(s) && h < |s.handles| && s.handles[h].Observation?
    requires |q.futures| > |s.protos[s.handles[h].slot].futures|
    requires q.futures[..|s.protos[s.handles[h].slot].futures|] == s.protos[s.handles[h].slot].futures
    ensures forall g {:trigger HandleFramed(s, Futured(s, h, q), g)} ::
            0 <= g < |s.handles| && g != h ==> HandleFramed(s, Futured(s, h, q), g)
  {
  }

  lemma FutureGained(x: Client, m: Model, names: seq<Name>, id: nat, i: SlotId, inc: nat, q: P.State)
    requires RefinesAs(x, m, names) && id < |x.ids| && x.ids[id] < |x.life.handles|
    requires x.life.handles[x.ids[id]] == Observation(i, inc) && inc == x.life.incs[i]
    requires Resting(q) && Reachable(Futured(x.life, x.ids[id], q)) && x.life.space.strong[i] > 0
    requires q.directs == x.life.protos[i].directs
    requires q.futures == x.life.protos[i].futures + [P.FutureState(P.FutIdle, [], x.ids[id], None)]
    ensures RefinesAs(x.(life := Futured(x.life, x.ids[id], q)),
                    m.(handles := m.handles[id := FutureOf(NameOf(names, inc).0, NameOf(names, inc).1, [])]), names)
  {
    var s, h := x.life, x.ids[id];
    var s' := Futured(s, h, q);
    var m' := m.(handles := m.handles[id := FutureOf(NameOf(names, inc).0, NameOf(names, inc).1, [])]);
    FuturedSlots(s, h, m, m', names, q);
    FuturedFrames(s, h, q);
    OneHandleChanged(s, s', m, m', names, x.ids, id);
    forall k: Key ensures KeyMatches(s', m', names, k) { assert KeyMatches(s, m, names, k); }
    forall n: nat ensures OutcomeMatches(s', m', names, n) { assert OutcomeMatches(s, m, names, n); }
  }

  lemma FutureAnswers(x: Client, m: Model, id: nat, name: Name)
    requires Observes(x, id) && id < |m.handles| && m.handles[id] == ObservationOf(name.0, name.1)
    ensures ClientStep(x, NewFuture(id)) == (x.(life := Do(x.life, IntoFuture(x.ids[id]))), Accepted)
    ensures ModelStep(m, NewFuture(id)) == (m.(handles := m.handles[id := FutureOf(name.0, name.1, [])]), Accepted)
  {
  }

  lemma NewFutureRefines(x: Client, m: Model, id: nat)
    requires Refines(x, m) && Observes(x, id)
    ensures id < |m.handles| && m.handles[id].ObservationOf?
    ensures ClientStep(x, NewFuture(id)).1 == ModelStep(m, NewFuture(id)).1
    ensures Refines(ClientStep(x, NewFuture(id)).0, ModelStep(m, NewFuture(id)).0)
  {
    var names :| RefinesAs(x, m, names);
    var s, h := x.life, x.ids[id];
    var Observation(i, inc) := s.handles[h];
    assert HandleMatches(s, names, h, m.handles[id]);
    LiveSlot(s, m, names, h);
    SlotsRest(s, m, names);
    var q := P.Apply(s.protos[i], P.NewFuture(h));
    FutureRuns(s, h, i, inc, q);
    FutureAnswers(x, m, id, NameOf(names, inc));
    FutureGained(x, m, names, id, i, inc, q);
  }

  // ---- Registering a key -------------------------------------------------------------------------------------------

  predicate SameSlotState(s: State, s': State, j: SlotId)
    requires Shape(s) && Shape(s')
  {
    j < |s'.protos| ==>
      && j < |s.protos| && s'.protos[j] == s.protos[j] && s'.incs[j] == s.incs[j]
      && (s'.space.strong[j] > 0 ==> s.space.strong[j] > 0)
      && (j in s.space.pool ==> j in s'.space.pool)
  }

  /** From `s` to `s'` key `key` was registered on slot `i`, new or recycled. */
  ghost predicate NewlyListed(s: State, s': State, key: Key, i: SlotId)
    requires Shape(s)
  {
    && Reachable(s') && i < |s'.protos| && (i < |s.protos| ==> i in s.space.pool)
    && (exists generation :: s'.handles == s.handles + [Subject(key, generation, i, s.nextInc, false)])
    && s'.nextInc == s.nextInc + 1 && s'.published == s.published && s'.closed == s.closed
    && s'.subjectOf == s.subjectOf[key := |s.handles|]
    && s'.incs[i] == s.nextInc && i !in s'.space.pool
    && Resting(s'.protos[i]) && s'.protos[i].directs == {}
    && forall j {:trigger SameSlotState(s, s', j)} :: 0 <= j && j != i ==> SameSlotState(s, s', j)
  }

  lemma CreatedIsListed(s: State, key: Key)
    requires Reachable(s) && Enabled(s, NewSubject(key)) && key !in s.space.table && s.space.pool == []
    ensures NewlyListed(s, SubjectEffect(s, key), key, |s.protos|)
  {
    var s' := SubjectEffect(s, key);
    DoReaches(s, NewSubject(key));
    forall j: nat | j != |s.protos| ensures SameSlotState(s, s', j) {}
    assert s'.handles == s.handles + [Subject(key, s.space.nextGeneration, |s.protos|, s.nextInc, false)];
  }

  lemma RecycledIsListed(s: State, key: Key, i: SlotId)
    requires Reachable(s) && Enabled(s, NewSubject(key)) && key !in s.space.table && s.space.pool != []
            && i == Popped(s)
    ensures NewlyListed(s, SubjectEffect(s, key), key, i)
  {
    ReachableInv(s);
    var s' := SubjectEffect(s, key);
    DoReaches(s, NewSubject(key));
    PoppedIsClean(s);
    PopLeavesRest(s.space.pool);
    forall j: nat | j != i ensures SameSlotState(s, s', j) {}
    assert s'.handles == s.handles + [Subject(key, s.space.nextGeneration, i, s.nextInc, false)];
    assert EntryOk(s', key);
    assert Current(s'.handles[|s.handles|]);
  }

  function Opened(m: Model, key: Key): Model {
    m.(epochs := m.epochs[key := NextEpoch(m, key)], keys := m.keys[key := KeyState(NextEpoch(m, key), None)])
  }

  lemma OpenedEpochs(m: Model, names: seq<Name>, key: Key)
    requires key !in m.keys && NamesOk(m, names) && EpochsOk(m)
    ensures !Past(m, (key, NextEpoch(m, key)))
    ensures NamesOk(Opened(m, key), names + [(key, NextEpoch(m, key))]) && EpochsOk(Opened(m, key))
    ensures forall name :: Past(m, name) ==> OutcomeOf(Opened(m, key), name.0, name.1) == OutcomeOf(m, name.0, name.1)
    ensures OutcomeOf(Opened(m, key), key, NextEpoch(m, key)) == None
  {
    var m' := Opened(m, key);
    var names' := names + [(key, NextEpoch(m, key))];
    forall a | 0 <= a < |names'| ensures Past(m', names'[a]) { assert a < |names| ==> Past(m, names[a]); }
    forall a, b | 0 <= a < b < |names'| ensures names'[a] != names'[b] { assert Past(m, names[a]); }
    forall r | r in m'.registrations ensures Past(m', (r.key, r.epoch)) { assert Past(m, (r.key, r.epoch)); }
    forall name | name in m'.retired ensures Past(m', name) { assert Past(m, name); }
  }

  lemma ListedKeysMatch(s: State, s': State, m: Model, names: seq<Name>, key: Key, i: SlotId)
    requires Reachable(s) && NewlyListed(s, s', key, i) && KeysMatch(s, m, names)
    requires |names| == s.nextInc && key !in m.keys
    ensures KeysMatch(s', Opened(m, key), names + [(key, NextEpoch(m, key))])
  {
    ReachableInv(s);
    var m' := Opened(m, key);
    var names' := names + [(key, NextEpoch(m, key))];
    forall k: Key ensures KeyMatches(s', m', names', k) {
      assert KeyMatches(s, m, names, k);
      if k != key && k in s.subjectOf {
        assert EntryOk(s, k);
        assert Current(s.handles[s.subjectOf[k]]);
      }
    }
  }

  /** The new generation has no outcome, and the others keep theirs. */
  lemma ListedOutcomesMatch(s: State, s': State, m: Model, names: seq<Name>, key: Key, i: SlotId)
    requires Reachable(s) && NewlyListed(s, s', key, i) && OutcomesMatch(s, m, names)
    requires NamesOk(m, names) && EpochsOk(m) && |names| == s.nextInc && key !in m.keys
    ensures OutcomesMatch(s', Opened(m, key), names + [(key, NextEpoch(m, key))])
  {
    ReachableInv(s);
    var m' := Opened(m, key);
    var names' := names + [(key, NextEpoch(m, key))];
    OpenedEpochs(m, names, key);
    forall n: nat ensures OutcomeMatches(s', m', names', n) {
      assert OutcomeMatches(s, m, names, n);
      if n < |names| { assert Past(m, names[n]); }
    }
  }

  lemma ListedFrames(s: State, s': State, key: Key, i: SlotId, g: nat)
    requires Reachable(s) && NewlyListed(s, s', key, i) && g < |s.handles|
    ensures HandleFramed(s, s', g)
  {
    ReachableInv(s);
    if Current(s.handles[g]) {
      var j := s.handles[g].slot;
      assert j != i;
      RefsPositive(s'.handles, g, j);
      assert SameSlotState(s, s', j);
    }
  }

  lemma ListedHandlesMatch(s: State, s': State, m: Model, m': Model, names: seq<Name>, name: Name, ids: seq<nat>,
      key: Key, i: SlotId)
    requires Reachable(s) && NewlyListed(s, s', key, i) && HandlesMatch(s, m, names, ids) && |names| == s.nextInc
    requires m'.handles == m.handles
    ensures HandlesMatch(s', m', names + [name], ids)
  {
    ReachableInv(s);
    forall k | 0 <= k < |ids| ensures HandleMatches(s', names + [name], ids[k], m'.handles[k]) {
      assert HandleMatches(s, names, ids[k], m.handles[k]);
      ListedFrames(s, s', key, i, ids[k]);
      assert Current(s.handles[ids[k]]) ==> s.handles[ids[k]].inc < s.nextInc;
    }
    forall g: nat ensures Accounted(s', ids, g) {
      assert Accounted(s, ids, g);
    }
  }

  lemma ListedSlotsMatch(s: State, s': State, m: Model, m': Model, names: seq<Name>, key: Key, i: SlotId)
    requires Reachable(s) && NewlyListed(s, s', key, i) && SlotsMatch(s, m, names) && |names| == s.nextInc
    requires m'.registrations == m.registrations && EpochsOk(m) && key !in m.keys && NamesOk(m, names)
    ensures SlotsMatch(s', m', names + [(key, NextEpoch(m, key))])
  {
    ReachableInv(s);
    var names' := names + [(key, NextEpoch(m, key))];
    OpenedEpochs(m, names, key);
    forall j | 0 <= j < |s'.protos| ensures SlotMatches(s', m', names', j) {
      if j == i {
        forall w ensures DirectMatches(s'.protos[j], m', NameOf(names', s'.incs[j]), w) {}
      } else {
        assert SameSlotState(s, s', j) && SlotMatches(s, m, names, j);
        assert s.incs[j] < s.nextInc;
        if s'.space.strong[j] > 0 && j !in s'.space.pool {
          forall w ensures DirectMatches(s'.protos[j], m', NameOf(names', s'.incs[j]), w) {
            assert DirectMatches(s.protos[j], m, NameOf(names, s.incs[j]), w);
          }
        }
      }
    }
  }

  lemma ListedRefines(x: Client, m: Model, names: seq<Name>, key: Key, s': State, i: SlotId)
    requires RefinesAs(x, m, names) && key !in m.keys && NewlyListed(x.life, s', key, i)
    ensures RefinesAs(x.(life := s'), Opened(m, key), names + [(key, NextEpoch(m, key))])
  {
    OpenedEpochs(m, names, key);
    ListedKeysMatch(x.life, s', m, names, key, i);
    ListedOutcomesMatch(x.life, s', m, names, key, i);
    ListedHandlesMatch(x.life, s', m, Opened(m, key), names, (key, NextEpoch(m, key)), x.ids, key, i);
    ListedSlotsMatch(x.life, s', m, Opened(m, key), names, key, i);
  }

  lemma VacantRefines(x: Client, m: Model, names: seq<Name>, key: Key)
    requires RefinesAs(x, m, names) && key !in m.keys && key !in x.life.space.table && Enabled(x.life, NewSubject(key))
    ensures RefinesAs(x.(life := SubjectEffect(x.life, key)), Opened(m, key), names + [(key, NextEpoch(m, key))])
  {
    if x.life.space.pool == [] {
      CreatedIsListed(x.life, key);
      ListedRefines(x, m, names, key, SubjectEffect(x.life, key), |x.life.protos|);
    } else {
      RecycledIsListed(x.life, key, Popped(x.life));
      ListedRefines(x, m, names, key, SubjectEffect(x.life, key), Popped(x.life));
    }
  }

  lemma RegisterAnswers(x: Client, m: Model, key: Key)
    requires Shape(x.life) && !x.life.closed && x.life.space.nextGeneration < LAST_GENERATION
    ensures ClientStep(x, Register(key))
            == (x.(life := SubjectEffect(x.life, key)),
                if |SubjectEffect(x.life, key).handles| > |x.life.handles| then Accepted else Rejected)
    ensures ModelStep(m, Register(key)) == if key in m.keys then (m, Rejected) else (Opened(m, key), Accepted)
  {
    assert Do(x.life, NewSubject(key)) == SubjectEffect(x.life, key);
  }

  lemma RegisterRefines(x: Client, m: Model, key: Key)
    requires Refines(x, m) && x.life.space.nextGeneration < LAST_GENERATION
    ensures ClientStep(x, Register(key)).1 == ModelStep(m, Register(key)).1
    ensures Refines(ClientStep(x, Register(key)).0, ModelStep(m, Register(key)).0)
  {
    var names :| RefinesAs(x, m, names);
    var s := x.life;
    assert KeyMatches(s, m, names, key);
    ListedKeys(s, key);
    RegisterAnswers(x, m, key);
    if key in m.keys {
      ConflictChangesNothing(s, key);
    } else {
      VacantRefines(x, m, names, key);
    }
  }
}
