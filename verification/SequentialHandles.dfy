/**
 Giving up handles, sequentially.

 Dropping an observation, cancelling a future, `into_outcome`, retiring a key.
*/
module SequentialHandles {
  import opened Options
  import opened Registry
  import opened Space
  import opened Lifecycle
  import opened LifecycleInvariant
  import opened LifecycleRecycling
  import opened LifecycleHistory
  import opened LifecycleTheorems
  import opened SlotAlone
  import opened ModelSpec
  import opened Sequential
  import opened SequentialAbstraction
  import opened SequentialRuns
  import P = SlotProtocol
  import opened SequentialSlots

  // ---- Giving up a handle --------------------------------------------------------------------------------

  /** A slot still in use is as it was, but for the future of handle `h`. */
  ghost predicate KeptBut(s: State, s': State, h: nat, j: SlotId)
    requires Shape(s) && Shape(s') && j < |s.protos| == |s'.protos|
  {
    s'.space.strong[j] > 0 ==>
      && s.space.strong[j] > 0 && Resting(s'.protos[j])
      && s'.protos[j].directs == s.protos[j].directs
      && |s'.protos[j].futures| == |s.protos[j].futures|
      && forall f :: 0 <= f < |s.protos[j].futures| && s.protos[j].futures[f].via != h ==>
           s'.protos[j].futures[f] == s.protos[j].futures[f]
  }

  /** From `s` to `s'` handle `h` went, and perhaps its slot with it. */
  ghost predicate Lost(s: State, s': State, h: nat)
    requires Shape(s)
  {
    && Reachable(s') && h < |s.handles| && s'.handles == s.handles[h := Gone]
    && s'.incs == s.incs && s'.nextInc == s.nextInc && s'.published == s.published && s'.closed == s.closed
    && (forall j :: j in s.space.pool ==> j in s'.space.pool)
    && forall j {:trigger KeptBut(s, s', h, j)} :: 0 <= j < |s.protos| ==> KeptBut(s, s', h, j)
  }

  lemma OthersFramed(s: State, s': State, h: nat, g: nat)
    requires Reachable(s) && Lost(s, s', h) && g < |s.handles| && g != h
    ensures HandleFramed(s, s', g)
  {
    ReachableInv(s);
    ReachableInv(s');
    if s.handles[g].Future? {
      RefsPositive(s'.handles, g, s.handles[g].slot);
      assert KeptBut(s, s', h, s.handles[g].slot);
      assert HandleOk(s, g);
    }
  }

  lemma LostSlots(s: State, s': State, h: nat, m: Model, m': Model, names: seq<Name>)
    requires Reachable(s) && Lost(s, s', h) && SlotsMatch(s, m, names) && m'.registrations == m.registrations
    ensures SlotsMatch(s', m', names)
  {
    forall j | 0 <= j < |s'.protos| ensures SlotMatches(s', m', names, j) {
      assert KeptBut(s, s', h, j) && SlotMatches(s, m, names, j);
      if s'.space.strong[j] > 0 && j !in s'.space.pool {
        forall w ensures DirectMatches(s'.protos[j], m', NameOf(names, s'.incs[j]), w) {
          assert DirectMatches(s.protos[j], m, NameOf(names, s.incs[j]), w);
        }
      }
    }
  }

  lemma LosesHandle(x: Client, m: Model, names: seq<Name>, id: nat, s': State)
    requires RefinesAs(x, m, names) && id < |x.ids| && x.ids[id] < |x.life.handles|
            && !x.life.handles[x.ids[id]].Subject?
    requires Lost(x.life, s', x.ids[id]) && s'.subjectOf == x.life.subjectOf
    ensures RefinesAs(x.(life := s'), m.(handles := m.handles[id := Dropped]), names)
  {
    var s, h := x.life, x.ids[id];
    var m' := m.(handles := m.handles[id := Dropped]);
    LostSlots(s, s', h, m, m', names);
    forall g | 0 <= g < |s.handles| && g != h ensures HandleFramed(s, s', g) { OthersFramed(s, s', h, g); }
    OneHandleChanged(s, s', m, m', names, x.ids, id);
    forall k: Key ensures KeyMatches(s', m', names, k) { assert KeyMatches(s, m, names, k); }
    forall n: nat ensures OutcomeMatches(s', m', names, n) { assert OutcomeMatches(s, m, names, n); }
  }

  ghost predicate RestsAt(s: State, j: SlotId)
    requires Shape(s) && j < |s.protos|
  {
    s.space.strong[j] > 0 ==> Resting(s.protos[j])
  }

  ghost predicate AllRest(s: State)
    requires Shape(s)
  {
    forall j {:trigger RestsAt(s, j)} :: 0 <= j < |s.protos| ==> RestsAt(s, j)
  }

  lemma SlotsRest(s: State, m: Model, names: seq<Name>)
    requires Shape(s) && SlotsMatch(s, m, names)
    ensures AllRest(s)
  {
    forall j | 0 <= j < |s.protos| ensures RestsAt(s, j) {
      assert SlotMatches(s, m, names, j);
    }
  }

  /** Nothing but handle `h` and the counts differ, apart from slots no longer in use. */
  predicate OnlyGone(s: State, s': State, h: nat) {
    && h < |s.handles| && s'.handles == s.handles[h := Gone]
    && s'.incs == s.incs && s'.nextInc == s.nextInc && s'.published == s.published && s'.closed == s.closed
    && s'.subjectOf == s.subjectOf && s'.space.pool == s.space.pool
  }

  lemma ReleaseOnlyGone(s: State, h: nat)
    requires Shape(s) && h < |s.handles| && !s.handles[h].Gone?
    ensures OnlyGone(s, ReleaseEffect(s, h), h)
  {
  }

  lemma OnlyGoneIsLost(s: State, s': State, h: nat)
    requires Shape(s) && Reachable(s') && AllRest(s) && OnlyGone(s, s', h) && MemoryKept(s, s')
    ensures Lost(s, s', h)
  {
    forall j | 0 <= j < |s.protos| ensures KeptBut(s, s', h, j) {
      assert RestsAt(s, j);
    }
  }

  /** The observation `h` is released. */
  lemma ReleaseLoses(s: State, h: nat)
    requires Reachable(s) && Enabled(s, Release(h)) && AllRest(s)
    ensures Do(s, Release(h)) == ReleaseEffect(s, h)
    ensures Lost(s, ReleaseEffect(s, h), h) && ReleaseEffect(s, h).subjectOf == s.subjectOf
  {
    ReachableInv(s);
    DoReaches(s, Release(h));
    ReleaseSince(s, h);
    ReleaseOnlyGone(s, h);
    OnlyGoneIsLost(s, ReleaseEffect(s, h), h);
  }

  lemma DropRefines(x: Client, m: Model, id: nat)
    requires Refines(x, m) && Observes(x, id)
    ensures id < |m.handles| && m.handles[id].ObservationOf?
    ensures Refines(x.(life := Do(x.life, Release(x.ids[id]))), m.(handles := m.handles[id := Dropped]))
  {
    var names :| RefinesAs(x, m, names);
    var s, h := x.life, x.ids[id];
    assert HandleMatches(s, names, h, m.handles[id]);
    LiveSlot(s, m, names, h);
    SlotsRest(s, m, names);
    ReleaseLoses(s, h);
    LosesHandle(x, m, names, id, ReleaseEffect(s, h));
  }

  /** What dropping a future makes of a slot at rest. */
  lemma CancelLeaves(p: P.State, f: nat) returns (q: P.State)
    requires P.Inv(p) && Resting(p) && f < |p.futures| && (p.futures[f].pc.FutIdle? || p.futures[f].pc.FutReady?)
    ensures P.Enabled(p, P.StartDrop(f)) && q == Alone(P.Apply(p, P.StartDrop(f)), P.RunFuture(f), 3)
    ensures Resting(q) && OnlyFuture(p, q, f) && q.directs == p.directs
    ensures q.futures[f].pc.FutDropped? && q.futures[f].via == p.futures[f].via
  {
    q := Alone(P.Apply(p, P.StartDrop(f)), P.RunFuture(f), 3);
    DropAlone(p, f);
  }

  /** Cancelling a future: its wakers go, then its handle. */
  lemma CancelRuns(x: Client, id: nat, h: nat, i: SlotId, f: nat, p: P.State) returns (q: P.State)
    requires Reachable(x.life) && Awaits(x, id) && h == x.ids[id] && i == x.life.handles[h].slot
            && p == x.life.protos[i]
    requires f == x.life.handles[h].id && Resting(p)
    requires f < |p.futures| && (p.futures[f].pc.FutIdle? || p.futures[f].pc.FutReady?)
    ensures CancelOp(x, id).0 == x.(life := Do(Stepped(x.life, i, q), Release(h)))
    ensures Reachable(Stepped(x.life, i, q)) && Resting(q) && OnlyFuture(p, q, f) && q.directs == p.directs
    ensures q.futures[f].pc.FutDropped? && q.futures[f].via == p.futures[f].via
  {
    ProtocolHolds(x.life, h);
    q := CancelLeaves(p, f);
    RunsAlone(x.life, h, i, p, P.StartDrop(f), P.RunFuture(f), 3);
  }

  lemma CancelledRests(s: State, i: SlotId, q: P.State)
    requires Shape(s) && AllRest(s) && i < |s.protos| && Resting(q) && Shape(Stepped(s, i, q))
    ensures AllRest(Stepped(s, i, q))
  {
    forall j | 0 <= j < |s.protos| ensures RestsAt(Stepped(s, i, q), j) {
      assert RestsAt(s, j);
    }
  }

  /** Losing the handle after its future changed is losing the handle. */
  lemma LostAfter(s: State, i: SlotId, f: nat, q: P.State, s': State, h: nat)
    requires Shape(s) && i < |s.protos| && s.space.strong[i] > 0 && Shape(Stepped(s, i, q))
            && Lost(Stepped(s, i, q), s', h)
    requires OnlyFuture(s.protos[i], q, f) && q.directs == s.protos[i].directs
    requires f < |q.futures| && s.protos[i].futures[f].via == h && q.futures[f].via == h
    ensures Lost(s, s', h)
  {
    forall j | 0 <= j < |s.protos| ensures KeptBut(s, s', h, j) {
      assert KeptBut(Stepped(s, i, q), s', h, j);
    }
  }

  lemma CancelRefines(x: Client, m: Model, id: nat)
    requires Refines(x, m) && Awaits(x, id)
    ensures id < |m.handles| && m.handles[id].FutureOf?
    ensures Refines(CancelOp(x, id).0, m.(handles := m.handles[id := Dropped]))
  {
    var names :| RefinesAs(x, m, names);
    var s, h := x.life, x.ids[id];
    var Future(i, inc, f) := s.handles[h];
    assert HandleMatches(s, names, h, m.handles[id]);
    LiveSlot(s, m, names, h);
    SlotsRest(s, m, names);
    assert HandleOk(s, h);
    var q := CancelRuns(x, id, h, i, f, s.protos[i]);
    CancelledRests(s, i, q);
    ReleaseLoses(Stepped(s, i, q), h);
    LostAfter(s, i, f, q, ReleaseEffect(Stepped(s, i, q), h), h);
    LosesHandle(x, m, names, id, ReleaseEffect(Stepped(s, i, q), h));
  }

  // ---- into_outcome ------------------------------------------------------------------------------------------

  lemma {:induction false} NoHandleOf(handles: seq<ModelHandle>, name: Name)
    ensures HandlesOf(handles, name.0, name.1) == 0 <==>
              forall k :: 0 <= k < |handles| ==> !IsOf(handles[k], name.0, name.1)
  {
    if handles != [] {
      NoHandleOf(handles[1..], name);
      assert handles == [handles[0]] + handles[1..];
      if !IsOf(handles[0], name.0, name.1) && HandlesOf(handles[1..], name.0, name.1) == 0 {
        forall k | 0 <= k < |handles| ensures !IsOf(handles[k], name.0, name.1) {
          assert k > 0 ==> handles[k] == handles[1..][k - 1];
        }
      }
    }
  }

  /** What the client's handle number `k` says of the epoch of handle `h`. */
  lemma SiblingHandles(x: Client, m: Model, names: seq<Name>, h: nat, k: nat)
    requires RefinesAs(x, m, names) && h < |x.life.handles| && Current(x.life.handles[h]) && k < |x.ids|
    ensures var name := NameOf(names, x.life.handles[h].inc);
            && x.ids[k] < |x.life.handles|
            && (IsOf(m.handles[k], name.0, name.1) <==> Refers(x.life.handles[x.ids[k]], x.life.handles[h].slot))
  {
    ReachableInv(x.life);
    var s := x.life;
    assert HandleMatches(s, names, x.ids[k], m.handles[k]);
    if !s.handles[x.ids[k]].Gone? {
      SameSlot(s, m, names, x.ids[k], h);
    }
  }

  /** The epoch of handle `h` is live exactly if a subject refers to its slot, and exactly if its slot is listed. */
  lemma SiblingSubject(x: Client, m: Model, names: seq<Name>, h: nat)
    requires RefinesAs(x, m, names) && h < |x.life.handles| && Current(x.life.handles[h])
    ensures var name := NameOf(names, x.life.handles[h].inc); var i := x.life.handles[h].slot;
            var live := name.0 in m.keys && m.keys[name.0].epoch == name.1;
            && (Listed(x.life.space.table, i) ==> live)
            && (live ==>
                  exists g :: 0 <= g < |x.life.handles| && x.life.handles[g].Subject? && Refers(x.life.handles[g], i))
            && forall g ::
                 0 <= g < |x.life.handles| && x.life.handles[g].Subject? && Refers(x.life.handles[g], i) ==> live
  {
    ReachableInv(x.life);
    var s := x.life;
    var name := NameOf(names, s.handles[h].inc);
    var i := s.handles[h].slot;
    assert KeyMatches(s, m, names, name.0);
    if name.0 in m.keys && m.keys[name.0].epoch == name.1 {
      SameSlot(s, m, names, s.subjectOf[name.0], h);
    }
    forall g | 0 <= g < |s.handles| && s.handles[g].Subject? && Refers(s.handles[g], i)
      ensures name.0 in m.keys && m.keys[name.0].epoch == name.1
    {
      SameSlot(s, m, names, g, h);
      assert SubjectListed(s, g) && KeyMatches(s, m, names, s.handles[g].key);
    }
    if Listed(s.space.table, i) {
      var k :| k in s.space.table && s.space.table[k].slot == i;
      assert EntryOk(s, k);
    }
  }

  /** The model's pin count without handle `id` is zero exactly if the library's reference count is one. */
  lemma PinsAreCounts(x: Client, m: Model, names: seq<Name>, id: nat, m': Model)
    requires RefinesAs(x, m, names) && Observes(x, id) && |m.handles| == |x.ids|
    requires m' == m.(handles := m.handles[id := Dropped])
    ensures var name := NameOf(names, x.life.handles[x.ids[id]].inc);
            SlotRefs(m', name.0, name.1) == 0 <==> x.life.space.strong[x.life.handles[x.ids[id]].slot] == 1
  {
    ReachableInv(x.life);
    var s, h := x.life, x.ids[id];
    var i := s.handles[h].slot;
    var name := NameOf(names, s.handles[h].inc);
    UniqueMeansAlone(s, h);
    SiblingSubject(x, m, names, h);
    NoHandleOf(m'.handles, name);
    forall k | 0 <= k < |x.ids|
      ensures x.ids[k] < |s.handles| && (IsOf(m.handles[k], name.0, name.1) <==> Refers(s.handles[x.ids[k]], i))
    {
      SiblingHandles(x, m, names, h, k);
    }
    if s.space.strong[i] == 1 {
      forall k | 0 <= k < |x.ids| ensures !IsOf(m'.handles[k], name.0, name.1) {
        assert k != id ==> x.ids[k] != h;
      }
    }
    if SlotRefs(m', name.0, name.1) == 0 {
      forall g | 0 <= g < |s.handles| && g != h ensures !Refers(s.handles[g], i) {
        assert Accounted(s, x.ids, g);
        if g in x.ids {
          var k :| 0 <= k < |x.ids| && x.ids[k] == g;
          assert !IsOf(m'.handles[k], name.0, name.1);
        }
      }
    }
  }

  /** The answer of the uniqueness test is in the handle; nothing else changes. */
  lemma UnwrapAnswers(s: State, h: nat, i: SlotId, inc: nat, s1: State)
    requires Reachable(s) && AllRest(s) && h < |s.handles| && s.handles[h] == Observation(i, inc)
    requires Enabled(s, Unwrap(h)) && s1 == Do(s, Unwrap(h))
    ensures Reachable(s1) && AllRest(s1)
    ensures s1 == s.(handles := s1.handles)
    ensures s1.handles == s.handles[h := if s.space.strong[i] == 1 then Unwrapped(i, inc) else Refused(i, inc)]
  {
    DoReaches(s, Unwrap(h));
    forall j | 0 <= j < |s1.protos| ensures RestsAt(s1, j) { assert RestsAt(s, j); }
  }

  /** Losing a relabelled handle is losing the handle. */
  lemma RelabelledLost(s: State, s1: State, s': State, h: nat)
    requires Shape(s) && Shape(s1) && h < |s.handles| && s1 == s.(handles := s1.handles)
    requires |s1.handles| == |s.handles| && s1.handles == s.handles[h := s1.handles[h]] && Lost(s1, s', h)
    ensures Lost(s, s', h)
  {
    forall j | 0 <= j < |s.protos| ensures KeptBut(s, s', h, j) { assert KeptBut(s1, s', h, j); }
  }

  lemma TakeOnlyGone(s: State, h: nat)
    requires Shape(s) && h < |s.handles| && s.handles[h].Unwrapped?
    ensures OnlyGone(s, TakeEffect(s, h), h)
  {
  }

  /** The last holder moves the outcome out, if there is one, and the slot ends. */
  lemma TakeLoses(s: State, h: nat, inc: nat)
    requires Reachable(s) && AllRest(s) && h < |s.handles| && s.handles[h].Unwrapped? && s.handles[h].inc == inc
    ensures Lost(s, TakeEffect(s, h), h) && TakeEffect(s, h).subjectOf == s.subjectOf
    ensures Do(s, Take(h)) == TakeEffect(s, h)
    ensures inc in TakeEffect(s, h).taken <==> inc in s.published
    ensures inc in s.published ==> TakeEffect(s, h).taken[inc] == s.published[inc]
  {
    ReachableInv(s);
    TakeFinds(s, h);
    DoReaches(s, Take(h));
    TakeSince(s, h);
    TakeOnlyGone(s, h);
    OnlyGoneIsLost(s, TakeEffect(s, h), h);
  }

  /** `into_outcome` given the answer of its uniqueness test: the published outcome or nothing; the handle goes. */
  lemma IntoOutcomeEnds(s: State, s1: State, h: nat, inc: nat) returns (s': State)
    requires Shape(s) && Reachable(s1) && AllRest(s1) && s1 == s.(handles := s1.handles)
    requires |s1.handles| == |s.handles| && h < |s.handles| && s1.handles == s.handles[h := s1.handles[h]]
    requires (s1.handles[h].Unwrapped? || s1.handles[h].Refused?) && s1.handles[h].inc == inc
    ensures Lost(s, s', h) && s'.subjectOf == s.subjectOf
    ensures s1.handles[h].Unwrapped? ==>
              s' == Do(s1, Take(h)) && (if inc in s'.taken then Some(s'.taken[inc]) else None) == PublishedBy(s, inc)
    ensures s1.handles[h].Refused? ==> s' == Do(s1, Release(h))
  {
    if s1.handles[h].Unwrapped? {
      TakeLoses(s1, h, inc);
      s' := TakeEffect(s1, h);
    } else {
      ReleaseLoses(s1, h);
      s' := ReleaseEffect(s1, h);
    }
    RelabelledLost(s, s1, s', h);
  }

  /** `into_outcome` answers with the published outcome exactly if the count is one, and gives up the handle. */
  lemma IntoOutcomeRuns(x: Client, id: nat, s: State, h: nat, i: SlotId, inc: nat) returns (s': State)
    requires s == x.life && Reachable(s) && AllRest(s) && Observes(x, id) && h == x.ids[id]
            && s.handles[h] == Observation(i, inc)
    requires Enabled(s, Unwrap(h))
    ensures Lost(s, s', h) && s'.subjectOf == s.subjectOf
    ensures IntoOutcomeOp(x, id)
            == (x.(life := s'), Value(if s.space.strong[i] == 1 then PublishedBy(s, inc) else None))
  {
    var s1 := Do(s, Unwrap(h));
    UnwrapAnswers(s, h, i, inc, s1);
    s' := IntoOutcomeEnds(s, s1, h, inc);
  }

  lemma ModelTakes(m: Model, id: nat, name: Name)
    requires id < |m.handles| && m.handles[id] == ObservationOf(name.0, name.1)
    ensures var m' := m.(handles := m.handles[id := Dropped]);
            ModelStep(m, IntoOutcome(id))
            == (m', Value(if SlotRefs(m', name.0, name.1) == 0 then OutcomeOf(m, name.0, name.1) else None))
  {
  }

  lemma IntoOutcomeRefines(x: Client, m: Model, id: nat)
    requires Refines(x, m) && Observes(x, id)
    ensures id < |m.handles| && m.handles[id].ObservationOf?
    ensures IntoOutcomeOp(x, id).1 == ModelStep(m, IntoOutcome(id)).1
    ensures Refines(IntoOutcomeOp(x, id).0, ModelStep(m, IntoOutcome(id)).0)
  {
    var names :| RefinesAs(x, m, names);
    var s, h := x.life, x.ids[id];
    var Observation(i, inc) := s.handles[h];
    assert HandleMatches(s, names, h, m.handles[id]);
    LiveSlot(s, m, names, h);
    SlotsRest(s, m, names);
    var s' := IntoOutcomeRuns(x, id, s, h, i, inc);
    PinsAreCounts(x, m, names, id, m.(handles := m.handles[id := Dropped]));
    assert OutcomeMatches(s, m, names, inc);
    ModelTakes(m, id, NameOf(names, inc));
    LosesHandle(x, m, names, id, s');
  }

  // ---- Retiring a key ----------------------------------------------------------------------------------------

  /** The subject goes; the client's handles do not notice. */
  lemma SubjectLost(s: State, s': State, h: nat, m: Model, m': Model, names: seq<Name>, ids: seq<nat>)
    requires Reachable(s) && Lost(s, s', h) && s.handles[h].Subject?
    requires HandlesMatch(s, m, names, ids) && m'.handles == m.handles
    ensures HandlesMatch(s', m', names, ids)
  {
    forall k | 0 <= k < |ids| ensures HandleMatches(s', names, ids[k], m'.handles[k]) {
      assert HandleMatches(s, names, ids[k], m.handles[k]);
      OthersFramed(s, s', h, ids[k]);
    }
    forall g: nat ensures Accounted(s', ids, g) {
      assert Accounted(s, ids, g);
    }
  }

  function Retired(m: Model, key: Key): Model
    requires key in m.keys
  {
    m.(keys := m.keys - {key}, retired := m.retired[(key, m.keys[key].epoch) := m.keys[key].outcome])
  }

  lemma RetiredEpochs(m: Model, names: seq<Name>, key: Key)
    requires key in m.keys && NamesOk(m, names) && EpochsOk(m)
    ensures NamesOk(Retired(m, key), names) && EpochsOk(Retired(m, key))
    ensures forall k: Key, e: nat :: OutcomeOf(Retired(m, key), k, e) == OutcomeOf(m, k, e)
  {
    var m' := Retired(m, key);
    forall a | 0 <= a < |names| ensures Past(m', names[a]) { assert Past(m, names[a]); }
    forall r | r in m'.registrations ensures Past(m', (r.key, r.epoch)) { assert Past(m, (r.key, r.epoch)); }
    forall name | name in m'.retired ensures Past(m', name) {
      assert name in m.retired ==> Past(m, name);
    }
  }

  lemma RetiredKeys(s: State, s': State, h: nat, m: Model, names: seq<Name>, key: Key)
    requires Reachable(s) && Lost(s, s', h) && KeysMatch(s, m, names) && OutcomesMatch(s, m, names)
    requires key in m.keys && NamesOk(m, names) && EpochsOk(m)
    requires key in s.subjectOf && s.subjectOf[key] == h && s'.subjectOf == s.subjectOf - {key}
    ensures KeysMatch(s', Retired(m, key), names) && OutcomesMatch(s', Retired(m, key), names)
  {
    ReachableInv(s);
    RetiredEpochs(m, names, key);
    forall k: Key ensures KeyMatches(s', Retired(m, key), names, k) {
      assert KeyMatches(s, m, names, k) && KeyMatches(s, m, names, key);
      if k in s.subjectOf && k != key {
        assert EntryOk(s, k) && EntryOk(s, key);
      }
    }
    forall n: nat ensures OutcomeMatches(s', Retired(m, key), names, n) { assert OutcomeMatches(s, m, names, n); }
  }

  /** A subject dropped by the only thread gives up the key, pools the slot if it can, and gives up its reference. */
  lemma RetireRuns(s: State, h: nat, key: Key)
    requires Reachable(s) && AllRest(s) && key in s.subjectOf && s.subjectOf[key] == h
    ensures h < |s.handles| && s.handles[h].Subject?
    ensures var s' := Do(Do(s, Retire(h)), Release(h)); Lost(s, s', h) && s'.subjectOf == s.subjectOf - {key}
  {
    RetireIsEnabled(s, h, key);
    RetireLeaves(s, h);
    var s1 := RetireEffect(s, h);
    ReleaseLoses(s1, h);
    RetiredLost(s, s1, ReleaseEffect(s1, h), h);
  }

  lemma RetireIsEnabled(s: State, h: nat, key: Key)
    requires Reachable(s) && AllRest(s) && key in s.subjectOf && s.subjectOf[key] == h
    ensures Enabled(s, Retire(h)) && s.handles[h].key == key
  {
    ReachableInv(s);
    assert EntryOk(s, key);
    RefsPositive(s.handles, h, s.handles[h].slot);
    assert RestsAt(s, s.handles[h].slot);
  }

  lemma RetireLeaves(s: State, h: nat)
    requires Reachable(s) && AllRest(s) && Enabled(s, Retire(h))
    ensures var s1 := RetireEffect(s, h);
            && Reachable(s1) && AllRest(s1) && MemoryKept(s, s1)
            && s1 == s.(handles := s.handles[h := Dying(s.handles[h].slot, s.handles[h].inc)],
                        space := s1.space, subjectOf := s1.subjectOf)
            && s1.subjectOf == s.subjectOf - {s.handles[h].key}
            && (s1.space.pool == s.space.pool || s1.space.pool == s.space.pool + [s.handles[h].slot])
  {
    ReachableInv(s);
    var s1 := RetireEffect(s, h);
    DoReaches(s, Retire(h));
    RetireSince(s, h);
    forall j | 0 <= j < |s1.protos| ensures RestsAt(s1, j) { assert RestsAt(s, j); }
  }

  lemma RetiredLost(s: State, s1: State, s': State, h: nat)
    requires Shape(s) && Shape(s1) && h < |s.handles| && Lost(s1, s', h)
    requires s1 == s.(handles := s1.handles, space := s1.space, subjectOf := s1.subjectOf) && MemoryKept(s, s1)
    requires |s1.handles| == |s.handles| && s1.handles == s.handles[h := s1.handles[h]]
    requires forall j :: j in s.space.pool ==> j in s1.space.pool
    ensures Lost(s, s', h)
  {
    forall j | 0 <= j < |s.protos| ensures KeptBut(s, s', h, j) { assert KeptBut(s1, s', h, j); }
  }

  lemma RetiredRefines(x: Client, m: Model, names: seq<Name>, key: Key, h: nat, s': State)
    requires RefinesAs(x, m, names) && key in m.keys && key in x.life.subjectOf && x.life.subjectOf[key] == h
    requires Lost(x.life, s', h) && x.life.handles[h].Subject? && s'.subjectOf == x.life.subjectOf - {key}
    ensures RefinesAs(x.(life := s'), Retired(m, key), names)
  {
    RetiredKeys(x.life, s', h, m, names, key);
    RetiredEpochs(m, names, key);
    SubjectLost(x.life, s', h, m, Retired(m, key), names, x.ids);
    LostSlots(x.life, s', h, m, Retired(m, key), names);
  }

  lemma ModelRetires(m: Model, key: Key)
    ensures ModelStep(m, RetireKey(key)) == if key in m.keys then (Retired(m, key), Accepted) else (m, Skipped)
  {
  }

  lemma RetireRefines(x: Client, m: Model, key: Key)
    requires Refines(x, m)
    ensures RetireOp(x, key).1 == ModelStep(m, RetireKey(key)).1
    ensures Refines(RetireOp(x, key).0, ModelStep(m, RetireKey(key)).0)
  {
    var names :| RefinesAs(x, m, names);
    assert KeyMatches(x.life, m, names, key);
    ModelRetires(m, key);
    if key in m.keys {
      var h := x.life.subjectOf[key];
      SlotsRest(x.life, m, names);
      RetireRuns(x.life, h, key);
      RetiredRefines(x, m, names, key, h, Do(Do(x.life, Retire(h)), Release(h)));
    }
  }
}
