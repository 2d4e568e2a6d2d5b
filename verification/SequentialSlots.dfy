/**
 `register_waker` and `poll` by the only thread: the operation runs its own atomic steps on one
 slot, from the first to the last, and changes nothing but that slot. The model's handle or its
 set of registrations follows, and everything else that the correspondence says is as before.
*/
module SequentialSlots {
  import opened Options
  import opened Registry
  import opened Space
  import opened Lifecycle
  import opened LifecycleInvariant
  import opened LifecycleHistory
  import opened SlotAlone
  import opened ModelSpec
  import opened Sequential
  import opened SequentialAbstraction
  import opened SequentialRuns
  import P = SlotProtocol

  // ---- Operations on one slot ----------------------------------------------------------------------------

  /** The model changed its handles and registrations only. */
  predicate SameEpochs(m: Model, m': Model) {
    m'.keys == m.keys && m'.epochs == m.epochs && m'.retired == m.retired
  }

  /** The future `f` of slot state `p` may have changed on the way to `q`, and no other. */
  predicate OnlyFuture(p: P.State, q: P.State, f: nat) {
    && |q.futures| == |p.futures|
    && forall g :: 0 <= g < |p.futures| && g != f ==> q.futures[g] == p.futures[g]
  }

  ghost predicate SameRegistrations(m: Model, m': Model, but: Name) {
    forall r: Registered {:trigger r in m'.registrations} {:trigger r in m.registrations} ::
      (r.key, r.epoch) != but ==> (r in m'.registrations <==> r in m.registrations)
  }

  lemma SlotsAfter(s: State, m: Model, m': Model, names: seq<Name>, i: SlotId, q: P.State)
    requires Reachable(s) && NamesOk(m, names) && |names| == s.nextInc && SlotsMatch(s, m, names)
    requires i < |s.protos| == |s.incs| && Resting(q) && SameRegistrations(m, m', NameOf(names, s.incs[i]))
    requires forall w :: DirectMatches(q, m', NameOf(names, s.incs[i]), w)
    requires Shape(Stepped(s, i, q))
    ensures SlotsMatch(Stepped(s, i, q), m', names)
  {
    ReachableInv(s);
    var s' := Stepped(s, i, q);
    forall j | 0 <= j < |s'.protos| ensures SlotMatches(s', m', names, j) {
      assert SlotMatches(s, m, names, j);
      if j != i && s.space.strong[j] > 0 && j !in s.space.pool {
        forall w ensures DirectMatches(s'.protos[j], m', NameOf(names, s.incs[j]), w) {
          assert DirectMatches(s.protos[j], m, NameOf(names, s.incs[j]), w);
        }
      }
    }
  }

  lemma SameKeysMatch(s: State, s': State, m: Model, m': Model, names: seq<Name>)
    requires KeysMatch(s, m, names) && OutcomesMatch(s, m, names) && SameEpochs(m, m')
    requires s'.handles == s.handles && s'.subjectOf == s.subjectOf && s'.published == s.published
    ensures KeysMatch(s', m', names) && OutcomesMatch(s', m', names)
  {
    forall k: Key ensures KeyMatches(s', m', names, k) { assert KeyMatches(s, m, names, k); }
    forall n: nat ensures OutcomeMatches(s', m', names, n) { assert OutcomeMatches(s, m, names, n); }
  }

  /** A change of slot `i` that is no change of a future but that of handle `h` leaves the other handles as they
      looked. */
  lemma SlotFrames(s: State, h: nat, i: SlotId, q: P.State, f: nat)
    requires Shape(s) && HandlesOk(s) && i < |s.protos| && OnlyFuture(s.protos[i], q, f)
    requires f < |q.futures| ==> s.protos[i].futures[f].via == h || q.futures[f] == s.protos[i].futures[f]
    ensures forall g {:trigger HandleFramed(s, Stepped(s, i, q), g)} ::
            0 <= g < |s.handles| && g != h ==> HandleFramed(s, Stepped(s, i, q), g)
  {
    forall g | 0 <= g < |s.handles| && g != h ensures HandleFramed(s, Stepped(s, i, q), g) {
      assert HandleOk(s, g);
    }
  }

  lemma SlotFramesHold(s: State, h: nat, i: SlotId, q: P.State, f: nat)
    requires Reachable(s) && i < |s.protos| && OnlyFuture(s.protos[i], q, f)
    requires f < |q.futures| ==> s.protos[i].futures[f].via == h || q.futures[f] == s.protos[i].futures[f]
    ensures forall g {:trigger HandleFramed(s, Stepped(s, i, q), g)} ::
            0 <= g < |s.handles| && g != h ==> HandleFramed(s, Stepped(s, i, q), g)
  {
    ReachableInv(s);
    SlotFrames(s, h, i, q, f);
  }

  /** An operation through the client's handle `id` that changes one slot's protocol state only. */
  lemma SlotMoves(x: Client, m: Model, names: seq<Name>, id: nat, i: SlotId, q: P.State, f: nat, m': Model)
    requires RefinesAs(x, m, names) && id < |x.ids| && x.ids[id] < |x.life.handles|
            && Current(x.life.handles[x.ids[id]])
    requires i == x.life.handles[x.ids[id]].slot
    requires SameEpochs(m, m') && |m'.handles| == |m.handles| && EpochsOk(m')
    requires forall k :: 0 <= k < |x.ids| && k != id ==> m'.handles[k] == m.handles[k]
    requires Reachable(Stepped(x.life, i, q)) && Resting(q) && OnlyFuture(x.life.protos[i], q, f)
    requires f < |q.futures| ==>
               x.life.protos[i].futures[f].via == x.ids[id] || q.futures[f] == x.life.protos[i].futures[f]
    requires SameRegistrations(m, m', NameOf(names, x.life.incs[i]))
    requires forall w :: DirectMatches(q, m', NameOf(names, x.life.incs[i]), w)
    requires HandleMatches(Stepped(x.life, i, q), names, x.ids[id], m'.handles[id])
    ensures RefinesAs(x.(life := Stepped(x.life, i, q)), m', names)
  {
    var s, s' := x.life, Stepped(x.life, i, q);
    SlotsAfter(s, m, m', names, i, q);
    SameKeysMatch(s, s', m, m', names);
    SlotFramesHold(s, x.ids[id], i, q, f);
    OneHandleChanged(s, s', m, m', names, x.ids, id);
  }

  /** An operation started through `h` and run to its end changes one slot's protocol state, as if it ran on the slot
      alone. */
  lemma RunsAlone(s: State, h: nat, i: SlotId, p: P.State, start: P.Step, step: P.Step, n: nat)
    requires Reachable(s) && Shape(s) && h < |s.handles| && !s.handles[h].Gone? && i == s.handles[h].slot
            && p == s.protos[i]
    requires !start.StartComplete? && Authorises(p, h, s.handles[h], start) && P.Enabled(p, start)
    requires Continues(step) && Authorises(P.Apply(p, start), h, s.handles[h], step)
    ensures var q := Alone(P.Apply(p, start), step, n);
            && Finish(Do(s, SlotStep(h, start)), h, step, n) == Stepped(s, i, q)
            && Reachable(Stepped(s, i, q))
  {
    var p1 := P.Apply(p, start);
    var s1 := Stepped(s, i, p1);
    assert Do(s, SlotStep(h, start)) == s1;
    FinishIsAlone(s1, h, i, p1, step, n);
    SteppedTwice(s, i, p1, Alone(p1, step, n));
    DoReaches(s, SlotStep(h, start));
    FinishReaches(s1, h, step, n);
  }

  /** What `register_waker` does to its slot, and its answer. */
  lemma RegisterWakerRuns(x: Client, id: nat, w: WakerId, h: nat, i: SlotId, p: P.State) returns (q: P.State)
    requires Reachable(x.life) && Observes(x, id) && h == x.ids[id] && i == x.life.handles[h].slot
            && p == x.life.protos[i]
    requires Resting(p)
    ensures RegisterWakerOp(x, id, w) == (x.(life := Stepped(x.life, i, q)), Flag(p.mem.word.completed))
    ensures Reachable(Stepped(x.life, i, q)) && Resting(q) && q.futures == p.futures
    ensures q.directs == p.directs + if p.mem.word.completed then {} else {w}
  {
    ProtocolHolds(x.life, h);
    var c := |p.calls|;
    q := Alone(P.Apply(p, P.StartCall(w, h)), P.RunCall(c), 6);
    RunsAlone(x.life, h, i, p, P.StartCall(w, h), P.RunCall(c), 6);
    CallAlone(p, w, h);
  }

  /** Registering `w` directly, or nothing, through the client's observation `id`. */
  lemma CallMoves(x: Client, m: Model, names: seq<Name>, id: nat, i: SlotId, inc: nat, q: P.State, more: set<WakerId>)
    requires RefinesAs(x, m, names) && id < |x.ids| && x.ids[id] < |x.life.handles|
    requires x.life.handles[x.ids[id]] == Observation(i, inc)
    requires Reachable(Stepped(x.life, i, q)) && Resting(q) && q.futures == x.life.protos[i].futures
    requires q.directs == x.life.protos[i].directs + more
    ensures RefinesAs(x.(life := Stepped(x.life, i, q)),
                    m.(registrations := m.registrations + RegisteredUnder(NameOf(names, inc), more)), names)
  {
    var s, h := x.life, x.ids[id];
    var m' := m.(registrations := m.registrations + RegisteredUnder(NameOf(names, inc), more));
    LiveSlot(s, m, names, h);
    assert Past(m, NameOf(names, inc));
    assert HandleMatches(s, names, h, m.handles[id]);
    forall v ensures DirectMatches(q, m', NameOf(names, s.incs[i]), v) {
      assert DirectMatches(s.protos[i], m, NameOf(names, s.incs[i]), v);
    }
    SlotMoves(x, m, names, id, i, q, |q.futures|, m');
  }

  function RegisteredUnder(name: Name, wakers: set<WakerId>): set<Registered> {
    set w | w in wakers :: Registered(name.0, name.1, w)
  }

  lemma ModelRegisters(m: Model, id: nat, w: WakerId, name: Name)
    requires id < |m.handles| && m.handles[id] == ObservationOf(name.0, name.1)
    ensures ModelStep(m, RegisterWaker(id, w)) ==
            (m.(registrations := m.registrations
                + RegisteredUnder(name, if OutcomeOf(m, name.0, name.1).Some? then {} else {w})),
             Flag(OutcomeOf(m, name.0, name.1).Some?))
  {
    assert RegisteredUnder(name, {w}) == {Registered(name.0, name.1, w)};
    assert m.registrations + RegisteredUnder(name, {}) == m.registrations;
  }

  lemma RegisterWakerRefines(x: Client, m: Model, id: nat, w: WakerId)
    requires Refines(x, m) && Observes(x, id)
    ensures id < |m.handles| && m.handles[id].ObservationOf?
    ensures RegisterWakerOp(x, id, w).1 == ModelStep(m, RegisterWaker(id, w)).1
    ensures Refines(RegisterWakerOp(x, id, w).0, ModelStep(m, RegisterWaker(id, w)).0)
  {
    var names :| RefinesAs(x, m, names);
    var s, h := x.life, x.ids[id];
    var Observation(i, inc) := s.handles[h];
    var p := s.protos[i];
    assert HandleMatches(s, names, h, m.handles[id]);
    LiveSlot(s, m, names, h);
    var q := RegisterWakerRuns(x, id, w, h, i, p);
    assert OutcomeMatches(s, m, names, inc);
    ModelRegisters(m, id, w, NameOf(names, inc));
    CallMoves(x, m, names, id, i, inc, q, if p.mem.word.completed then {} else {w});
  }

  /** What a poll that runs alone makes of a slot at rest. */
  lemma PollLeaves(p: P.State, f: nat, w: WakerId) returns (q: P.State)
    requires P.Inv(p) && Resting(p) && f < |p.futures| && (p.futures[f].pc.FutIdle? || p.futures[f].pc.FutReady?)
    ensures P.Enabled(p, P.StartPoll(f, w)) && q == Alone(P.Apply(p, P.StartPoll(f, w)), P.RunFuture(f), 9)
    ensures Resting(q) && OnlyFuture(p, q, f) && q.directs == p.directs
    ensures q.futures[f] == (if p.mem.word.completed then p.futures[f].(pc := P.FutReady(p.mem.cell))
                             else p.futures[f].(pc := P.FutIdle, wakers := Recorded(p.futures[f].wakers, w)))
  {
    q := Alone(P.Apply(p, P.StartPoll(f, w)), P.RunFuture(f), 9);
    PollAlone(p, f, w);
  }

  lemma PollOpIs(x: Client, id: nat, w: WakerId, h: nat, i: SlotId, f: nat, s': State)
    requires Awaits(x, id) && h == x.ids[id] && i == x.life.handles[h].slot && f == x.life.handles[h].id
    requires s' == Finish(Do(x.life, SlotStep(h, P.StartPoll(f, w))), h, P.RunFuture(f), 9)
    requires i < |s'.protos| && f < |s'.protos[i].futures|
    ensures var pc := s'.protos[i].futures[f].pc;
            PollOp(x, id, w)
            == (x.(life := s'), if pc.FutReady? && pc.result.Some? then Ready(pc.result.value) else NotReady)
  {
  }

  /** What a poll does to its slot, and its answer. */
  lemma PollRuns(x: Client, id: nat, w: WakerId, h: nat, i: SlotId, f: nat, p: P.State) returns (q: P.State)
    requires Reachable(x.life) && Awaits(x, id) && h == x.ids[id] && i == x.life.handles[h].slot
            && p == x.life.protos[i]
    requires f == x.life.handles[h].id && Resting(p)
    requires f < |p.futures| && (p.futures[f].pc.FutIdle? || p.futures[f].pc.FutReady?)
    requires p.mem.word.completed ==> p.mem.cell.Some?
    ensures PollOp(x, id, w)
            == (x.(life := Stepped(x.life, i, q)), if p.mem.word.completed then Ready(p.mem.cell.value) else NotReady)
    ensures Reachable(Stepped(x.life, i, q)) && Resting(q) && OnlyFuture(p, q, f) && q.directs == p.directs
    ensures q.futures[f] == (if p.mem.word.completed then p.futures[f].(pc := P.FutReady(p.mem.cell))
                             else p.futures[f].(pc := P.FutIdle, wakers := Recorded(p.futures[f].wakers, w)))
  {
    ProtocolHolds(x.life, h);
    q := PollLeaves(p, f, w);
    RunsAlone(x.life, h, i, p, P.StartPoll(f, w), P.RunFuture(f), 9);
    PollOpIs(x, id, w, h, i, f, Stepped(x.life, i, q));
  }

  /** A poll of the client's future `id` leaves it the model's future `future`. */
  lemma FutureMoves(x: Client, m: Model, names: seq<Name>, id: nat, i: SlotId, inc: nat, q: P.State, f: nat,
      future: ModelHandle)
    requires RefinesAs(x, m, names) && id < |x.ids| && x.ids[id] < |x.life.handles|
    requires x.life.handles[x.ids[id]] == Future(i, inc, f)
    requires Reachable(Stepped(x.life, i, q)) && Resting(q) && OnlyFuture(x.life.protos[i], q, f) && f < |q.futures|
    requires q.directs == x.life.protos[i].directs
    requires HandleMatches(Stepped(x.life, i, q), names, x.ids[id], future)
    ensures RefinesAs(x.(life := Stepped(x.life, i, q)), m.(handles := m.handles[id := future]), names)
  {
    var s, h := x.life, x.ids[id];
    var m' := m.(handles := m.handles[id := future]);
    LiveSlot(s, m, names, h);
    assert HandleOk(s, h);
    forall v ensures DirectMatches(q, m', NameOf(names, s.incs[i]), v) {
      assert DirectMatches(s.protos[i], m, NameOf(names, s.incs[i]), v);
    }
    SlotMoves(x, m, names, id, i, q, f, m');
  }

  lemma ModelPolls(m: Model, id: nat, w: WakerId, name: Name, wakers: seq<WakerId>)
    requires id < |m.handles| && m.handles[id] == FutureOf(name.0, name.1, wakers)
    ensures ModelStep(m, PollFuture(id, w)) ==
            if OutcomeOf(m, name.0, name.1).Some? then
                (m.(handles := m.handles[id := m.handles[id]]), Ready(OutcomeOf(m, name.0, name.1).value))
            else (m.(handles := m.handles[id := FutureOf(name.0, name.1, Recorded(wakers, w))]), NotReady)
  {
    assert m.handles[id := m.handles[id]] == m.handles;
  }

  lemma PollRefines(x: Client, m: Model, id: nat, w: WakerId)
    requires Refines(x, m) && Awaits(x, id)
    ensures id < |m.handles| && m.handles[id].FutureOf?
    ensures PollOp(x, id, w).1 == ModelStep(m, PollFuture(id, w)).1
    ensures Refines(PollOp(x, id, w).0, ModelStep(m, PollFuture(id, w)).0)
  {
    var names :| RefinesAs(x, m, names);
    var s, h := x.life, x.ids[id];
    var Future(i, inc, f) := s.handles[h];
    var p := s.protos[i];
    assert HandleMatches(s, names, h, m.handles[id]);
    LiveSlot(s, m, names, h);
    var q := PollRuns(x, id, w, h, i, f, p);
    assert OutcomeMatches(s, m, names, inc);
    var name := NameOf(names, inc);
    ModelPolls(m, id, w, name, p.futures[f].wakers);
    if p.mem.word.completed {
      FutureMoves(x, m, names, id, i, inc, q, f, m.handles[id]);
    } else {
      FutureMoves(x, m, names, id, i, inc, q, f, FutureOf(name.0, name.1, Recorded(p.futures[f].wakers, w)));
    }
  }
}
