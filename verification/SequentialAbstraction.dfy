/** How a client stands for the reference model. */
module SequentialAbstraction {
  // The global incarnations of slots are named by a key and the epoch of that key.

  import opened Options
  import opened SlotMemory
  import opened Registry
  import opened Space
  import opened Lifecycle
  import opened LifecycleInvariant
  import opened ModelSpec
  import opened Sequential
  import opened LifecycleHistory
  import P = SlotProtocol

  /** A key and one of its epochs; incarnation `n` is known as `names[n]`. */
  type Name = (Key, nat)

  function NameOf(names: seq<Name>, n: nat): Name {
    if n < |names| then names[n] else (0, 0)
  }

  /** The key has had this epoch. */
  predicate Past(m: Model, name: Name) {
    name.0 in m.epochs && name.1 <= m.epochs[name.0]
  }

  predicate NamesOk(m: Model, names: seq<Name>) {
    && (forall a, b :: 0 <= a < b < |names| ==> names[a] != names[b])
    && (forall a :: 0 <= a < |names| ==> Past(m, names[a]))
  }

  predicate EpochsOk(m: Model) {
    && (forall name :: name in m.retired ==> Past(m, name))
    && (forall r :: r in m.registrations ==> Past(m, (r.key, r.epoch)))
    && (forall k :: k in m.keys ==> k in m.epochs && m.keys[k].epoch == m.epochs[k])
  }

  /** The live epoch of `k` is the incarnation that the subject listed under `k` captured. */
  predicate KeyMatches(s: State, m: Model, names: seq<Name>, k: Key) {
    && (k in m.keys <==> k in s.subjectOf)
    && (k in m.keys ==>
          && s.subjectOf[k] < |s.handles|
          && s.handles[s.subjectOf[k]].Subject?
          && NameOf(names, s.handles[s.subjectOf[k]].inc) == (k, m.keys[k].epoch))
  }

  function PublishedBy(s: State, n: nat): Option<Outcome> {
    if n in s.published then Some(s.published[n]) else None
  }

  predicate OutcomeMatches(s: State, m: Model, names: seq<Name>, n: nat) {
    n < |names| ==> OutcomeOf(m, names[n].0, names[n].1) == PublishedBy(s, n)
  }

  /** The client's handle `id` is what the model says it is. */
  predicate HandleMatches(s: State, names: seq<Name>, h: nat, handle: ModelHandle) {
    && h < |s.handles|
    && (match s.handles[h]
        case Observation(i, inc) =>
          i < |s.protos| && handle == ObservationOf(NameOf(names, inc).0, NameOf(names, inc).1)
        case Future(i, inc, f) =>
          && i < |s.protos|
          && f < |s.protos[i].futures|
          && (s.protos[i].futures[f].pc.FutIdle? || s.protos[i].futures[f].pc.FutReady?)
          && handle == FutureOf(NameOf(names, inc).0, NameOf(names, inc).1, s.protos[i].futures[f].wakers)
        case Gone => handle.Dropped?
        case _ => false)
  }

  /** Every handle is a subject, or gone, or one of the client's. */
  predicate Accounted(s: State, ids: seq<nat>, h: nat) {
    h < |s.handles| ==> s.handles[h].Subject? || s.handles[h].Gone? || h in ids
  }

  ghost predicate HandlesMatch(s: State, m: Model, names: seq<Name>, ids: seq<nat>) {
    && |ids| == |m.handles|
    && (forall a, b :: 0 <= a < b < |ids| ==> ids[a] != ids[b])
    && (forall id {:trigger ids[id]} :: 0 <= id < |ids| ==> HandleMatches(s, names, ids[id], m.handles[id]))
    && (forall h: nat {:trigger Accounted(s, ids, h)} :: Accounted(s, ids, h))
  }

  /** Between operations nothing runs on a slot. */
  ghost predicate Resting(p: P.State) {
    && p.lock.None? && p.threads == []
    && (forall c :: 0 <= c < |p.calls| ==> p.calls[c].pc.RegReturned?)
    && (forall f :: 0 <= f < |p.futures| ==> !P.FutureBusy(p.futures[f].pc))
    && !P.CompleterBusy(p.completer)
  }

  predicate DirectMatches(p: P.State, m: Model, name: Name, w: WakerId) {
    w in p.directs <==> Registered(name.0, name.1, w) in m.registrations
  }

  /** A slot in use rests, and its direct registrations are those of its epoch. */
  ghost predicate SlotMatches(s: State, m: Model, names: seq<Name>, i: SlotId)
    requires Shape(s) && i < |s.protos|
  {
    s.space.strong[i] > 0 ==>
      && Resting(s.protos[i])
      && (i !in s.space.pool ==> forall w :: DirectMatches(s.protos[i], m, NameOf(names, s.incs[i]), w))
  }

  ghost predicate SlotsMatch(s: State, m: Model, names: seq<Name>)
    requires Shape(s)
  {
    forall i {:trigger SlotMatches(s, m, names, i)} :: 0 <= i < |s.protos| ==> SlotMatches(s, m, names, i)
  }

  ghost predicate KeysMatch(s: State, m: Model, names: seq<Name>) {
    forall k: Key {:trigger KeyMatches(s, m, names, k)} :: KeyMatches(s, m, names, k)
  }

  ghost predicate OutcomesMatch(s: State, m: Model, names: seq<Name>) {
    forall n: nat {:trigger OutcomeMatches(s, m, names, n)} :: OutcomeMatches(s, m, names, n)
  }

  /** The client `x` stands for the model state `m`, its incarnations named by `names`. */
  ghost predicate RefinesAs(x: Client, m: Model, names: seq<Name>) {
    var s := x.life;
    && Reachable(s) && !s.closed && |names| == s.nextInc
    && NamesOk(m, names) && EpochsOk(m)
    && KeysMatch(s, m, names)
    && OutcomesMatch(s, m, names)
    && HandlesMatch(s, m, names, x.ids)
    && SlotsMatch(s, m, names)
  }

  /** The client `x` stands for the model state `m`. */
  ghost predicate Refines(x: Client, m: Model) {
    exists names :: RefinesAs(x, m, names)
  }

  // ---- What a handle knows of its slot ------------------------------------------------------------------

  lemma LiveSlot(s: State, m: Model, names: seq<Name>, h: nat)
    requires Reachable(s) && SlotsMatch(s, m, names) && h < |s.handles| && Current(s.handles[h])
    ensures var i := s.handles[h].slot; var p := s.protos[i];
            && s.space.strong[i] > 0 && i !in s.space.pool
            && s.handles[h].inc == s.incs[i] && s.incs[i] < s.nextInc && HandleOk(s, h)
            && Resting(p) && P.Inv(p)
            && (p.mem.word.completed <==> s.incs[i] in s.published)
            && (p.mem.word.completed <==> p.completer.Done?)
            && (p.mem.word.completed ==> p.mem.cell == Some(s.published[s.incs[i]]))
            && forall w :: DirectMatches(p, m, NameOf(names, s.incs[i]), w)
  {
    ReachableInv(s);
    var i := s.handles[h].slot;
    RefsPositive(s.handles, h, i);
    assert SlotOk(s, i) && SlotMatches(s, m, names, i) && HandleOk(s, h);
  }

  /** The slot of a current handle obeys the slot protocol. */
  lemma ProtocolHolds(s: State, h: nat)
    requires Reachable(s) && h < |s.handles| && Current(s.handles[h])
    ensures P.Inv(s.protos[s.handles[h].slot])
  {
    ReachableInv(s);
    RefsPositive(s.handles, h, s.handles[h].slot);
    assert SlotOk(s, s.handles[h].slot);
  }

  /** Two handles speak of the same epoch exactly if they refer to the same slot. */
  lemma SameSlot(s: State, m: Model, names: seq<Name>, g: nat, h: nat)
    requires Shape(s) && IncInv(s) && NamesOk(m, names) && |names| == s.nextInc
    requires g < |s.handles| && Current(s.handles[g]) && h < |s.handles| && Current(s.handles[h])
    ensures NameOf(names, s.handles[g].inc) == NameOf(names, s.handles[h].inc)
            <==> s.handles[g].slot == s.handles[h].slot
  {
  }

  /** Handle `g` looks from `s'` as it did from `s`. */
  predicate HandleFramed(s: State, s': State, g: nat)
    requires Shape(s) && g < |s.handles|
  {
    && g < |s'.handles| && s'.handles[g] == s.handles[g]
    && (s.handles[g].Observation? ==> s.handles[g].slot < |s'.protos|)
    && (s.handles[g].Future? && s.handles[g].id < |s.protos[s.handles[g].slot].futures| ==>
          && s.handles[g].slot < |s'.protos|
          && s.handles[g].id < |s'.protos[s.handles[g].slot].futures|
          && s'.protos[s.handles[g].slot].futures[s.handles[g].id]
              == s.protos[s.handles[g].slot].futures[s.handles[g].id])
  }

  /** The model's handles and the client's, when only those through `h` (number `id`) changed. */
  lemma OneHandleChanged(s: State, s': State, m: Model, m': Model, names: seq<Name>, ids: seq<nat>, id: nat)
    requires Shape(s) && HandlesMatch(s, m, names, ids) && id < |ids|
    requires |s'.handles| == |s.handles| && |m'.handles| == |m.handles|
    requires forall g {:trigger HandleFramed(s, s', g)} ::
            0 <= g < |s.handles| && g != ids[id] ==> HandleFramed(s, s', g)
    requires forall k :: 0 <= k < |ids| && k != id ==> m'.handles[k] == m.handles[k]
    requires HandleMatches(s', names, ids[id], m'.handles[id])
    ensures HandlesMatch(s', m', names, ids)
  {
    forall k | 0 <= k < |ids| ensures HandleMatches(s', names, ids[k], m'.handles[k]) {
      if k != id {
        assert HandleMatches(s, names, ids[k], m.handles[k]);
        assert HandleFramed(s, s', ids[k]);
      }
    }
    forall g: nat ensures Accounted(s', ids, g) {
      assert Accounted(s, ids, g);
      if g < |s.handles| && g != ids[id] {
        assert HandleFramed(s, s', g);
      }
    }
  }
}
