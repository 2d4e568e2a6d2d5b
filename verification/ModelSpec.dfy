/**
 The sequential reference model of `tests/model.rs`: per key a live epoch, per retired epoch an
 outcome, and the handles as pairs of key and epoch. It knows nothing of slots, counts, pools,
 generations or registries.
*/
module ModelSpec {
  import opened Options
  import opened SlotMemory
  import opened Registry
  import opened Space

  datatype KeyState = KeyState(epoch: nat, outcome: Option<Outcome>)

  datatype ModelHandle =
    | ObservationOf(key: Key, epoch: nat)
    | FutureOf(key: Key, epoch: nat, wakers: seq<WakerId>)
    | Dropped

  /** A direct registration outlives the observation it was made through. */
  datatype Registered = Registered(key: Key, epoch: nat, waker: WakerId)

  datatype Model = Model(
    keys: map<Key, KeyState>,
    epochs: map<Key, nat>,
    retired: map<(Key, nat), Option<Outcome>>,
    handles: seq<ModelHandle>,
    registrations: set<Registered>)

  const EMPTY_MODEL := Model(map[], map[], map[], [], {})

  datatype Op =
    | Register(key: Key)
    | Complete(key: Key, v: Outcome)
    | ObserveKey(key: Key)
    | TryGet(id: nat)
    | RegisterWaker(id: nat, w: WakerId)
    | IntoOutcome(id: nat)
    | RetireKey(key: Key)
    | DropObservation(id: nat)
    | NewFuture(id: nat)
    | PollFuture(id: nat, w: WakerId)
    | CancelFuture(id: nat)

  datatype Result =
    | Skipped                        // the operation does not apply
    | Accepted
    | Rejected
    | Value(outcome: Option<Outcome>)
    | Flag(completed: bool)
    | Ready(v: Outcome)
    | NotReady
    | Woken(wakes: multiset<WakerId>)

  /** The outcome visible to an observation of an epoch, live or retired. */
  function OutcomeOf(m: Model, key: Key, epoch: nat): Option<Outcome> {
    if key in m.keys && m.keys[key].epoch == epoch then m.keys[key].outcome
    else if (key, epoch) in m.retired then m.retired[(key, epoch)]
    else None
  }

  predicate IsOf(handle: ModelHandle, key: Key, epoch: nat) {
    !handle.Dropped? && handle.key == key && handle.epoch == epoch
  }

  function HandlesOf(handles: seq<ModelHandle>, key: Key, epoch: nat): nat {
    if handles == [] then 0
    else (if IsOf(handles[0], key, epoch) then 1 else 0) + HandlesOf(handles[1..], key, epoch)
  }

  /** The references that pin the slot of an epoch: two while it is retained, one for each handle. */
  function SlotRefs(m: Model, key: Key, epoch: nat): nat {
    (if key in m.keys && m.keys[key].epoch == epoch then 2 else 0) + HandlesOf(m.handles, key, epoch)
  }

  function FutureWakers(handles: seq<ModelHandle>, key: Key, epoch: nat): set<WakerId> {
    set id, w | 0 <= id < |handles| && handles[id].FutureOf? && IsOf(handles[id], key, epoch)
        && w in handles[id].wakers :: w
  }

  function DirectWakers(registrations: set<Registered>, key: Key, epoch: nat): set<WakerId> {
    set r | r in registrations && r.key == key && r.epoch == epoch :: r.waker
  }

  /** Completion fires, once each, the wakers of every live future of the epoch and of every direct registration on
      it. */
  function ExpectedWakes(m: Model, key: Key, epoch: nat): multiset<WakerId> {
    multiset(FutureWakers(m.handles, key, epoch) + DirectWakers(m.registrations, key, epoch))
  }

  function NextEpoch(m: Model, key: Key): nat {
    if key in m.epochs then m.epochs[key] + 1 else 0
  }

  function ModelStep(m: Model, op: Op): (Model, Result) {
    match op
    case Register(key) =>
      if key in m.keys then (m, Rejected)
      else (m.(epochs := m.epochs[key := NextEpoch(m, key)], keys := m.keys[key := KeyState(NextEpoch(m, key), None)]),
          Accepted)
    case Complete(key, v) =>
      if key !in m.keys || m.keys[key].outcome.Some? then (m, Skipped)
      else (m.(keys := m.keys[key := m.keys[key].(outcome := Some(v))]),
          Woken(ExpectedWakes(m, key, m.keys[key].epoch)))
    case ObserveKey(key) =>
      if key in m.keys then (m.(handles := m.handles + [ObservationOf(key, m.keys[key].epoch)]), Accepted)
      else (m, Rejected)
    case TryGet(id) =>
      if id < |m.handles| && m.handles[id].ObservationOf? then
        (m, Value(OutcomeOf(m, m.handles[id].key, m.handles[id].epoch)))
      else (m, Skipped)
    case RegisterWaker(id, w) =>
      if id < |m.handles| && m.handles[id].ObservationOf? then
        var ObservationOf(key, epoch) := m.handles[id];
        if OutcomeOf(m, key, epoch).Some? then (m, Flag(true))
        else (m.(registrations := m.registrations + {Registered(key, epoch, w)}), Flag(false))
      else (m, Skipped)
    case IntoOutcome(id) =>
      if id < |m.handles| && m.handles[id].ObservationOf? then
        var ObservationOf(key, epoch) := m.handles[id];
        var m' := m.(handles := m.handles[id := Dropped]);
        (m', Value(if SlotRefs(m', key, epoch) == 0 then OutcomeOf(m, key, epoch) else None))
      else (m, Skipped)
    case RetireKey(key) =>
      if key in m.keys then
        (m.(keys := m.keys - {key}, retired := m.retired[(key, m.keys[key].epoch) := m.keys[key].outcome]), Accepted)
      else (m, Skipped)
    case DropObservation(id) =>
      if id < |m.handles| && m.handles[id].ObservationOf? then (m.(handles := m.handles[id := Dropped]), Accepted)
      else (m, Skipped)
    case NewFuture(id) =>
      if id < |m.handles| && m.handles[id].ObservationOf? then
        (m.(handles := m.handles[id := FutureOf(m.handles[id].key, m.handles[id].epoch, [])]), Accepted)
      else (m, Skipped)
    case PollFuture(id, w) =>
      if id < |m.handles| && m.handles[id].FutureOf? then
        var FutureOf(key, epoch, wakers) := m.handles[id];
        if OutcomeOf(m, key, epoch).Some? then (m, Ready(OutcomeOf(m, key, epoch).value))
        else (m.(handles := m.handles[id := FutureOf(key, epoch, if w in wakers then wakers else wakers + [w])]),
            NotReady)
      else (m, Skipped)
    case CancelFuture(id) =>
      if id < |m.handles| && m.handles[id].FutureOf? then (m.(handles := m.handles[id := Dropped]), Accepted)
      else (m, Skipped)
  }

  /** The answers of the model to a sequence of operations. */
  function ModelAnswers(m: Model, ops: seq<Op>): seq<Result>
    decreases |ops|
  {
    if ops == [] then []
    else
      var (m', r) := ModelStep(m, ops[0]);
      [r] + ModelAnswers(m', ops[1..])
  }
}
