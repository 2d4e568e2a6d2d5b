/** The library used by one thread. */
module Sequential {
  // Every public operation is the run of its own atomic steps, from the first to the last, on the
  // concurrent machine.

  import opened Options
  import opened SlotMemory
  import opened Registry
  import opened Space
  import opened Lifecycle
  import opened LifecycleInvariant
  import opened SlotAlone
  import opened ModelSpec
  import P = SlotProtocol

  /** The machine, and for each number that the client gave a handle, the handle. */
  datatype Client = Client(life: State, ids: seq<nat>)

  const NEW_CLIENT := Client(INITIAL, [])

  function Do(s: State, step: Step): (r: State)
    ensures r.space.nextGeneration <= s.space.nextGeneration + if step.NewSubject? then 1 else 0
  {
    if Shape(s) && Enabled(s, step) then Apply(s, step) else s
  }

  /** The protocol step `step` through handle `h`, until it has no further effect, at most `n` times. */
  function Finish(s: State, h: nat, step: P.Step, n: nat): (r: State)
    ensures r.space.nextGeneration <= s.space.nextGeneration
    decreases n
  {
    if n == 0 || !Shape(s) || !Enabled(s, SlotStep(h, step)) then s
    else Finish(Apply(s, SlotStep(h, step)), h, step, n - 1)
  }

  predicate Observes(x: Client, id: nat) {
    id < |x.ids| && x.ids[id] < |x.life.handles| && x.life.handles[x.ids[id]].Observation?
    && x.life.handles[x.ids[id]].slot < |x.life.protos|
  }

  predicate Awaits(x: Client, id: nat) {
    id < |x.ids| && x.ids[id] < |x.life.handles| && x.life.handles[x.ids[id]].Future?
    && x.life.handles[x.ids[id]].slot < |x.life.protos|
  }

  function CompleteOp(x: Client, key: Key, v: Outcome): (Client, Result) {
    var s := x.life;
    if key !in s.subjectOf || s.subjectOf[key] >= |s.handles| || !s.handles[s.subjectOf[key]].Subject?
       || s.handles[s.subjectOf[key]].completed || s.handles[s.subjectOf[key]].slot >= |s.protos| then (x, Skipped)
    else
      var h := s.subjectOf[key];
      var i := s.handles[h].slot;
      var s1 := Do(s, SlotStep(h, P.StartComplete(v)));
      var s2 := Finish(s1, h, P.RunCompleter(false), 5 + |s.protos[i].mem.registry|);
      (x.(life := s2), if i < |s2.protos| then Woken(multiset(s2.protos[i].fired)) else Skipped)
  }

  function RegisterWakerOp(x: Client, id: nat, w: WakerId): (Client, Result)
    requires Observes(x, id)
  {
    var h := x.ids[id];
    var i := x.life.handles[h].slot;
    var c := |x.life.protos[i].calls|;
    var s1 := Do(x.life, SlotStep(h, P.StartCall(w, h)));
    var s2 := Finish(s1, h, P.RunCall(c), 6);
    (x.(life := s2),
     if i < |s2.protos| && c < |s2.protos[i].calls| && s2.protos[i].calls[c].pc.RegReturned?
     then Flag(s2.protos[i].calls[c].pc.result) else Skipped)
  }

  function IntoOutcomeOp(x: Client, id: nat): (Client, Result)
    requires Observes(x, id)
  {
    var h := x.ids[id];
    var inc := x.life.handles[h].inc;
    var s1 := Do(x.life, Unwrap(h));
    if h < |s1.handles| && s1.handles[h].Unwrapped? then
      var s2 := Do(s1, Take(h));
      (x.(life := s2), Value(if inc in s2.taken then Some(s2.taken[inc]) else None))
    else (x.(life := Do(s1, Release(h))), Value(None))
  }

  function PollOp(x: Client, id: nat, w: WakerId): (Client, Result)
    requires Awaits(x, id)
  {
    var h := x.ids[id];
    var Future(i, _, f) := x.life.handles[h];
    var s1 := Do(x.life, SlotStep(h, P.StartPoll(f, w)));
    var s2 := Finish(s1, h, P.RunFuture(f), 9);
    (x.(life := s2),
     if i < |s2.protos| && f < |s2.protos[i].futures| && s2.protos[i].futures[f].pc.FutReady?
        && s2.protos[i].futures[f].pc.result.Some?
     then Ready(s2.protos[i].futures[f].pc.result.value) else NotReady)
  }

  function CancelOp(x: Client, id: nat): (Client, Result)
    requires Awaits(x, id)
  {
    var h := x.ids[id];
    var f := x.life.handles[h].id;
    var s1 := Do(x.life, SlotStep(h, P.StartDrop(f)));
    var s2 := Finish(s1, h, P.RunFuture(f), 3);
    (x.(life := Do(s2, Release(h))), Accepted)
  }

  function RetireOp(x: Client, key: Key): (Client, Result) {
    if key in x.life.subjectOf then
      var h := x.life.subjectOf[key];
      (x.(life := Do(Do(x.life, Retire(h)), Release(h))), Accepted)
    else (x, Skipped)
  }

  function ClientStep(x: Client, op: Op): (Client, Result) {
    match op
    case Register(key) =>
      var s' := Do(x.life, NewSubject(key));
      (x.(life := s'), if |s'.handles| > |x.life.handles| then Accepted else Rejected)
    case Complete(key, v) => CompleteOp(x, key, v)
    case ObserveKey(key) =>
      var s' := Do(x.life, Observe(key));
      if |s'.handles| > |x.life.handles| then (Client(s', x.ids + [|x.life.handles|]), Accepted) else (x, Rejected)
    case TryGet(id) =>
      if Observes(x, id) then
        var mem := x.life.protos[x.life.handles[x.ids[id]].slot].mem;
        (x, Value(if mem.word.completed then mem.cell else None))
      else (x, Skipped)
    case RegisterWaker(id, w) => if Observes(x, id) then RegisterWakerOp(x, id, w) else (x, Skipped)
    case IntoOutcome(id) => if Observes(x, id) then IntoOutcomeOp(x, id) else (x, Skipped)
    case RetireKey(key) => RetireOp(x, key)
    case DropObservation(id) =>
      if Observes(x, id) then (x.(life := Do(x.life, Release(x.ids[id]))), Accepted) else (x, Skipped)
    case NewFuture(id) =>
      if Observes(x, id) then (x.(life := Do(x.life, IntoFuture(x.ids[id]))), Accepted) else (x, Skipped)
    case PollFuture(id, w) => if Awaits(x, id) then PollOp(x, id, w) else (x, Skipped)
    case CancelFuture(id) => if Awaits(x, id) then CancelOp(x, id) else (x, Skipped)
  }

  /** The library's answers to a sequence of operations. */
  function ClientAnswers(x: Client, ops: seq<Op>): seq<Result>
    decreases |ops|
  {
    if ops == [] then []
    else
      var (x', r) := ClientStep(x, ops[0]);
      [r] + ClientAnswers(x', ops[1..])
  }

  // ---- An operation that runs alone -------------------------------------------------------------------

  predicate Continues(step: P.Step) {
    step.RunFuture? || step.RunCall? || step.RunCompleter?
  }

  /** The handle that may run an operation may run it on. */
  lemma StaysAuthorised(p: P.State, h: nat, handle: Handle, step: P.Step)
    requires Continues(step) && Authorises(p, h, handle, step) && P.Enabled(p, step)
    ensures Authorises(P.Apply(p, step), h, handle, step)
  {
  }

  /** Handle `h` runs the operation that `step` continues. */
  predicate Operates(s: State, h: nat, step: P.Step)
    requires Shape(s)
  {
    && h < |s.handles| && !s.handles[h].Gone? && Continues(step)
    && Authorises(s.protos[s.handles[h].slot], h, s.handles[h], step)
  }

  lemma FinishUnrolls(s: State, h: nat, step: P.Step, n: nat)
    requires Shape(s) && Operates(s, h, step) && n > 0 && P.Enabled(s.protos[s.handles[h].slot], step)
    ensures var s1 := Stepped(s, s.handles[h].slot, P.Apply(s.protos[s.handles[h].slot], step));
            && Enabled(s, SlotStep(h, step)) && s1 == Apply(s, SlotStep(h, step))
            && Shape(s1) && Operates(s1, h, step)
            && Finish(s, h, step, n) == Finish(s1, h, step, n - 1)
  {
    StaysAuthorised(s.protos[s.handles[h].slot], h, s.handles[h], step);
  }

  lemma FinishStops(s: State, h: nat, step: P.Step, n: nat)
    requires Shape(s) && Operates(s, h, step) && (n == 0 || !P.Enabled(s.protos[s.handles[h].slot], step))
    ensures Finish(s, h, step, n) == s
  {
  }

  lemma AloneUnrolls(p: P.State, step: P.Step, n: nat)
    ensures n > 0 && P.Enabled(p, step) ==> Alone(p, step, n) == Alone(P.Apply(p, step), step, n - 1)
    ensures n == 0 || !P.Enabled(p, step) ==> Alone(p, step, n) == p
  {
  }

  /** `Finish` on the machine, seen as a change to one slot. */
  lemma {:induction false} FinishIsAlone(s: State, h: nat, i: SlotId, p: P.State, step: P.Step, n: nat)
    requires Shape(s) && Operates(s, h, step) && i == s.handles[h].slot && p == s.protos[i]
    ensures Finish(s, h, step, n) == Stepped(s, i, Alone(p, step, n))
    decreases n
  {
    AloneUnrolls(p, step, n);
    if n > 0 && P.Enabled(p, step) {
      var q := P.Apply(p, step);
      FinishUnrolls(s, h, step, n);
      FinishIsAlone(Stepped(s, i, q), h, i, q, step, n - 1);
      SteppedTwice(s, i, q, Alone(q, step, n - 1));
    } else {
      FinishStops(s, h, step, n);
      assert Stepped(s, i, p) == s;
    }
  }

  lemma SteppedTwice(s: State, i: SlotId, p: P.State, q: P.State)
    requires i < |s.protos|
    ensures Stepped(Stepped(s, i, p), i, q) == Stepped(s, i, q)
  {
  }
}
