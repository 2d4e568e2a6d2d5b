/** The single-threaded client lies on runs of the machine. */
module SequentialRuns {
  // So every theorem about runs of the concurrent machine is about the client too.

  import opened Lifecycle
  import opened LifecycleHistory
  import opened ModelSpec
  import opened Sequential
  import P = SlotProtocol

  lemma DoReaches(s: State, step: Step)
    requires Reachable(s)
    ensures Reachable(Do(s, step))
  {
    var run :| IsRun(run) && run[|run| - 1] == s;
    if Shape(s) && Enabled(s, step) {
      Extended(run, step);
      var longer := run + [Apply(s, step)];
      EndReaches(longer, Apply(s, step));
    }
  }

  lemma {:induction false} FinishReaches(s: State, h: nat, step: P.Step, n: nat)
    requires Reachable(s)
    ensures Reachable(Finish(s, h, step, n))
    decreases n
  {
    if n > 0 && Shape(s) && Enabled(s, SlotStep(h, step)) {
      DoReaches(s, SlotStep(h, step));
      FinishReaches(Apply(s, SlotStep(h, step)), h, step, n - 1);
    }
  }

  lemma StepReaches(x: Client, op: Op)
    requires Reachable(x.life)
    ensures Reachable(ClientStep(x, op).0.life)
  {
    forall s: State, h: nat, step: P.Step, n: nat | Reachable(s) ensures Reachable(Finish(s, h, step, n)) {
      FinishReaches(s, h, step, n);
    }
    forall s: State, step: Step | Reachable(s) ensures Reachable(Do(s, step)) {
      DoReaches(s, step);
    }
  }

  function ClientAfter(x: Client, ops: seq<Op>): Client
    decreases |ops|
  {
    if ops == [] then x else ClientAfter(ClientStep(x, ops[0]).0, ops[1..])
  }

  lemma {:induction false} AfterReaches(x: Client, ops: seq<Op>)
    requires Reachable(x.life)
    ensures Reachable(ClientAfter(x, ops).life)
    decreases |ops|
  {
    if ops != [] {
      StepReaches(x, ops[0]);
      AfterReaches(ClientStep(x, ops[0]).0, ops[1..]);
    }
  }

  /** Whatever operations one thread makes, the library is then in a state of some run of the concurrent machine. */
  lemma OneThreadIsARun(ops: seq<Op>)
    ensures exists run :: IsRun(run) && run[|run| - 1] == ClientAfter(NEW_CLIENT, ops).life
  {
    var run := [INITIAL];
    forall k: nat ensures StepAt(run, k) {}
    assert IsRun(run) && run[|run| - 1] == NEW_CLIENT.life;
    AfterReaches(NEW_CLIENT, ops);
  }
}
