/** The race to create a slot's registry. */
module LazyRegistry {
  // `waiters` loads the pointer; if it is null it allocates a box and tries to publish it by
  // compare-and-exchange; whoever loses frees its own box and uses the winner's. Any number of callers
  // race, step by step; the slot's final drop frees what was published.

  import opened Options

  type BoxId = nat

  datatype Caller =
    | Load
    | Allocate
    | Exchange(own: BoxId)
    | Reclaim(own: BoxId, actual: BoxId)
    | Returned(box: BoxId)

  /** History: boxes are numbered as they are allocated; `freed` says how often each was freed. */
  datatype State = State(
    pointer: Option<BoxId>,
    made: nat,
    freed: multiset<BoxId>,
    published: seq<BoxId>,
    callers: seq<Caller>,
    dropped: bool)

  const INITIAL := State(None, 0, multiset{}, [], [], false)

  datatype Step = Call | Run(c: nat) | FinalDrop

  /** The final drop waits for the last borrow of the slot to end; nothing follows it. */
  predicate Enabled(s: State, step: Step) {
    && !s.dropped
    && match step
       case Call => true
       case Run(c) => c < |s.callers| && !s.callers[c].Returned?
       case FinalDrop => forall c :: 0 <= c < |s.callers| ==> s.callers[c].Returned?
  }

  function At(s: State, c: nat, pc: Caller): State
    requires c < |s.callers|
  {
    s.(callers := s.callers[c := pc])
  }

  function CallerStep(s: State, c: nat): State
    requires c < |s.callers|
  {
    match s.callers[c]
    case Load => At(s, c, if s.pointer.Some? then Returned(s.pointer.value) else Allocate)
    case Allocate => At(s, c, Exchange(s.made)).(made := s.made + 1)
    case Exchange(own) =>
      if s.pointer.None? then At(s, c, Returned(own)).(pointer := Some(own), published := s.published + [own])
      else At(s, c, Reclaim(own, s.pointer.value))
    case Reclaim(own, actual) => At(s, c, Returned(actual)).(freed := s.freed + multiset{own})
    case Returned(_) => s
  }

  function Apply(s: State, step: Step): State
    requires Enabled(s, step)
  {
    match step
    case Call => s.(callers := s.callers + [Load])
    case Run(c) => CallerStep(s, c)
    case FinalDrop => s.(dropped := true, freed := s.freed + Held(s.pointer))
  }

  function Held(pointer: Option<BoxId>): multiset<BoxId> {
    if pointer.Some? then multiset{pointer.value} else multiset{}
  }

  // ---- Conservation of boxes -----------------------------------------------------------------------

  /** The caller allocated this box and has neither published nor freed it. */
  predicate Carries(caller: Caller, box: BoxId) {
    caller == Exchange(box) || (caller.Reclaim? && caller.own == box)
  }

  function InFlight(callers: seq<Caller>, box: BoxId): nat {
    if callers == [] then 0 else (if Carries(callers[0], box) then 1 else 0) + InFlight(callers[1..], box)
  }

  /** A box that was made is in one place: in flight, freed once, or published and not yet dropped. */
  predicate Placed(s: State, box: BoxId) {
    InFlight(s.callers, box) + s.freed[box] + (if !s.dropped && s.pointer == Some(box) then 1 else 0)
    == if box < s.made then 1 else 0
  }

  predicate CallerOk(s: State, c: nat)
    requires c < |s.callers|
  {
    match s.callers[c]
    case Reclaim(_, actual) => s.pointer == Some(actual)
    case Returned(box) => s.pointer == Some(box)
    case _ => true
  }

  ghost predicate Inv(s: State) {
    && s.published == (if s.pointer.Some? then [s.pointer.value] else [])
    && (forall c :: 0 <= c < |s.callers| ==> CallerOk(s, c))
    && (forall box: BoxId :: Placed(s, box))
  }

  lemma {:induction false} InFlightUpdate(callers: seq<Caller>, c: nat, pc: Caller, box: BoxId)
    requires c < |callers|
    ensures InFlight(callers[c := pc], box)
            == InFlight(callers, box) - (if Carries(callers[c], box) then 1 else 0)
                + (if Carries(pc, box) then 1 else 0)
  {
    if c == 0 {
      assert callers[c := pc][1..] == callers[1..];
    } else {
      assert callers[c := pc][1..] == callers[1..][c - 1 := pc];
      InFlightUpdate(callers[1..], c - 1, pc, box);
    }
  }

  lemma {:induction false} InFlightAppend(callers: seq<Caller>, pc: Caller, box: BoxId)
    ensures InFlight(callers + [pc], box) == InFlight(callers, box) + if Carries(pc, box) then 1 else 0
  {
    if callers == [] {
      assert callers + [pc] == [pc];
    } else {
      assert (callers + [pc])[1..] == callers[1..] + [pc];
      InFlightAppend(callers[1..], pc, box);
    }
  }

  lemma StepKeepsPlaces(s: State, step: Step, box: BoxId)
    requires Enabled(s, step) && Placed(s, box)
    ensures Placed(Apply(s, step), box)
  {
    if step.Call? {
      InFlightAppend(s.callers, Load, box);
    } else if step.Run? {
      InFlightUpdate(s.callers, step.c, Apply(s, step).callers[step.c], box);
    }
  }

  lemma StepKeepsInv(s: State, step: Step)
    requires Inv(s) && Enabled(s, step)
    ensures Inv(Apply(s, step))
    ensures s.pointer.Some? ==> Apply(s, step).pointer == s.pointer
  {
    var s' := Apply(s, step);
    forall box: BoxId ensures Placed(s', box) {
      StepKeepsPlaces(s, step, box);
    }
    forall c | 0 <= c < |s'.callers| ensures CallerOk(s', c) {
      assert c < |s.callers| ==> CallerOk(s, c);
    }
  }

  // ---- Runs -----------------------------------------------------------------------------------------

  ghost predicate Next(s: State, s': State) {
    exists step :: Enabled(s, step) && s' == Apply(s, step)
  }

  ghost predicate StepAt(run: seq<State>, k: nat) {
    k + 1 < |run| ==> Next(run[k], run[k + 1])
  }

  ghost predicate IsRun(run: seq<State>) {
    |run| > 0 && run[0] == INITIAL && forall k: nat :: StepAt(run, k)
  }

  lemma NextKeepsInv(s: State, s': State)
    requires Inv(s) && Next(s, s')
    ensures Inv(s') && (s.pointer.Some? ==> s'.pointer == s.pointer)
  {
    var step :| Enabled(s, step) && s' == Apply(s, step);
    StepKeepsInv(s, step);
  }

  lemma {:induction false} RunInv(run: seq<State>, k: nat)
    requires IsRun(run) && k < |run|
    ensures Inv(run[k])
  {
    if k > 0 {
      RunInv(run, k - 1);
      assert StepAt(run, k - 1);
      NextKeepsInv(run[k - 1], run[k]);
    }
  }

  lemma {:induction false} PointerStays(run: seq<State>, j: nat, k: nat)
    requires IsRun(run) && j <= k < |run| && run[j].pointer.Some?
    ensures run[k].pointer == run[j].pointer
  {
    if j < k {
      PointerStays(run, j, k - 1);
      RunInv(run, k - 1);
      assert StepAt(run, k - 1);
      NextKeepsInv(run[k - 1], run[k]);
    }
  }

  /** However many callers race, and whenever they return, they all return the same registry; at most one box is ever
      published. */
  lemma EverybodyGetsTheSame(run: seq<State>, j: nat, k: nat, a: nat, b: nat)
    requires IsRun(run) && j <= k < |run|
    requires a < |run[j].callers| && run[j].callers[a].Returned?
    requires b < |run[k].callers| && run[k].callers[b].Returned?
    ensures run[j].callers[a].box == run[k].callers[b].box
    ensures run[k].published == [run[k].callers[b].box]
  {
    RunInv(run, j);
    RunInv(run, k);
    assert CallerOk(run[j], a) && CallerOk(run[k], b);
    PointerStays(run, j, k);
  }

  /** Once a registry is published, whoever asks for it later allocates nothing and gets it at the first look. */
  lemma {:induction false} LateCallersMakeNothing(run: seq<State>, j: nat, k: nat, c: nat)
    requires IsRun(run) && j <= k < |run| && run[j].pointer.Some?
    requires |run[j].callers| <= c < |run[k].callers|
    ensures run[k].callers[c] == Load || run[k].callers[c] == Returned(run[j].pointer.value)
  {
    assert j < k;
    PointerStays(run, j, k - 1);
    assert StepAt(run, k - 1);
    if c < |run[k - 1].callers| {
      LateCallersMakeNothing(run, j, k - 1, c);
    }
  }

  /**
   Every box ever made is in exactly one place: with the caller that has still to place it,
   published, or freed; and it is freed at most once. What callers were given is not freed before
   the slot is dropped.
  */
  lemma BoxesAreConserved(run: seq<State>, k: nat, box: BoxId)
    requires IsRun(run) && k < |run|
    ensures InFlight(run[k].callers, box) + run[k].freed[box]
            + (if !run[k].dropped && run[k].pointer == Some(box) then 1 else 0)
            == if box < run[k].made then 1 else 0
    ensures forall c :: 0 <= c < |run[k].callers| && run[k].callers[c] == Returned(box) && !run[k].dropped ==>
            run[k].freed[box] == 0
  {
    RunInv(run, k);
    assert Placed(run[k], box);
    forall c | 0 <= c < |run[k].callers| && run[k].callers[c] == Returned(box) && !run[k].dropped
      ensures run[k].freed[box] == 0
    {
      assert CallerOk(run[k], c);
    }
  }

  lemma {:induction false} NothingInFlight(callers: seq<Caller>, box: BoxId)
    requires forall c :: 0 <= c < |callers| ==> callers[c].Returned?
    ensures InFlight(callers, box) == 0
  {
    if callers != [] {
      assert callers[0].Returned?;
      assert forall c :: 0 <= c < |callers[1..]| ==> callers[1..][c] == callers[c + 1];
      NothingInFlight(callers[1..], box);
    }
  }

  /** The final drop leaves every box freed, exactly once: the published one by the drop itself. */
  lemma DropFreesEverything(run: seq<State>, k: nat, box: BoxId)
    requires IsRun(run) && k + 1 < |run| && !run[k].dropped && run[k + 1].dropped
    ensures run[k + 1].freed[box] == if box < run[k + 1].made then 1 else 0
    ensures run[k].pointer == Some(box) ==> run[k].freed[box] == 0 && run[k + 1].freed[box] == 1
  {
    RunInv(run, k);
    assert StepAt(run, k) && Placed(run[k], box);
    NothingInFlight(run[k].callers, box);
  }
}
