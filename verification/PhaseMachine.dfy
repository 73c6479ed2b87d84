/** The phases of a plan: which transitions are accepted, and what every run of them looks like. */
module PhaseMachine {

  datatype PlanPhase = NoPhase | Plan | Act | Verify | Replan | Escalate | Abort | OtherPhase(name: string)

  function AllowedTransitions(p: PlanPhase): seq<PlanPhase> {
    match p
    case Plan => [Act, Abort]
    case Act => [Verify, Escalate, Abort]
    case Verify => [PlanPhase.Replan, Escalate, Abort]
    case Replan => [Act, Abort]
    case _ => []
  }

  /** The phase a machine is in; a new machine is in the plan phase. */
  function CurrentPhase(p: PlanPhase): PlanPhase {
    if p == NoPhase then Plan else p
  }

  datatype Machine = Machine(current: PlanPhase, history: seq<PlanPhase>)

  function NewMachine(): Machine { Machine(NoPhase, []) }

  predicate Accepts(m: Machine, next: PlanPhase) {
    next in AllowedTransitions(CurrentPhase(m.current))
  }

  function Step(m: Machine, next: PlanPhase): Machine {
    var from := CurrentPhase(m.current);
    if next in AllowedTransitions(from) then Machine(next, m.history + [from]) else Machine(from, m.history)
  }

  class PlanStateMachine {
    var current: PlanPhase
    var history: seq<PlanPhase>

    constructor ()
      ensures Value() == NewMachine()
    {
      current, history := NoPhase, [];
    }

    ghost function Value(): Machine reads this { Machine(current, history) }

    method Transition(next: PlanPhase) returns (accepted: bool)
      modifies this
      ensures accepted <==> next in AllowedTransitions(CurrentPhase(old(current)))
      ensures accepted ==> current == next && history == old(history) + [CurrentPhase(old(current))]
      ensures !accepted ==> current == CurrentPhase(old(current)) && history == old(history)
      ensures Value() == Step(old(Value()), next)
    {
      if current == NoPhase { current := Plan; }
      var allowed := AllowedTransitions(current);
      for i := 0 to |allowed|
        invariant next !in allowed[..i]
      {
        if allowed[i] == next {
          history := history + [current];
          current := next;
          return true;
        }
      }
      return false;
    }
  }

  // ---------- Runs ----------

  function Run(nexts: seq<PlanPhase>): Machine {
    if nexts == [] then NewMachine() else Step(Run(nexts[..|nexts| - 1]), nexts[|nexts| - 1])
  }

  /** The phases a machine went through, with the one it is in. */
  function Trail(m: Machine): seq<PlanPhase> {
    m.history + [CurrentPhase(m.current)]
  }

  predicate IsPath(t: seq<PlanPhase>) {
    && t != [] && t[0] == Plan
    && forall i :: 0 < i < |t| ==> t[i] in AllowedTransitions(t[i - 1])
  }

  /** Whatever is asked of a new machine, it goes along a path of the allowed relation. */
  lemma {:induction false} RunsArePaths(nexts: seq<PlanPhase>)
    ensures IsPath(Trail(Run(nexts)))
  {
    if nexts != [] {
      RunsArePaths(nexts[..|nexts| - 1]);
      var before, next := Run(nexts[..|nexts| - 1]), nexts[|nexts| - 1];
      if Accepts(before, next) {
        assert Trail(Step(before, next)) == Trail(before) + [next];
      } else {
        assert Trail(Step(before, next)) == Trail(before);
      }
    }
  }

  lemma RunNext(nexts: seq<PlanPhase>, next: PlanPhase)
    requires Accepts(Run(nexts), next)
    ensures Trail(Run(nexts + [next])) == Trail(Run(nexts)) + [next]
  {
    assert (nexts + [next])[..|nexts|] == nexts;
  }

  /** Every path is the trail of asking for its phases in order. */
  lemma {:induction false} PathsAreRuns(t: seq<PlanPhase>)
    requires IsPath(t)
    ensures Trail(Run(t[1..])) == t
  {
    if |t| > 1 {
      var u, last := t[..|t| - 1], t[|t| - 1];
      PathsAreRuns(u);
      assert u[|u| - 1] == CurrentPhase(Run(u[1..]).current);
      RunNext(u[1..], last);
      assert t[1..] == u[1..] + [last];
    } else {
      assert t[1..] == [] && t == [Plan];
    }
  }

  /** A rejected request leaves the phase and the history as they were; only a new machine records that it is planning. */
  lemma RejectedChangesNothing(m: Machine, next: PlanPhase)
    requires !Accepts(m, next)
    ensures Trail(Step(m, next)) == Trail(m) && (Step(m, next) == m <==> m.current != NoPhase)
  {
  }

  predicate Ended(p: PlanPhase) { p == Escalate || p == Abort }

  /** Once escalated or aborted, a plan stays so. */
  lemma {:induction false} EndIsFinal(nexts: seq<PlanPhase>, more: seq<PlanPhase>)
    requires Ended(Run(nexts).current)
    ensures Run(nexts + more) == Run(nexts)
  {
    if more == [] {
      assert nexts + more == nexts;
    } else {
      EndIsFinal(nexts, more[..|more| - 1]);
      assert (nexts + more)[..|nexts + more| - 1] == nexts + more[..|more| - 1];
    }
  }

  function Count(t: seq<PlanPhase>, p: PlanPhase): nat {
    if t == [] then 0 else Count(t[..|t| - 1], p) + if t[|t| - 1] == p then 1 else 0
  }

  /** The phase at a place of an unfinished path. */
  function PhaseAt(i: nat): PlanPhase {
    if i == 0 then Plan else if i % 3 == 1 then Act else if i % 3 == 2 then Verify else PlanPhase.Replan
  }

  /** A path cycles through act, verify and replan, and ends at most once, at its end. */
  lemma {:induction false} PathShape(t: seq<PlanPhase>)
    requires IsPath(t)
    ensures forall i :: 0 <= i < |t| - 1 ==> t[i] == PhaseAt(i)
    ensures t[|t| - 1] == PhaseAt(|t| - 1) || Ended(t[|t| - 1])
  {
    if |t| > 1 {
      var u := t[..|t| - 1];
      PathShape(u);
      assert t[|t| - 1] in AllowedTransitions(u[|u| - 1]);
    }
  }

  lemma {:induction false} PathCounts(t: seq<PlanPhase>)
    requires IsPath(t)
    ensures Count(t, Plan) == 1
    ensures Count(t, PlanPhase.Replan) <= Count(t, Verify) <= Count(t, Act) <= Count(t, PlanPhase.Replan) + 1
    ensures t[|t| - 1] == Act ==> Count(t, Verify) < Count(t, Act)
    ensures t[|t| - 1] == Verify ==> Count(t, PlanPhase.Replan) < Count(t, Verify)
    ensures t[|t| - 1] in {Plan, PlanPhase.Replan} ==> Count(t, Act) == Count(t, PlanPhase.Replan)
  {
    var u, last := t[..|t| - 1], t[|t| - 1];
    if |t| > 1 {
      PathCounts(u);
      assert last in AllowedTransitions(u[|u| - 1]);
    } else {
      assert u == [];
    }
  }

  /** In every run a plan is verified at most as often as acted on, replanned at most as often as verified, and acted on
      at most once more than replanned. */
  lemma RunCounts(nexts: seq<PlanPhase>)
    ensures var t := Trail(Run(nexts));
            && Count(t, Plan) == 1
            && Count(t, PlanPhase.Replan) <= Count(t, Verify) <= Count(t, Act) <= Count(t, PlanPhase.Replan) + 1
  {
    RunsArePaths(nexts);
    PathCounts(Trail(Run(nexts)));
  }
}
