/** What a status says about the plan. */
module StatusTruth {
  import opened TestPlan
  import opened ReplanLoop
  import opened Pipeline

  /** The status each end of a stage writes: the `_empty` one exactly when there was
      nothing to plan, nothing pending, or nothing to keep. */
  lemma EndsSay(s: Sys, i: nat, move: Move)
    requires i < |s.tasks| && CanMove(s.plan, s.tasks[i], move)
    ensures var s' := Moved(s, i, move);
      (move.AcceptPlan? && s.tasks[i].kind == PlanInitial ==>
        (s'.status == PlannedEmpty <==> s'.plan == []) && (s'.status == Planned <==> s'.plan != [])) &&
      (move.GenNothing? || move.GenFinish? ==>
        (s'.status == GeneratedEmpty <==> NothingPending(s.plan)) &&
        (s'.status in {Generated, StageFailed(GenFunctional)} <==> !NothingPending(s.plan))) &&
      (move.TriageFinish? ==>
        (s'.status == TriagedEmpty <==> move.empty) && (s'.status == Triaged <==> !move.empty))
  {
    if NothingPending(s.plan) {
      NonePending(s.plan);
    }
  }

  /** Gen-Functional hands over exactly when some subtask has become completed, and
      otherwise has failed. */
  lemma GeneratedIff(s: Sys, i: nat, outcomes: seq<Outcome>)
    requires i < |s.tasks| && CanMove(s.plan, s.tasks[i], GenFinish(outcomes))
    ensures var s' := Moved(s, i, GenFinish(outcomes));
      |s'.plan| == |s.plan| && (s'.status == Generated <==> NewlyDone(s.plan, s'.plan) != {}) &&
      (s'.status == StageFailed(GenFunctional) <==> NewlyDone(s.plan, s'.plan) == {})
  {
    PassMeans(s.plan, outcomes);
  }

  /** A stage that starts or fails says so under its own name. */
  lemma StageSaysItsName(s: Sys, i: nat, move: Move)
    requires i < |s.tasks| && CanMove(s.plan, s.tasks[i], move)
    ensures var kind, st := s.tasks[i].kind, Moved(s, i, move).status;
      var stage := if kind == Eval then Evaluator else if kind == Triage then Stage.Triager
                   else if kind == Gen then GenFunctional else Planner;
      (move.Enter? ==> st == Active(stage)) && (move.Fail? ==> st == StageFailed(stage))
  {
  }

  /** The statuses after which nothing is pending any more. */
  predicate SaysGenerated(s: Status) {
    s.Generated? || s.GeneratedEmpty? || s.Evaluated? || s.EvaluatedEmpty? || s.Triaged? || s.TriagedEmpty?
  }

  /** A task that comes after all tests have been generated. */
  predicate Past(t: Task) {
    t.kind == Eval || t.kind == Triage || (t.kind == Gen && t.at == Advancing(Eval))
  }

  ghost predicate Truthful(s: Sys) {
    |s.tasks| > 0 && (s.status == PlannedEmpty ==> s.plan == []) &&
    (s.status == ReplanRequested ==> RequestPending(s)) &&
    (SaysGenerated(s.status) || Past(Last(s)) ==> NothingPending(s.plan))
  }

  predicate ChangesPlan(move: Move) {
    move.AcceptPlan? || move.GenReject? || move.GenFinish?
  }

  lemma PlanChanged(s: Sys, i: nat, move: Move)
    requires Inv(s) && Truthful(s) && i < |s.tasks| && CanMove(s.plan, s.tasks[i], move) && ChangesPlan(move)
    ensures Truthful(Moved(s, i, move))
  {
    LastMoves(s, i);
    match move
    case GenReject(outcomes) => RejectionRequests(s, i, outcomes);
    case GenFinish(outcomes) => PassFinishes(s.plan, PendingAt(s.plan), outcomes, 0, 0);
    case AcceptPlan(_) => EndsSay(s, i, move);
  }

  lemma SuccessorIsPast(s: Sys, i: nat, fired: bool)
    requires Inv(s) && Truthful(s) && i < |s.tasks| && s.tasks[i].at.Advancing?
    ensures Truthful(Moved(s, i, Advance(fired)))
  {
    LastMoves(s, i);
    assert Past(Last(Moved(s, i, Advance(fired)))) ==> Past(Last(s));
  }

  /** The moves that write a status and leave the plan alone. */
  lemma StatusWritten(s: Sys, i: nat, move: Move)
    requires Inv(s) && Truthful(s) && i < |s.tasks| && CanMove(s.plan, s.tasks[i], move)
    requires move.GenNothing? || move.EvalNothing? || move.EvalFinish? || move.TriageFinish? || move.Enter? ||
             move.Fail?
    ensures Truthful(Moved(s, i, move))
  {
    LastMoves(s, i);
    if move.GenNothing? {
      EndsSay(s, i, move);
    }
  }

  lemma PlanKept(s: Sys, i: nat, move: Move)
    requires Inv(s) && Truthful(s) && i < |s.tasks| && CanMove(s.plan, s.tasks[i], move) && !ChangesPlan(move)
    ensures Truthful(Moved(s, i, move))
  {
    match move
    case Advance(fired) => SuccessorIsPast(s, i, fired);
    case SkipNoDir => LastMoves(s, i);
    case Await => LastMoves(s, i);
    case Cancel => LastMoves(s, i);
    case Callback =>
      assert forall j :: 0 <= j < |s.tasks| ==> Past(Moved(s, i, move).tasks[j]) == Past(s.tasks[j]);
    case _ => StatusWritten(s, i, move);
  }

  lemma TruthfulStep(s: Sys, a: Action)
    requires Inv(s) && Truthful(s) && Enabled(s, a)
    ensures Truthful(Apply(s, a))
  {
    if a.TaskStep? {
      if ChangesPlan(a.move) {
        PlanChanged(s, a.i, a.move);
      } else {
        PlanKept(s, a.i, a.move);
      }
    } else {
      assert Apply(s, a).plan == s.plan && Apply(s, a).request == s.request && Apply(s, a).tasks == s.tasks;
    }
  }

  /** In every reachable state the status is true of the plan: `planned_empty` of an
      empty one, `replan_needed` of one in which the requested subtask is pending,
      and from `generated` on nothing is pending. */
  lemma {:induction false} StatusIsTrue(states: seq<Sys>, actions: seq<Action>, k: nat)
    requires Run(states, actions) && k < |states|
    ensures Truthful(states[k])
  {
    if k > 0 {
      StatusIsTrue(states, actions, k - 1);
      RunKeepsInv(states, actions, k - 1);
      assert Step(states[k - 1], actions[k - 1], states[k - 1 + 1]);
      TruthfulStep(states[k - 1], actions[k - 1]);
    }
  }

  // ---- Agent sessions ----

  /** The Planner has opened at most two sessions, the Evaluator one, Gen-Functional
      no more than there are pending subtasks, the Triager none. */
  ghost predicate SessionsOf(t: Task, pending: nat) {
    t.at.Awaiting? ==>
      match t.kind
      case Gen => t.at.sessions <= pending
      case Eval => t.at.sessions <= 1
      case Triage => false
      case _ => t.at.sessions <= 2
  }

  ghost predicate FewSessions(s: Sys) {
    forall i :: 0 <= i < |s.tasks| ==> SessionsOf(s.tasks[i], |PendingAt(s.plan)|)
  }

  lemma FewSessionsStep(s: Sys, a: Action)
    requires Inv(s) && FewSessions(s) && Enabled(s, a)
    ensures FewSessions(Apply(s, a))
  {
    if a.TaskStep? {
      FewSessionsMove(s, a.i, a.move);
    }
  }

  lemma FewSessionsMove(s: Sys, i: nat, move: Move)
    requires Inv(s) && FewSessions(s) && i < |s.tasks| && CanMove(s.plan, s.tasks[i], move)
    ensures FewSessions(Moved(s, i, move))
  {
    var s' := Moved(s, i, move);
    if !s.tasks[i].at.Returned? {
      LastMoves(s, i);
    }
    forall j | 0 <= j < |s'.tasks|
      ensures SessionsOf(s'.tasks[j], |PendingAt(s'.plan)|)
    {
      if j < |s.tasks| && j != i {
        assert s'.tasks[j] == s.tasks[j];
      }
    }
  }

  /** In every reachable state, whatever the sessions came to. */
  lemma {:induction false} SessionsBounded(states: seq<Sys>, actions: seq<Action>, k: nat)
    requires Run(states, actions) && k < |states|
    ensures FewSessions(states[k])
  {
    if k > 0 {
      SessionsBounded(states, actions, k - 1);
      RunKeepsInv(states, actions, k - 1);
      assert Step(states[k - 1], actions[k - 1], states[k - 1 + 1]);
      FewSessionsStep(states[k - 1], actions[k - 1]);
    }
  }
}
