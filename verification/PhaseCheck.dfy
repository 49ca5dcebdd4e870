/** What the phase check after a replan is worth. */
module PhaseCheck {
  import opened TestPlan
  import opened ReplanLoop
  import opened PlanFile

  // `_check_existing_phases_preserved` is all the code asks of the plan file the
  // agent leaves behind. Here the agent may write whatever passes it.

  /** The plan saved for the agent's plan: the first subtask with the id charged,
      then every phase cut to what the cap leaves it. */
  ghost predicate SavedAs(agentPlan: seq<PlanPhase>, id: string, next: seq<PlanPhase>) {
    |next| == |agentPlan| && FlatSubs(next) == AfterReplan(FlatSubs(agentPlan), id) &&
    forall i :: 0 <= i < |next| ==>
      next[i].number == agentPlan[i].number &&
      |next[i].subtasks| == |Kept(PhaseSubs(agentPlan), HARD_SUBTASK_CAP)[i]|
  }

  datatype CheckedRound = CheckedRound(outcomes: seq<Outcome>, agentPlan: seq<PlanPhase>)

  ghost predicate CheckedTurn(plan: seq<PlanPhase>, round: CheckedRound, next: seq<PlanPhase>) {
    var subs := FlatSubs(plan);
    |PendingAt(subs)| <= |round.outcomes| &&
    var pass := GenPass(subs, round.outcomes);
    pass.Rejected? && pass.at < |pass.plan| &&
    PhasesPreserved(Numbers(plan), Numbers(round.agentPlan)) &&
    SavedAs(round.agentPlan, pass.plan[pass.at].id, next)
  }

  ghost predicate CheckedRun(plans: seq<seq<PlanPhase>>, rounds: seq<CheckedRound>) {
    |plans| == |rounds| + 1 &&
    forall i {:trigger rounds[i]} :: 0 <= i < |rounds| ==> CheckedTurn(plans[i], rounds[i], plans[i + 1])
  }

  // ---- The agent that resets one counter ----

  /** The same phases with other subtasks in their places. */
  function Refill(file: seq<PlanPhase>, subs: seq<Sub>): (r: seq<PlanPhase>)
    requires |subs| == |FlatSubs(file)|
    ensures |r| == |file|
    ensures forall i :: 0 <= i < |r| ==> r[i].number == file[i].number && |r[i].subtasks| == |file[i].subtasks|
  {
    if file == [] then []
    else
      var front, p := file[..|file| - 1], file[|file| - 1];
      FlatSubsSnoc(front, p);
      assert front + [p] == file;
      var cut := |subs| - |p.subtasks|;
      Refill(front, subs[..cut]) + [PlanPhase(p.number, subs[cut..])]
  }

  lemma {:induction false} RefillFlat(file: seq<PlanPhase>, subs: seq<Sub>)
    requires |subs| == |FlatSubs(file)|
    ensures FlatSubs(Refill(file, subs)) == subs
  {
    if file != [] {
      var front, p := file[..|file| - 1], file[|file| - 1];
      FlatSubsSnoc(front, p);
      assert front + [p] == file;
      var cut := |subs| - |p.subtasks|;
      RefillFlat(front, subs[..cut]);
      FlatSubsSnoc(Refill(front, subs[..cut]), PlanPhase(p.number, subs[cut..]));
    }
  }

  lemma SameNumbers(a: seq<PlanPhase>, b: seq<PlanPhase>)
    requires |a| == |b| && forall i :: 0 <= i < |a| ==> a[i].number == b[i].number
    ensures Numbers(a) == Numbers(b)
    ensures PhasesPreserved(Numbers(a), Numbers(b))
  {
    assert forall i :: 0 <= i < |a| ==> a[i] in a && b[i] in b;
    assert Numbers(b) - Numbers(a) == {};
  }

  lemma {:induction false} ListFits<T>(ls: seq<seq<T>>, i: nat)
    requires i < |ls|
    ensures |Concat(ls[..i])| + |ls[i]| <= |Concat(ls)|
    decreases |ls|
  {
    var n := |ls| - 1;
    if i < n {
      ListFits(ls[..n], i);
      assert ls[..n][..i] == ls[..i];
    }
  }

  lemma KeptWhole<T>(ls: seq<seq<T>>, cap: nat, i: nat)
    requires i < |ls| && |Concat(ls)| <= cap
    ensures Kept(ls, cap)[i] == ls[i]
  {
    ListFits(ls, i);
  }

  /** A plan within the cap is saved with every phase as it is. */
  lemma SavedWhole(agentPlan: seq<PlanPhase>, id: string)
    requires |FlatSubs(agentPlan)| <= HARD_SUBTASK_CAP
    ensures SavedAs(agentPlan, id, Refill(agentPlan, Bump(FlatSubs(agentPlan), id)))
  {
    RefillFlat(agentPlan, Bump(FlatSubs(agentPlan), id));
    forall i | 0 <= i < |agentPlan|
      ensures |Kept(PhaseSubs(agentPlan), HARD_SUBTASK_CAP)[i]| == |agentPlan[i].subtasks|
    {
      KeptWhole(PhaseSubs(agentPlan), HARD_SUBTASK_CAP, i);
    }
  }

  /** The first subtask with the id, back at zero. */
  function Reset(s: seq<Sub>, id: string): (r: seq<Sub>)
    ensures |r| == |s|
  {
    var f := FirstWithId(s, id);
    if f < 0 then s else s[f := s[f].(replanCount := 0)]
  }

  /** After a reset the charge gives nothing up. */
  lemma ResetForgives(s: seq<Sub>, k: nat)
    requires k < |s|
    ensures var next := Bump(Reset(s, s[k].id), s[k].id);
      |next| == |s| && forall i :: 0 <= i < |s| ==> next[i].id == s[i].id && next[i].status == s[i].status
  {
    var id := s[k].id;
    var f := FirstWithId(s, id);
    var r := Reset(s, id);
    assert FirstWithId(r, id) == f by {
      assert r[f].id == id;
      assert forall i :: 0 <= i < f ==> r[i].id != id;
    }
  }

  /** Whatever is pending can be rejected and still be pending, in the same place. */
  lemma CheckedStep(plan: seq<PlanPhase>, k: nat) returns (round: CheckedRound, next: seq<PlanPhase>)
    requires k < |FlatSubs(plan)| <= HARD_SUBTASK_CAP && FlatSubs(plan)[k].status == Pending
    ensures CheckedTurn(plan, round, next)
    ensures |FlatSubs(next)| == |FlatSubs(plan)| && FlatSubs(next)[k].status == Pending
  {
    var subs := FlatSubs(plan);
    CanReject(subs, k);
    var left := GenPass(subs, RejectOnly(subs, k)).plan;
    var id := left[k].id;
    var agentPlan := Refill(plan, Reset(left, id));
    RefillFlat(plan, Reset(left, id));
    SameNumbers(plan, agentPlan);
    round := CheckedRound(RejectOnly(subs, k), agentPlan);
    next := Refill(agentPlan, Bump(Reset(left, id), id));
    SavedWhole(agentPlan, id);
    ResetForgives(left, k);
  }

  lemma RunPrepends(plan: seq<PlanPhase>, round: CheckedRound, plans: seq<seq<PlanPhase>>, rounds: seq<CheckedRound>)
    requires CheckedRun(plans, rounds) && CheckedTurn(plan, round, plans[0])
    ensures CheckedRun([plan] + plans, [round] + rounds)
  {
    var ps, rs := [plan] + plans, [round] + rounds;
    forall i {:trigger rs[i]} | 0 <= i < |rs|
      ensures CheckedTurn(ps[i], rs[i], ps[i + 1])
    {
      if i > 0 {
        assert rs[i] == rounds[i - 1] && ps[i] == plans[i - 1] && ps[i + 1] == plans[i - 1 + 1];
      }
    }
  }

  /** From any plan with a pending subtask there is a run of any length in which
      every replan passes the check. */
  lemma {:induction false} CheckedNeverEnds(plan: seq<PlanPhase>, k: nat, n: nat)
    returns (plans: seq<seq<PlanPhase>>, rounds: seq<CheckedRound>)
    requires k < |FlatSubs(plan)| <= HARD_SUBTASK_CAP && FlatSubs(plan)[k].status == Pending
    ensures CheckedRun(plans, rounds) && plans[0] == plan && |rounds| == n
    decreases n
  {
    if n == 0 {
      plans, rounds := [plan], [];
    } else {
      var round, next := CheckedStep(plan, k);
      var morePlans, moreRounds := CheckedNeverEnds(next, k, n - 1);
      plans, rounds := [plan] + morePlans, [round] + moreRounds;
      RunPrepends(plan, round, morePlans, moreRounds);
    }
  }

  ghost predicate CheckedWithin(plan: seq<PlanPhase>, bound: int) {
    forall plans, rounds :: CheckedRun(plans, rounds) && plans[0] == plan ==> |rounds| <= bound
  }

  lemma NothingTurns(plan: seq<PlanPhase>, round: CheckedRound, next: seq<PlanPhase>)
    ensures PendingAt(FlatSubs(plan)) == [] ==> !CheckedTurn(plan, round, next)
  {
  }

  lemma FirstTurn(plans: seq<seq<PlanPhase>>, rounds: seq<CheckedRound>)
    returns (round: CheckedRound, next: seq<PlanPhase>)
    requires CheckedRun(plans, rounds) && rounds != []
    ensures CheckedTurn(plans[0], round, next)
  {
    round, next := rounds[0], plans[0 + 1];
  }

  lemma IdleRunIsEmpty(plan: seq<PlanPhase>, plans: seq<seq<PlanPhase>>, rounds: seq<CheckedRound>)
    requires PendingAt(FlatSubs(plan)) == [] && CheckedRun(plans, rounds) && plans[0] == plan
    ensures rounds == []
  {
    if rounds != [] {
      var round, next := FirstTurn(plans, rounds);
      NothingTurns(plan, round, next);
    }
  }

  /** The check bounds the loop only where there is no loop: exactly if nothing is
      pending. */
  lemma CheckedEndsIff(plan: seq<PlanPhase>)
    requires |FlatSubs(plan)| <= HARD_SUBTASK_CAP
    ensures (exists bound :: CheckedWithin(plan, bound)) <==> PendingAt(FlatSubs(plan)) == []
  {
    var ps := PendingAt(FlatSubs(plan));
    if ps == [] {
      forall plans, rounds | CheckedRun(plans, rounds) && plans[0] == plan
        ensures |rounds| <= 0
      {
        IdleRunIsEmpty(plan, plans, rounds);
      }
      assert CheckedWithin(plan, 0);
    } else {
      forall bound
        ensures !CheckedWithin(plan, bound)
      {
        CheckedExceeds(plan, ps[0], bound);
      }
    }
  }

  lemma CheckedExceeds(plan: seq<PlanPhase>, k: nat, bound: int)
    requires k < |FlatSubs(plan)| <= HARD_SUBTASK_CAP && FlatSubs(plan)[k].status == Pending
    ensures !CheckedWithin(plan, bound)
  {
    var plans, rounds := CheckedNeverEnds(plan, k, if bound < 0 then 0 else bound + 1);
    assert CheckedRun(plans, rounds) && plans[0] == plan;
  }
}
