/** The two halves of the replan loop as the stages run them: on the subtask and
    phase objects of the plan, from one plan file to the next. */
module ReplanSteps {
  import opened TestPlan
  import opened ReplanLoop
  import opened PlanFile
  import opened PhaseCheck

  // ---- Gen-Functional's half ----

  datatype LoopEnd = AllTried(generated: nat) | ReplanNeeded(subtaskId: string, generated: nat) | LoopRaised

  method CollectPending(items: seq<Subtask>) returns (pending: seq<nat>)
    ensures pending == PendingAt(Values(items))
  {
    pending := [];
    ghost var values := Values(items);
    for j := 0 to |items|
      invariant pending == PendingAt(values[..j])
    {
      assert values[..j + 1][..j] == values[..j];
      if items[j].status == Pending {
        pending := pending + [j];
      }
    }
    assert values[..|items|] == values;
  }

  /** How many subtasks of a plan file are pending. */
  method CountPending(file: seq<PlanPhase>) returns (n: nat)
    ensures n == |PendingAt(FlatSubs(file))|
  {
    var phases, ls, items := LoadPlan(file);
    var all := IterOwned(phases, ls, items);
    ItemsAre(items, FlatSubs(file));
    var pending := CollectPending(all);
    n := |pending|;
  }

  /** `subtask.complete()` or `subtask.fail()` on one of them leaves the others. */
  method Settle(items: seq<Subtask>, k: nat, done: bool)
    requires DistinctSubtasks(items) && k < |items|
    modifies items[k]
    ensures Values(items) ==
      old(Values(items))[k := Settled(old(items[k].Value()), done)]
  {
    ghost var was := Values(items);
    if done {
      items[k].Complete();
    } else {
      items[k].Fail();
    }
    assert forall j :: 0 <= j < |items| && j != k ==> items[j].Value() == was[j];
  }

  /** What the loop did, said of the subtasks before and after: the pending ones
      are tried in plan order up to the first outcome that stops the loop, each
      is completed exactly when it passed and failed when it had no files or
      its session failed, nothing else changes, and the count is that of the
      subtasks that have become completed. */
  ghost predicate LoopDid(was: seq<Sub>, now: seq<Sub>, outcomes: seq<Outcome>, end: LoopEnd)
    requires |PendingAt(was)| <= |outcomes|
  {
    var ps := PendingAt(was);
    var t := TriedCount(outcomes, |ps|);
    match end
    case AllTried(n) => PassDid(was, ps, outcomes, Finished(now, n))
    case ReplanNeeded(id, n) =>
      t < |ps| && id == was[ps[t]].id && PassDid(was, ps, outcomes, Rejected(now, ps[t], n))
    case LoopRaised => PassDid(was, ps, outcomes, Crashed)
  }

  lemma PassIsLoop(was: seq<Sub>, outcomes: seq<Outcome>, end: LoopEnd, now: seq<Sub>)
    requires |PendingAt(was)| <= |outcomes|
    requires match GenPass(was, outcomes)
      case Finished(q, n) => end == AllTried(n) && now == q
      case Rejected(q, k, n) => k < |q| && end == ReplanNeeded(q[k].id, n) && now == q
      case Crashed => end == LoopRaised
    ensures LoopDid(was, now, outcomes, end)
  {
    PassMeans(was, outcomes);
    PassLightens(was, outcomes);
  }

  /** The subtask loop of `run_gen_functional`, over the subtask objects. */
  method TrySubtasks(items: seq<Subtask>, outcomes: seq<Outcome>) returns (end: LoopEnd)
    requires DistinctSubtasks(items)
    requires |PendingAt(Values(items))| <= |outcomes|
    modifies items
    ensures match GenPass(old(Values(items)), outcomes)
      case Finished(q, n) => end == AllTried(n) && Values(items) == q
      case Rejected(q, k, n) => k < |items| && end == ReplanNeeded(items[k].id, n) && Values(items) == q
      case Crashed => end == LoopRaised
  {
    ghost var start := Values(items);
    var pending := CollectPending(items);
    assert Values(items) == start;
    var generated := 0;
    for i := 0 to |pending|
      invariant PassFrom(Values(items), pending, outcomes, i, generated) == GenPass(start, outcomes)
    {
      var k := pending[i];
      if outcomes[i].Raised? {
        return LoopRaised;
      }
      if outcomes[i].Rejects() {
        return ReplanNeeded(items[k].id, generated);
      }
      Settle(items, k, outcomes[i].Passed?);
      if outcomes[i].Passed? {
        generated := generated + 1;
      }
    }
    end := AllTried(generated);
  }

  /** What the loop makes of every subtask. */
  method GenerateSubtasks(items: seq<Subtask>, outcomes: seq<Outcome>) returns (end: LoopEnd)
    requires DistinctSubtasks(items)
    requires |PendingAt(Values(items))| <= |outcomes|
    modifies items
    ensures match GenPass(old(Values(items)), outcomes)
      case Finished(q, n) => end == AllTried(n) && Values(items) == q
      case Rejected(q, k, n) => k < |items| && end == ReplanNeeded(items[k].id, n) && Values(items) == q
      case Crashed => end == LoopRaised
    ensures LoopDid(old(Values(items)), Values(items), outcomes, end)
  {
    ghost var start := Values(items);
    end := TrySubtasks(items, outcomes);
    PassIsLoop(start, outcomes, end, Values(items));
  }

  /** The same, on the objects of a plan that say what its file says. */
  method GenerateOwned(phases: seq<Phase>, ghost ls: seq<seq<Subtask>>, ghost items: seq<Subtask>,
                       ghost subs: seq<Sub>, outcomes: seq<Outcome>)
    returns (end: LoopEnd)
    requires Owns(phases, ls, items) && ItemsSay(items, subs) && DistinctSubtasks(items)
    requires |PendingAt(subs)| <= |outcomes|
    modifies items
    ensures match GenPass(subs, outcomes)
      case Finished(q, n) => end == AllTried(n) && ItemsSay(items, q)
      case Rejected(q, k, n) => k < |q| && end == ReplanNeeded(q[k].id, n) && ItemsSay(items, q)
      case Crashed => end == LoopRaised
  {
    var all := IterOwned(phases, ls, items);
    ItemsAre(items, subs);
    end := TrySubtasks(all, outcomes);
    if !end.LoopRaised? {
      ItemsAre(items, GenPass(subs, outcomes).plan);
    }
  }

  /** From plan file to plan file: load, generate, and save unless an exception
      left the loop. */
  method GenerateFromFile(file: seq<PlanPhase>, outcomes: seq<Outcome>) returns (end: LoopEnd, saved: seq<PlanPhase>)
    requires |PendingAt(FlatSubs(file))| <= |outcomes|
    ensures match GenPass(FlatSubs(file), outcomes)
      case Finished(q, n) => end == AllTried(n) && FlatSubs(saved) == q
      case Rejected(q, k, n) => k < |q| && end == ReplanNeeded(q[k].id, n) && FlatSubs(saved) == q
      case Crashed => end == LoopRaised && saved == file
    ensures LoopDid(FlatSubs(file), FlatSubs(saved), outcomes, end)
    ensures Numbers(saved) == Numbers(file)
  {
    var phases, ls, items := LoadPlan(file);
    end := GenerateOwned(phases, ls, items, FlatSubs(file), outcomes);
    saved := file;
    if !end.LoopRaised? {
      saved := SavePlan(phases, ls, items);
      ShapeNumbers(phases, ls, saved);
      ShapeNumbers(phases, ls, file);
    }
    PassIsLoop(FlatSubs(file), outcomes, end, FlatSubs(saved));
  }

  // ---- The Planner's half ----

  method CheckExistingPhasesPreserved(before: seq<Phase>, after: seq<Phase>) returns (ok: bool)
    ensures ok <==> PhasesPreserved(PhaseNumbers(before), PhaseNumbers(after))
  {
    var beforeIds := PhaseNumbers(before);
    var afterIds := PhaseNumbers(after);
    var missing := beforeIds - afterIds;
    if missing != {} {
      assert exists p :: p in missing;
      return false;
    }
    assert forall p :: p in beforeIds ==> p in missing || p in afterIds;
    var newPhases := afterIds - beforeIds;
    ok := |newPhases| <= 1;
  }

  /** The safety net after the agent: a plan over the cap is cut, and no subtask
      object changes. */
  method CapPlan(phases: seq<Phase>, ghost items: seq<Subtask>)
    requires DistinctPhases(phases) && items == Flat(phases)
    modifies phases`subtasks
    ensures Flat(phases) == Cut(items, HARD_SUBTASK_CAP)
    ensures Lists(phases) == Kept(old(Lists(phases)), HARD_SUBTASK_CAP)
    ensures Values(items) == old(Values(items))
  {
    ghost var was, ls := Values(items), Lists(phases);
    if CountSubtasks(phases) > HARD_SUBTASK_CAP {
      var _ := TruncateSubtasks(phases, HARD_SUBTASK_CAP);
      ValuesAre(items, was);
    } else {
      KeptAll(ls, HARD_SUBTASK_CAP);
    }
  }

  lemma KeptAll<T>(ls: seq<seq<T>>, cap: nat)
    requires |Concat(ls)| <= cap
    ensures Kept(ls, cap) == ls
  {
    forall i | 0 <= i < |ls|
      ensures Kept(ls, cap)[i] == ls[i]
    {
      KeptWhole(ls, cap, i);
    }
  }

  /** What the caller learns of a replan: the new counter of the first subtask with
      the id and whether that gave it up, or zero if there is none. */
  ghost predicate Replanned(subs: seq<Sub>, id: string, newCount: int, stuck: bool) {
    var k := FirstWithId(subs, id);
    if k < 0 then newCount == 0 && !stuck
    else newCount == Charged(subs[k]).replanCount && stuck == (newCount >= STUCK_AFTER_REPLANS)
  }

  /** Steps 6 and 7 of `_run_planner_replan` on the plan the agent left behind:
      the plan that is saved is `AfterReplan` of it. */
  method FinishReplan(after: seq<Phase>, items: seq<Subtask>, id: string) returns (newCount: int, stuck: bool)
    requires DistinctPhases(after) && items == Flat(after) && DistinctSubtasks(items)
    modifies after`subtasks, items
    ensures Flat(after) == Cut(items, HARD_SUBTASK_CAP)
    ensures Lists(after) == Kept(old(Lists(after)), HARD_SUBTASK_CAP)
    ensures Values(Flat(after)) == AfterReplan(old(Values(items)), id)
    ensures Replanned(old(Values(items)), id, newCount, stuck)
  {
    ghost var ls := Lists(after);
    newCount, stuck := BumpReplanCount(items, id);
    assert Lists(after) == ls;
    ghost var bumped := Values(items);
    CapPlan(after, items);
    assert Values(items) == bumped;
    ValuesCut(items, HARD_SUBTASK_CAP);
  }

  lemma {:induction false} PrefixLengths<S, T>(a: seq<seq<S>>, b: seq<seq<T>>, i: nat)
    requires |a| == |b| && i <= |a| && forall j :: 0 <= j < |a| ==> |a[j]| == |b[j]|
    ensures |Concat(a[..i])| == |Concat(b[..i])|
    decreases i
  {
    if i > 0 {
      PrefixLengths(a, b, i - 1);
      BudgetStep(a, 0, i - 1);
      BudgetStep(b, 0, i - 1);
    }
  }

  /** The lengths the cap leaves depend on nothing but lengths. */
  lemma KeptLengths<S, T>(a: seq<seq<S>>, b: seq<seq<T>>, cap: nat, i: nat)
    requires i < |a| == |b| && forall j :: 0 <= j < |a| ==> |a[j]| == |b[j]|
    ensures |Kept(a, cap)[i]| == |Kept(b, cap)[i]|
  {
    PrefixLengths(a, b, i);
    assert Budget(a, cap, i) == Budget(b, cap, i);
  }

  /** What the phases hold after they have been cut to the cap. */
  lemma OwnsCut(phases: seq<Phase>, ls: seq<seq<Subtask>>, items: seq<Subtask>)
    requires Lists(phases) == Kept(ls, HARD_SUBTASK_CAP) && items == Concat(ls)
    ensures Owns(phases, Kept(ls, HARD_SUBTASK_CAP), Cut(items, HARD_SUBTASK_CAP))
  {
    KeptIsPrefix(ls, HARD_SUBTASK_CAP);
  }

  method CapOwned(phases: seq<Phase>, ghost ls: seq<seq<Subtask>>, ghost items: seq<Subtask>, ghost subs: seq<Sub>)
    requires Owns(phases, ls, items) && ItemsSay(items, subs) && DistinctPhases(phases)
    modifies phases`subtasks
    ensures Owns(phases, Kept(ls, HARD_SUBTASK_CAP), Cut(items, HARD_SUBTASK_CAP))
    ensures ItemsSay(Cut(items, HARD_SUBTASK_CAP), Cut(subs, HARD_SUBTASK_CAP))
  {
    OwnsFlat(phases, ls, items);
    ItemsAre(items, subs);
    CapPlan(phases, items);
    OwnsCut(phases, ls, items);
    ItemsAre(items, subs);
    ItemsCut(items, subs, HARD_SUBTASK_CAP);
  }

  method FinishOwned(phases: seq<Phase>, ghost ls: seq<seq<Subtask>>, ghost items: seq<Subtask>,
                     ghost subs: seq<Sub>, id: string)
    returns (newCount: int, stuck: bool)
    requires Owns(phases, ls, items) && ItemsSay(items, subs) && DistinctPhases(phases) && DistinctSubtasks(items)
    modifies phases`subtasks, items
    ensures Lists(phases) == Kept(ls, HARD_SUBTASK_CAP)
    ensures Values(Cut(items, HARD_SUBTASK_CAP)) == AfterReplan(subs, id)
    ensures Replanned(subs, id, newCount, stuck)
  {
    var all := IterOwned(phases, ls, items);
    OwnsFlat(phases, ls, items);
    ItemsAre(items, subs);
    newCount, stuck := FinishReplan(phases, all, id);
  }

  /** The end of a successful initial run: what the agent emitted, cut to the cap. */
  method SaveInitial(emitted: seq<PlanPhase>) returns (saved: seq<PlanPhase>)
    ensures FlatSubs(saved) == Cut(FlatSubs(emitted), HARD_SUBTASK_CAP)
    ensures Numbers(saved) == Numbers(emitted)
  {
    var phases, ls, items := LoadPlan(emitted);
    ShapeNumbers(phases, ls, emitted);
    CapOwned(phases, ls, items, FlatSubs(emitted));
    saved := SavePlan(phases, Kept(ls, HARD_SUBTASK_CAP), Cut(items, HARD_SUBTASK_CAP));
    ShapeNumbers(phases, Kept(ls, HARD_SUBTASK_CAP), saved);
  }

  lemma SavedShape(phases: seq<Phase>, ls: seq<seq<Subtask>>, emitted: seq<PlanPhase>, id: string,
                   saved: seq<PlanPhase>)
    requires SameShape(phases, ls, emitted) && SameShape(phases, Kept(ls, HARD_SUBTASK_CAP), saved)
    requires FlatSubs(saved) == AfterReplan(FlatSubs(emitted), id)
    ensures SavedAs(emitted, id, saved)
  {
    forall i | 0 <= i < |saved|
      ensures |saved[i].subtasks| == |Kept(PhaseSubs(emitted), HARD_SUBTASK_CAP)[i]|
    {
      KeptLengths(ls, PhaseSubs(emitted), HARD_SUBTASK_CAP, i);
    }
  }

  method SaveCharged(emitted: seq<PlanPhase>, id: string)
    returns (newCount: int, stuck: bool, saved: seq<PlanPhase>)
    ensures SavedAs(emitted, id, saved) && Replanned(FlatSubs(emitted), id, newCount, stuck)
  {
    var phases, ls, items := LoadPlan(emitted);
    newCount, stuck := FinishOwned(phases, ls, items, FlatSubs(emitted), id);
    OwnsCut(phases, ls, items);
    saved := SaveCut(phases, ls, items, AfterReplan(FlatSubs(emitted), id));
    SavedShape(phases, ls, emitted, id, saved);
  }

  method SaveCut(phases: seq<Phase>, ghost ls: seq<seq<Subtask>>, ghost items: seq<Subtask>, ghost subs: seq<Sub>)
    returns (saved: seq<PlanPhase>)
    requires Owns(phases, Kept(ls, HARD_SUBTASK_CAP), Cut(items, HARD_SUBTASK_CAP))
    requires Values(Cut(items, HARD_SUBTASK_CAP)) == subs
    ensures SameShape(phases, Kept(ls, HARD_SUBTASK_CAP), saved) && FlatSubs(saved) == subs
  {
    saved := SavePlan(phases, Kept(ls, HARD_SUBTASK_CAP), Cut(items, HARD_SUBTASK_CAP));
    ItemsAre(Cut(items, HARD_SUBTASK_CAP), FlatSubs(saved));
  }

  /** Steps 5 to 8 of `_run_planner_replan`: check what the agent left against the
      plan before it, then charge, cut and save. */
  method SaveReplan(before: seq<PlanPhase>, emitted: seq<PlanPhase>, id: string)
    returns (ok: bool, newCount: int, stuck: bool, saved: seq<PlanPhase>)
    ensures ok <==> PhasesPreserved(Numbers(before), Numbers(emitted))
    ensures ok ==> SavedAs(emitted, id, saved) && Replanned(FlatSubs(emitted), id, newCount, stuck)
    ensures !ok ==> saved == before
  {
    ok := SamePhases(before, emitted);
    newCount, stuck, saved := 0, false, before;
    if ok {
      newCount, stuck, saved := SaveCharged(emitted, id);
    }
  }

  method SamePhases(before: seq<PlanPhase>, emitted: seq<PlanPhase>) returns (ok: bool)
    ensures ok <==> PhasesPreserved(Numbers(before), Numbers(emitted))
  {
    var planBefore, beforeLists, beforeItems := LoadPlan(before);
    ShapeNumbers(planBefore, beforeLists, before);
    var planAfter, afterLists, afterItems := LoadPlan(emitted);
    ShapeNumbers(planAfter, afterLists, emitted);
    ok := CheckExistingPhasesPreserved(planBefore, planAfter);
  }
}
