/** The test plan: phases of subtasks, as objects the stages update in place. */
module TestPlan {
  // The value of a plan is its subtasks in plan order, which is the order
  // `iter_subtasks` yields them in.

  datatype SubtaskStatus = Pending | InProgress | Completed | Blocked | Failed

  /** What one subtask says at one moment. */
  datatype Sub = Sub(id: string, status: SubtaskStatus, replanCount: int)

  const HARD_SUBTASK_CAP: nat := 30
  const STUCK_AFTER_REPLANS: nat := 2

  // ---- Operations on values ----

  /** Position of the first subtask carrying `id`, or -1. */
  function FirstWithId(s: seq<Sub>, id: string): (k: int)
    ensures -1 <= k < |s|
    ensures k >= 0 ==> s[k].id == id && forall i :: 0 <= i < k ==> s[i].id != id
    ensures k < 0 ==> forall i :: 0 <= i < |s| ==> s[i].id != id
  {
    if s == [] then -1
    else if s[0].id == id then 0
    else
      var k := FirstWithId(s[1..], id);
      assert forall i :: 1 <= i < |s| ==> s[i] == s[1..][i - 1];
      if k < 0 then -1 else k + 1
  }

  /** One more replan; the second one gives the subtask up. "stuck" is not a
      member of SubtaskStatus, so the code falls back to FAILED. */
  function Charged(x: Sub): Sub {
    var count := x.replanCount + 1;
    Sub(x.id, if count >= STUCK_AFTER_REPLANS then Failed else x.status, count)
  }

  function Bump(s: seq<Sub>, id: string): seq<Sub> {
    var k := FirstWithId(s, id);
    if k < 0 then s else s[k := Charged(s[k])]
  }

  // ---- The objects ----

  class Subtask {
    const id: string
    var status: SubtaskStatus
    var replanCount: int

    constructor (id: string, status: SubtaskStatus, replanCount: int)
      ensures this.id == id && this.status == status && this.replanCount == replanCount
    {
      this.id, this.status, this.replanCount := id, status, replanCount;
    }

    ghost function Value(): Sub
      reads this
    {
      Sub(id, status, replanCount)
    }

    method Complete()
      modifies this`status
      ensures Value() == old(Value()).(status := Completed)
    {
      status := Completed;
    }

    method Fail()
      modifies this`status
      ensures Value() == old(Value()).(status := Failed)
    {
      status := Failed;
    }

    method Charge() returns (newCount: int, stuck: bool)
      modifies this
      ensures Value() == Charged(old(Value()))
      ensures newCount == replanCount && stuck == (newCount >= STUCK_AFTER_REPLANS)
    {
      replanCount := replanCount + 1;
      newCount := replanCount;
      stuck := newCount >= STUCK_AFTER_REPLANS;
      if stuck {
        status := Failed;
      }
    }
  }

  class Phase {
    const number: int
    var subtasks: seq<Subtask>

    constructor (number: int, subtasks: seq<Subtask>)
      ensures this.number == number && this.subtasks == subtasks
    {
      this.number, this.subtasks := number, subtasks;
    }
  }

  /** The subtask lists of the phases, and the one list they make in plan order. */
  ghost function Lists(phases: seq<Phase>): (ls: seq<seq<Subtask>>)
    reads phases
    ensures |ls| == |phases| && forall i :: 0 <= i < |ls| ==> ls[i] == phases[i].subtasks
  {
    if phases == [] then [] else Lists(phases[..|phases| - 1]) + [phases[|phases| - 1].subtasks]
  }

  function Concat<T>(ls: seq<seq<T>>): seq<T> {
    if ls == [] then [] else Concat(ls[..|ls| - 1]) + ls[|ls| - 1]
  }

  /** How much of the budget is left when list `i` is reached. */
  function Budget<T>(ls: seq<seq<T>>, cap: nat, i: nat): nat
    requires i <= |ls|
  {
    var used := |Concat(ls[..i])|;
    if used >= cap then 0 else cap - used
  }

  /** Each list cut to the budget the earlier lists leave it. */
  function Kept<T>(ls: seq<seq<T>>, cap: nat): (ks: seq<seq<T>>)
    ensures |ks| == |ls| && forall i :: 0 <= i < |ls| ==> ks[i] == Cut(ls[i], Budget(ls, cap, i))
  {
    seq(|ls|, i requires 0 <= i < |ls| => Cut(ls[i], Budget(ls, cap, i)))
  }

  function Cut<T>(s: seq<T>, cap: nat): seq<T> {
    if |s| <= cap then s else s[..cap]
  }

  /** How many items the cap has cost the lists before `i`. */
  function Lost<T>(ls: seq<seq<T>>, cap: nat, i: nat): nat
    requires i <= |ls|
  {
    |Concat(ls[..i])| - |Cut(Concat(ls[..i]), cap)|
  }

  lemma LostStep<T>(ls: seq<seq<T>>, cap: nat, i: nat)
    requires i < |ls|
    ensures Lost(ls, cap, i + 1) ==
            Lost(ls, cap, i) + if |ls[i]| > Budget(ls, cap, i) then |ls[i]| - Budget(ls, cap, i) else 0
  {
    BudgetStep(ls, cap, i);
  }

  lemma LostAll<T>(ls: seq<seq<T>>, cap: nat)
    ensures Lost(ls, cap, |ls|) == |Concat(ls)| - |Cut(Concat(ls), cap)|
  {
    assert ls[..|ls|] == ls;
  }

  lemma BudgetStep<T>(ls: seq<seq<T>>, cap: nat, i: nat)
    requires i < |ls|
    ensures Concat(ls[..i + 1]) == Concat(ls[..i]) + ls[i]
    ensures Budget(ls, cap, i + 1) ==
            if |ls[i]| >= Budget(ls, cap, i) then 0 else Budget(ls, cap, i) - |ls[i]|
  {
    assert ls[..i + 1][..i] == ls[..i];
  }

  lemma CutConcat<T>(a: seq<T>, b: seq<T>, cap: nat)
    ensures Cut(a + b, cap) == Cut(a, cap) + Cut(b, if |a| >= cap then 0 else cap - |a|)
  {
  }

  /** Cutting phase by phase keeps exactly the first `cap` items in plan order. */
  lemma {:induction false} KeptIsPrefix<T>(ls: seq<seq<T>>, cap: nat)
    ensures Concat(Kept(ls, cap)) == Cut(Concat(ls), cap)
  {
    if ls != [] {
      var n := |ls| - 1;
      KeptFront(ls, cap);
      KeptIsPrefix(ls[..n], cap);
      CutConcat(Concat(ls[..n]), ls[n], cap);
    }
  }

  lemma KeptFront<T>(ls: seq<seq<T>>, cap: nat)
    requires ls != []
    ensures Kept(ls, cap)[..|ls| - 1] == Kept(ls[..|ls| - 1], cap)
  {
    var front := ls[..|ls| - 1];
    forall i | 0 <= i < |front|
      ensures Kept(ls, cap)[i] == Kept(front, cap)[i]
    {
      assert ls[..i] == front[..i];
    }
  }

  ghost function Flat(phases: seq<Phase>): seq<Subtask>
    reads phases
  {
    Concat(Lists(phases))
  }

  ghost function Values(items: seq<Subtask>): (vs: seq<Sub>)
    reads items
    ensures |vs| == |items|
    ensures forall i :: 0 <= i < |items| ==> vs[i] == items[i].Value()
  {
    if items == [] then [] else Values(items[..|items| - 1]) + [items[|items| - 1].Value()]
  }

  /** Loading a plan builds a fresh object for every phase and every subtask. */
  ghost predicate DistinctPhases(s: seq<Phase>) {
    forall i, j :: 0 <= i < j < |s| ==> s[i] != s[j]
  }

  ghost predicate DistinctSubtasks(s: seq<Subtask>) {
    forall i, j :: 0 <= i < j < |s| ==> s[i] != s[j]
  }

  /** `_count_subtasks`. */
  function CountSubtasks(phases: seq<Phase>): (n: nat)
    reads phases
    ensures n == |Flat(phases)|
  {
    if phases == [] then 0
    else CountSubtasks(phases[..|phases| - 1]) + |phases[|phases| - 1].subtasks|
  }

  /** `iter_subtasks`: every subtask, phase by phase. */
  method IterSubtasks(phases: seq<Phase>) returns (items: seq<Subtask>)
    ensures items == Flat(phases)
  {
    items := [];
    ghost var ls := Lists(phases);
    for i := 0 to |phases|
      invariant items == Concat(ls[..i])
    {
      BudgetStep(ls, 0, i);
      for j := 0 to |phases[i].subtasks|
        invariant items == Concat(ls[..i]) + ls[i][..j]
      {
        items := items + [phases[i].subtasks[j]];
      }
    }
    assert ls[..|ls|] == ls;
  }

  lemma ListsAre(phases: seq<Phase>, ls: seq<seq<Subtask>>)
    requires |ls| == |phases| && forall j :: 0 <= j < |phases| ==> phases[j].subtasks == ls[j]
    ensures Lists(phases) == ls
  {
  }

  lemma ValuesAre(items: seq<Subtask>, vs: seq<Sub>)
    requires |vs| == |items| && forall i :: 0 <= i < |items| ==> items[i].Value() == vs[i]
    ensures Values(items) == vs
  {
  }

  lemma ValuesCut(items: seq<Subtask>, cap: nat)
    ensures Values(Cut(items, cap)) == Cut(Values(items), cap)
  {
  }

  /** `_truncate_subtasks`: drops the subtasks past `cap`, phase by phase. What
      is left is exactly the first `cap` subtasks in plan order, each still in
      the phase it was in. */
  method TruncateSubtasks(phases: seq<Phase>, cap: nat) returns (dropped: nat)
    requires DistinctPhases(phases)
    modifies phases`subtasks
    ensures Lists(phases) == Kept(old(Lists(phases)), cap)
    ensures Flat(phases) == Cut(old(Flat(phases)), cap)
    ensures dropped == |old(Flat(phases))| - |Flat(phases)|
  {
    ghost var ls := Lists(phases);
    dropped := CutPhases(phases, ls, cap);
    ListsAre(phases, Kept(ls, cap));
    LostAll(ls, cap);
    KeptIsPrefix(ls, cap);
  }

  /** A budget and a loss for every list, each following from the one before. */
  ghost predicate Ledger<T>(ls: seq<seq<T>>, budgets: seq<nat>, losses: seq<nat>) {
    |budgets| == |losses| == |ls| + 1 && losses[0] == 0 &&
    forall i :: 0 <= i < |ls| ==>
      budgets[i + 1] == (if |ls[i]| >= budgets[i] then 0 else budgets[i] - |ls[i]|) &&
      losses[i + 1] == losses[i] + (if |ls[i]| > budgets[i] then |ls[i]| - budgets[i] else 0)
  }

  lemma LedgerOf<T>(ls: seq<seq<T>>, cap: nat) returns (budgets: seq<nat>, losses: seq<nat>)
    ensures Ledger(ls, budgets, losses) && budgets[0] == cap && losses[|ls|] == Lost(ls, cap, |ls|)
    ensures forall i :: 0 <= i < |ls| ==> budgets[i] == Budget(ls, cap, i)
  {
    budgets := seq(|ls| + 1, i requires 0 <= i <= |ls| => Budget(ls, cap, i));
    losses := seq(|ls| + 1, i requires 0 <= i <= |ls| => Lost(ls, cap, i));
    forall i | 0 <= i < |ls|
      ensures budgets[i + 1] == (if |ls[i]| >= budgets[i] then 0 else budgets[i] - |ls[i]|)
      ensures losses[i + 1] == losses[i] + (if |ls[i]| > budgets[i] then |ls[i]| - budgets[i] else 0)
    {
      BudgetStep(ls, cap, i);
      LostStep(ls, cap, i);
    }
  }

  /** `_truncate_subtasks` phase by phase: each keeps what the earlier phases left
      of the budget. */
  method CutPhases(phases: seq<Phase>, ghost ls: seq<seq<Subtask>>, cap: nat) returns (dropped: nat)
    requires DistinctPhases(phases)
    requires |ls| == |phases| && forall j :: 0 <= j < |phases| ==> phases[j].subtasks == ls[j]
    modifies phases`subtasks
    ensures forall j :: 0 <= j < |phases| ==> phases[j].subtasks == Cut(ls[j], Budget(ls, cap, j))
    ensures dropped == Lost(ls, cap, |ls|)
  {
    ghost var budgets, losses := LedgerOf(ls, cap);
    dropped := CutLoop(phases, ls, cap, budgets, losses);
  }

  method CutLoop(phases: seq<Phase>, ghost ls: seq<seq<Subtask>>, cap: nat,
                 ghost budgets: seq<nat>, ghost losses: seq<nat>)
    returns (dropped: nat)
    requires DistinctPhases(phases)
    requires |ls| == |phases| && forall j :: 0 <= j < |phases| ==> phases[j].subtasks == ls[j]
    requires Ledger(ls, budgets, losses) && budgets[0] == cap
    modifies phases`subtasks
    ensures forall j :: 0 <= j < |phases| ==> phases[j].subtasks == Cut(ls[j], budgets[j])
    ensures dropped == losses[|ls|]
  {
    dropped := 0;
    var keep := cap;
    for i := 0 to |phases|
      invariant keep == budgets[i] && dropped == losses[i]
      invariant forall j :: i <= j < |phases| ==> phases[j].subtasks == ls[j]
      invariant forall j :: 0 <= j < i ==> phases[j].subtasks == Cut(ls[j], budgets[j])
    {
      var over, left := CutPhase(phases[i], keep);
      keep, dropped := left, dropped + over;
    }
  }

  /** One phase: it keeps at most `keep` subtasks and leaves the rest of the budget. */
  method CutPhase(phase: Phase, keep: nat) returns (over: nat, left: nat)
    modifies phase`subtasks
    ensures phase.subtasks == Cut(old(phase.subtasks), keep)
    ensures over == if |old(phase.subtasks)| > keep then |old(phase.subtasks)| - keep else 0
    ensures left == if |old(phase.subtasks)| >= keep then 0 else keep - |old(phase.subtasks)|
  {
    if keep <= 0 {
      over, left := |phase.subtasks|, keep;
      phase.subtasks := [];
    } else if |phase.subtasks| > keep {
      over, left := |phase.subtasks| - keep, 0;
      phase.subtasks := phase.subtasks[..keep];
    } else {
      over, left := 0, keep - |phase.subtasks|;
    }
  }

  /** `_find_subtask_by_id`, as a position in plan order. */
  method FindSubtask(items: seq<Subtask>, id: string) returns (k: int)
    ensures k == FirstWithId(Values(items), id)
  {
    k := 0;
    while k < |items| && items[k].id != id
      invariant 0 <= k <= |items|
      invariant forall j :: 0 <= j < k ==> items[j].id != id
    {
      k := k + 1;
    }
    assert forall j :: 0 <= j < |items| ==> Values(items)[j].id == items[j].id;
    k := if k == |items| then -1 else k;
  }

  /** `_bump_replan_count_and_maybe_stuck`, over the subtasks of a plan. */
  method BumpReplanCount(items: seq<Subtask>, id: string) returns (newCount: int, stuck: bool)
    requires DistinctSubtasks(items)
    modifies items
    ensures Values(items) == Bump(old(Values(items)), id)
    ensures var k := FirstWithId(old(Values(items)), id);
      if k < 0 then newCount == 0 && !stuck
      else newCount == old(Values(items))[k].replanCount + 1 && stuck == (newCount >= STUCK_AFTER_REPLANS)
  {
    var k := FindSubtask(items, id);
    if k < 0 {
      return 0, false;
    }
    newCount, stuck := ChargeAt(items, k);
  }

  method ChargeAt(items: seq<Subtask>, k: nat) returns (newCount: int, stuck: bool)
    requires DistinctSubtasks(items) && k < |items|
    modifies items
    ensures Values(items) == old(Values(items))[k := Charged(old(Values(items))[k])]
    ensures newCount == old(Values(items))[k].replanCount + 1 && stuck == (newCount >= STUCK_AFTER_REPLANS)
  {
    ghost var was := Values(items);
    newCount, stuck := items[k].Charge();
    assert forall i :: 0 <= i < |items| && i != k ==> items[i].Value() == was[i];
  }
}
