/** The plan file: what the Planner and Gen-Functional load, and save again. A
    stage works on objects it builds from the file; the file is what those objects
    say at the time of saving. */
module PlanFile {
  import opened TestPlan

  datatype PlanPhase = PlanPhase(number: int, subtasks: seq<Sub>)

  function PhaseSubs(file: seq<PlanPhase>): (ls: seq<seq<Sub>>)
    ensures |ls| == |file| && forall i :: 0 <= i < |file| ==> ls[i] == file[i].subtasks
  {
    seq(|file|, i requires 0 <= i < |file| => file[i].subtasks)
  }

  /** The subtasks of a plan in plan order. */
  function FlatSubs(file: seq<PlanPhase>): seq<Sub> {
    Concat(PhaseSubs(file))
  }

  function Numbers(file: seq<PlanPhase>): set<int> {
    set p | p in file :: p.number
  }

  function PhaseNumbers(phases: seq<Phase>): set<int> {
    set p | p in phases :: p.number
  }

  /** These are the subtask objects of each phase, and in plan order. */
  ghost predicate Owns(phases: seq<Phase>, ls: seq<seq<Subtask>>, items: seq<Subtask>)
    reads phases
  {
    items == Concat(ls) &&
    |phases| == |ls| && forall i :: 0 <= i < |phases| ==> phases[i].subtasks == ls[i]
  }

  ghost predicate SameShape(phases: seq<Phase>, ls: seq<seq<Subtask>>, file: seq<PlanPhase>) {
    |phases| == |ls| == |file| &&
    forall i :: 0 <= i < |ls| ==> phases[i].number == file[i].number && |ls[i]| == |file[i].subtasks|
  }

  ghost predicate ItemsSay(items: seq<Subtask>, subs: seq<Sub>)
    reads items
  {
    |items| == |subs| && forall k :: 0 <= k < |items| ==> items[k].Value() == subs[k]
  }

  /** The objects say what the file says: the same phases, and in each the same
      subtasks, since all subtasks in order and the length of every phase agree. */
  ghost predicate Says(phases: seq<Phase>, ls: seq<seq<Subtask>>, items: seq<Subtask>, file: seq<PlanPhase>)
    reads items
  {
    items == Concat(ls) && SameShape(phases, ls, file) && ItemsSay(items, FlatSubs(file))
  }

  lemma ConcatSnoc<T>(ls: seq<seq<T>>, l: seq<T>)
    ensures Concat(ls + [l]) == Concat(ls) + l
  {
    assert (ls + [l])[..|ls|] == ls;
  }

  lemma FlatSubsSnoc(file: seq<PlanPhase>, p: PlanPhase)
    ensures FlatSubs(file + [p]) == FlatSubs(file) + p.subtasks
  {
    assert PhaseSubs(file + [p])[..|file|] == PhaseSubs(file);
  }

  lemma ShapeSnoc(phases: seq<Phase>, ls: seq<seq<Subtask>>, file: seq<PlanPhase>, p: Phase, l: seq<Subtask>,
                  pf: PlanPhase)
    requires SameShape(phases, ls, file) && p.number == pf.number && |l| == |pf.subtasks|
    ensures SameShape(phases + [p], ls + [l], file + [pf])
  {
  }

  lemma ItemsAppend(a: seq<Subtask>, b: seq<Subtask>, s: seq<Sub>, t: seq<Sub>)
    requires ItemsSay(a, s) && ItemsSay(b, t)
    ensures ItemsSay(a + b, s + t)
  {
  }

  lemma SaysSnoc(phases: seq<Phase>, ls: seq<seq<Subtask>>, items: seq<Subtask>, file: seq<PlanPhase>,
                 p: Phase, l: seq<Subtask>, pf: PlanPhase)
    requires Says(phases, ls, items, file) && p.number == pf.number && ItemsSay(l, pf.subtasks)
    ensures Says(phases + [p], ls + [l], items + l, file + [pf])
  {
    ConcatSnoc(ls, l);
    FlatSubsSnoc(file, pf);
    ShapeSnoc(phases, ls, file, p, l, pf);
    ItemsAppend(items, l, FlatSubs(file), pf.subtasks);
  }

  lemma OwnsSnoc(phases: seq<Phase>, ls: seq<seq<Subtask>>, items: seq<Subtask>, p: Phase)
    requires Owns(phases, ls, items)
    ensures Owns(phases + [p], ls + [p.subtasks], items + p.subtasks)
  {
    ConcatSnoc(ls, p.subtasks);
  }

  /** Read as the stages read them. */
  lemma OwnsFlat(phases: seq<Phase>, ls: seq<seq<Subtask>>, items: seq<Subtask>)
    requires Owns(phases, ls, items)
    ensures Lists(phases) == ls && Flat(phases) == items
  {
    ListsAre(phases, ls);
  }

  lemma ItemsAre(items: seq<Subtask>, subs: seq<Sub>)
    ensures ItemsSay(items, subs) <==> Values(items) == subs
  {
    if ItemsSay(items, subs) {
      ValuesAre(items, subs);
    }
  }

  lemma ItemsCut(items: seq<Subtask>, subs: seq<Sub>, cap: nat)
    requires ItemsSay(items, subs)
    ensures ItemsSay(Cut(items, cap), Cut(subs, cap))
  {
  }

  /** `iter_subtasks` over the phases that own them. */
  method IterOwned(phases: seq<Phase>, ghost ls: seq<seq<Subtask>>, ghost items: seq<Subtask>)
    returns (all: seq<Subtask>)
    requires Owns(phases, ls, items)
    ensures all == items
  {
    all := IterSubtasks(phases);
    OwnsFlat(phases, ls, items);
  }

  lemma ShapeNumbers(phases: seq<Phase>, ls: seq<seq<Subtask>>, file: seq<PlanPhase>)
    requires SameShape(phases, ls, file)
    ensures PhaseNumbers(phases) == Numbers(file)
  {
    assert forall i :: 0 <= i < |phases| ==> phases[i] in phases && file[i] in file;
  }

  method LoadSubtasks(subs: seq<Sub>) returns (items: seq<Subtask>)
    ensures ItemsSay(items, subs) && DistinctSubtasks(items)
    ensures fresh(items)
  {
    items := [];
    for i := 0 to |subs|
      invariant |items| == i && DistinctSubtasks(items)
      invariant forall j :: 0 <= j < i ==> items[j].Value() == subs[j]
      invariant fresh(items)
    {
      var x := new Subtask(subs[i].id, subs[i].status, subs[i].replanCount);
      items := items + [x];
    }
  }

  lemma DistinctAppend(a: seq<Subtask>, b: seq<Subtask>)
    requires DistinctSubtasks(a) && DistinctSubtasks(b) && forall x :: x in b ==> x !in a
    ensures DistinctSubtasks(a + b)
  {
    var s := a + b;
    forall i, j | 0 <= i < j < |s|
      ensures s[i] != s[j]
    {
      if |a| <= i {
        assert s[i] == b[i - |a|] && s[j] == b[j - |a|];
      } else if |a| <= j {
        assert s[i] == a[i] && s[j] == b[j - |a|];
        assert b[j - |a|] in b;
      }
    }
  }

  /** Loaded so far, with no object in two places. */
  ghost predicate Loaded(phases: seq<Phase>, ls: seq<seq<Subtask>>, items: seq<Subtask>, file: seq<PlanPhase>)
    reads phases, items
  {
    Owns(phases, ls, items) && Says(phases, ls, items, file) && DistinctPhases(phases) && DistinctSubtasks(items)
  }

  lemma LoadedSnoc(phases: seq<Phase>, ls: seq<seq<Subtask>>, items: seq<Subtask>, file: seq<PlanPhase>,
                   p: Phase, pf: PlanPhase)
    requires Loaded(phases, ls, items, file)
    requires p.number == pf.number && ItemsSay(p.subtasks, pf.subtasks) && DistinctSubtasks(p.subtasks)
    requires p !in phases && forall x :: x in p.subtasks ==> x !in items
    ensures Loaded(phases + [p], ls + [p.subtasks], items + p.subtasks, file + [pf])
  {
    SaysSnoc(phases, ls, items, file, p, p.subtasks, pf);
    OwnsSnoc(phases, ls, items, p);
    DistinctAppend(items, p.subtasks);
  }

  method LoadPhase(pf: PlanPhase) returns (phase: Phase)
    ensures phase.number == pf.number && ItemsSay(phase.subtasks, pf.subtasks)
    ensures DistinctSubtasks(phase.subtasks)
    ensures fresh(phase) && fresh(phase.subtasks)
  {
    var loaded := LoadSubtasks(pf.subtasks);
    phase := new Phase(pf.number, loaded);
  }

  lemma PrefixSnoc<T>(a: seq<T>, s: seq<T>)
    requires |a| < |s| && a <= s
    ensures a + [s[|a|]] <= s
  {
  }

  /** `ImplementationPlan.load`: a fresh object for every phase and subtask. */
  method LoadPlan(file: seq<PlanPhase>)
    returns (phases: seq<Phase>, ghost ls: seq<seq<Subtask>>, ghost items: seq<Subtask>)
    ensures Loaded(phases, ls, items, file)
    ensures fresh(phases) && fresh(items)
  {
    phases, ls, items := [], [], [];
    ghost var done: seq<PlanPhase> := [];
    for i := 0 to |file|
      invariant |done| == i && done <= file && Loaded(phases, ls, items, done)
      invariant fresh(phases) && fresh(items)
    {
      var phase := LoadPhase(file[i]);
      LoadedSnoc(phases, ls, items, done, phase, file[i]);
      PrefixSnoc(done, file);
      phases, ls, items, done :=
        phases + [phase], ls + [phase.subtasks], items + phase.subtasks, done + [file[i]];
    }
    assert done == file;
  }

  method SaveSubtasks(items: seq<Subtask>) returns (subs: seq<Sub>)
    ensures ItemsSay(items, subs)
  {
    subs := [];
    for i := 0 to |items|
      invariant |subs| == i && forall j :: 0 <= j < i ==> items[j].Value() == subs[j]
    {
      subs := subs + [Sub(items[i].id, items[i].status, items[i].replanCount)];
    }
  }

  /** `ImplementationPlan.save`. */
  method SavePlan(phases: seq<Phase>, ghost ls: seq<seq<Subtask>>, ghost items: seq<Subtask>)
    returns (file: seq<PlanPhase>)
    requires Owns(phases, ls, items)
    ensures Says(phases, ls, items, file)
  {
    file := [];
    ghost var seen: seq<Phase>, lists: seq<seq<Subtask>>, saved: seq<Subtask> := [], [], [];
    for i := 0 to |phases|
      invariant |seen| == |lists| == i && seen <= phases && lists <= ls && Says(seen, lists, saved, file)
    {
      var subs := SaveSubtasks(phases[i].subtasks);
      var pf := PlanPhase(phases[i].number, subs);
      SaysSnoc(seen, lists, saved, file, phases[i], ls[i], pf);
      PrefixSnoc(seen, phases);
      PrefixSnoc(lists, ls);
      file, seen, lists, saved := file + [pf], seen + [phases[i]], lists + [ls[i]], saved + ls[i];
    }
    assert seen == phases && lists == ls;
  }
}
