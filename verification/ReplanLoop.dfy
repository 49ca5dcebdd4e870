/** The Gen-Functional / Planner-replan loop. */
module ReplanLoop {
  import O = Options
  import opened Text
  import opened TestPlan

  // A guardrail rejects a pending subtask, the Planner is asked to append a
  // corrected one, and Gen-Functional starts over on what is pending. What stops
  // this is the replan counter, the cap on subtasks, and a planner agent that
  // leaves the old plan alone.

  // ---- One pass of Gen-Functional over the pending subtasks ----

  /** What the session and the guards make of one pending subtask. */
  datatype Outcome =
    | NoFiles              // nothing to create: failed, loop goes on
    | SessionError         // failed, loop goes on
    | NotWritten           // the three rejections ask for a replan
    | PreflightRejected
    | FlakeRejected
    | Passed
    | Raised               // an exception leaves the loop, nothing is saved
  {
    predicate Rejects() {
      NotWritten? || PreflightRejected? || FlakeRejected?
    }
  }

  datatype Pass =
    | Finished(plan: seq<Sub>, generated: nat)
    | Rejected(plan: seq<Sub>, at: nat, generated: nat)
    | Crashed

  /** Where the pending subtasks are, in plan order. */
  function PendingAt(s: seq<Sub>): (ps: seq<nat>)
    ensures forall j :: 0 <= j < |ps| ==> ps[j] < |s| && s[ps[j]].status == Pending
    ensures forall i, j :: 0 <= i < j < |ps| ==> ps[i] < ps[j]
    ensures forall k :: 0 <= k < |s| && s[k].status == Pending ==> k in ps
  {
    if s == [] then []
    else
      var n := |s| - 1;
      var front := PendingAt(s[..n]);
      if s[n].status == Pending then front + [n] else front
  }

  /** The rest of a pass, from the `i`-th pending position on. */
  function PassFrom(s: seq<Sub>, ps: seq<nat>, outcomes: seq<Outcome>, i: nat, generated: nat): Pass
    requires i <= |ps| <= |outcomes|
    requires forall j :: 0 <= j < |ps| ==> ps[j] < |s|
    decreases |ps| - i
  {
    if i == |ps| then Finished(s, generated)
    else
      var k := ps[i];
      if outcomes[i].Raised? then Crashed
      else if outcomes[i].Rejects() then Rejected(s, k, generated)
      else
        PassFrom(s[k := Settled(s[k], outcomes[i].Passed?)], ps, outcomes, i + 1,
                 if outcomes[i].Passed? then generated + 1 else generated)
  }

  function Settled(x: Sub, done: bool): Sub {
    x.(status := if done then Completed else Failed)
  }

  function GenPass(s: seq<Sub>, outcomes: seq<Outcome>): Pass
    requires |PendingAt(s)| <= |outcomes|
  {
    PassFrom(s, PendingAt(s), outcomes, 0, 0)
  }

  // ---- The Planner's half ----

  /** What `_check_existing_phases_preserved` looks at: phase numbers only. */
  predicate PhasesPreserved(before: set<int>, after: set<int>) {
    before <= after && |after - before| <= 1
  }

  /** Every phase number is kept, and any two new ones are the same. */
  lemma PhasesPreservedIff(before: set<int>, after: set<int>)
    ensures PhasesPreserved(before, after) <==>
      (forall p :: p in before ==> p in after) &&
      forall p, q :: p in after && q in after && p !in before && q !in before ==> p == q
  {
    var added := after - before;
    O.OneAtMost(added);
    assert forall p :: p in added <==> p in after && p !in before;
    if forall p :: p in before ==> p in after {
      assert before <= after;
      if forall p, q :: p in after && q in after && p !in before && q !in before ==> p == q {
        assert O.AllOne(added);
      }
    }
  }

  /** The plan saved after a replan for `id`. */
  function AfterReplan(agentPlan: seq<Sub>, id: string): seq<Sub> {
    Cut(Bump(agentPlan, id), HARD_SUBTASK_CAP)
  }

  // ---- What the planner agent is asked to do ----

  /** An earlier subtask has the same id, so whatever is done by id hits that one. */
  ghost predicate Shadowed(s: seq<Sub>, k: nat) {
    k < |s| && exists i :: 0 <= i < k && s[i].id == s[k].id
  }

  /** The id of a pending subtask leads to it. */
  ghost predicate NoneShadowed(s: seq<Sub>) {
    forall k :: 0 <= k < |s| && s[k].status == Pending ==> !Shadowed(s, k)
  }

  /** No subtask starts with more than its two rejections to go. */
  predicate CountsFromZero(s: seq<Sub>) {
    forall k :: 0 <= k < |s| && s[k].status == Pending ==> s[k].replanCount >= 0
  }

  ghost predicate WellFormed(s: seq<Sub>) {
    NoneShadowed(s) && CountsFromZero(s)
  }

  /** What the loop cannot do without: every old subtask stays where it is, its
      counter may only rise, and whatever is new comes after. */
  ghost predicate KeepsOldSubtasks(before: seq<Sub>, after: seq<Sub>) {
    |before| <= |after| &&
    forall i :: 0 <= i < |before| ==>
      after[i].id == before[i].id && after[i].status == before[i].status &&
      after[i].replanCount >= before[i].replanCount
  }

  /** What is new has an id of its own and a counter that starts at zero or above. */
  ghost predicate AddsFreshSubtasks(before: seq<Sub>, after: seq<Sub>) {
    forall k :: |before| <= k < |after| && after[k].status == Pending ==>
      !Shadowed(after, k) && after[k].replanCount >= 0
  }

  ghost predicate Obeys(before: seq<Sub>, after: seq<Sub>) {
    KeepsOldSubtasks(before, after) && AddsFreshSubtasks(before, after)
  }

  /** What the prompt asks for: the plan as it is with the counter of the rejected
      subtask raised by one, and one corrected subtask appended, pending and under
      an id that is not taken. */
  ghost predicate CorrectsOne(before: seq<Sub>, at: nat, after: seq<Sub>) {
    at < |before| && |after| == |before| + 1 &&
    after[..|before|] == before[at := before[at].(replanCount := before[at].replanCount + 1)] &&
    after[|before|].status == Pending && after[|before|].replanCount == 0 && !Shadowed(after, |before|)
  }

  /** To the letter: the new id is the rejected one with `-r` and a number. */
  ghost predicate ToTheLetter(before: seq<Sub>, at: nat, after: seq<Sub>) {
    CorrectsOne(before, at, after) && exists n: nat :: after[|before|].id == RetryId(before[at].id, n)
  }

  function RetryId(id: string, n: nat): string {
    id + "-r" + Decimal(n)
  }

  /** An agent that does what the prompt asks for obeys in the sense above. */
  lemma CorrectingObeys(before: seq<Sub>, at: nat, after: seq<Sub>)
    requires CorrectsOne(before, at, after)
    ensures Obeys(before, after)
  {
    forall i | 0 <= i < |before|
      ensures after[i].id == before[i].id && after[i].status == before[i].status &&
              after[i].replanCount >= before[i].replanCount
    {
      assert after[i] == after[..|before|][i];
    }
  }

  /** One turn of the loop: `plan` is rejected at `at` and `next` is what
      Gen-Functional reads when it is scheduled again. */
  ghost predicate Turn(plan: seq<Sub>, outcomes: seq<Outcome>, agentPlan: seq<Sub>, next: seq<Sub>) {
    |PendingAt(plan)| <= |outcomes| &&
    var pass := GenPass(plan, outcomes);
    pass.Rejected? && pass.at < |pass.plan| &&
    Obeys(pass.plan, agentPlan) &&
    next == AfterReplan(agentPlan, pass.plan[pass.at].id)
  }

  /** What the environment did in one round. */
  datatype Round = Round(outcomes: seq<Outcome>, agentPlan: seq<Sub>)

  /** A run of the loop: each plan leads to the next through one replan. */
  ghost predicate ReplanRun(plans: seq<seq<Sub>>, rounds: seq<Round>) {
    |plans| == |rounds| + 1 &&
    forall i {:trigger rounds[i]} :: 0 <= i < |rounds| ==>
      Turn(plans[i], rounds[i].outcomes, rounds[i].agentPlan, plans[i + 1])
  }

  // ---- The measure ----

  /** What a subtask can still cost: a pending one is replanned until its second
      rejection gives it up, and at least once if it is rejected at all. */
  function Weight(x: Sub): nat {
    if x.status != Pending then 0
    else if x.replanCount >= 1 then 1
    else 2 - x.replanCount
  }

  function Total(cost: Sub -> nat, s: seq<Sub>): nat {
    if s == [] then 0 else Total(cost, s[..|s| - 1]) + cost(s[|s| - 1])
  }

  function Weights(s: seq<Sub>): nat {
    Total(Weight, s)
  }

  /** Two for every free place in the plan, plus what the pending ones weigh. */
  function Measure(s: seq<Sub>): int {
    2 * (HARD_SUBTASK_CAP - |s|) + Weights(s)
  }

  lemma {:induction false} TotalConcat(cost: Sub -> nat, a: seq<Sub>, b: seq<Sub>)
    ensures Total(cost, a + b) == Total(cost, a) + Total(cost, b)
  {
    if b == [] {
      assert a + b == a;
    } else {
      assert (a + b)[..|a + b| - 1] == a + b[..|b| - 1];
      TotalConcat(cost, a, b[..|b| - 1]);
    }
  }

  lemma {:induction false} TotalBound(cost: Sub -> nat, s: seq<Sub>, most: nat)
    requires forall i :: 0 <= i < |s| ==> cost(s[i]) <= most
    ensures Total(cost, s) <= most * |s|
  {
    if s != [] {
      TotalBound(cost, s[..|s| - 1], most);
    }
  }

  /** Pointwise cheaper is cheaper, and strictly so if one place is. */
  lemma {:induction false} TotalMonotone(cost: Sub -> nat, a: seq<Sub>, b: seq<Sub>)
    requires |a| == |b| && forall i :: 0 <= i < |a| ==> cost(a[i]) <= cost(b[i])
    ensures Total(cost, a) <= Total(cost, b)
    ensures (exists i :: 0 <= i < |a| && cost(a[i]) < cost(b[i])) ==> Total(cost, a) < Total(cost, b)
  {
    if a != [] {
      TotalMonotone(cost, a[..|a| - 1], b[..|b| - 1]);
    }
  }

  lemma PendingWeighs(s: seq<Sub>, k: nat)
    requires k < |s| && s[k].status == Pending
    ensures Weights(s) >= 1
  {
    var idle := s[k := s[k].(status := Failed)];
    TotalMonotone(Weight, idle, s);
  }

  /** A pass only settles pending subtasks, and a rejected one is still pending. */
  lemma {:induction false} PassSettles(s: seq<Sub>, ps: seq<nat>, outcomes: seq<Outcome>, i: nat, generated: nat)
    requires i <= |ps| <= |outcomes|
    requires forall j :: 0 <= j < |ps| ==> ps[j] < |s|
    requires forall a, b :: 0 <= a < b < |ps| ==> ps[a] < ps[b]
    requires forall j :: i <= j < |ps| ==> s[ps[j]].status == Pending
    ensures var r := PassFrom(s, ps, outcomes, i, generated);
      r.Crashed? || (|r.plan| == |s| && forall k :: 0 <= k < |s| ==>
        (r.plan[k] == s[k] ||
         (s[k].status == Pending && r.plan[k].status in {Failed, Completed} &&
          r.plan[k] == s[k].(status := r.plan[k].status))))
    ensures var r := PassFrom(s, ps, outcomes, i, generated);
      r.Rejected? ==> r.at in ps && r.at < |r.plan| && r.plan[r.at].status == Pending
    decreases |ps| - i
  {
    if i < |ps| && !outcomes[i].Raised? && !outcomes[i].Rejects() {
      var s' := s[ps[i] := Settled(s[ps[i]], outcomes[i].Passed?)];
      var generated' := if outcomes[i].Passed? then generated + 1 else generated;
      PassSettles(s', ps, outcomes, i + 1, generated');
      assert PassFrom(s, ps, outcomes, i, generated) == PassFrom(s', ps, outcomes, i + 1, generated');
    }
  }

  lemma PassLightens(s: seq<Sub>, outcomes: seq<Outcome>)
    requires |PendingAt(s)| <= |outcomes|
    ensures var r := GenPass(s, outcomes);
      r.Crashed? || (|r.plan| == |s| && Weights(r.plan) <= Weights(s) &&
        forall k :: 0 <= k < |s| ==> r.plan[k].id == s[k].id && r.plan[k].replanCount == s[k].replanCount)
    ensures var r := GenPass(s, outcomes);
      r.Rejected? ==> r.at < |r.plan| && r.plan[r.at].status == Pending
  {
    PassSettles(s, PendingAt(s), outcomes, 0, 0);
    var r := GenPass(s, outcomes);
    if !r.Crashed? {
      TotalMonotone(Weight, r.plan, s);
    }
  }

  // ---- What a pass makes of every subtask ----

  /** The outcomes after which the loop goes on. */
  predicate GoesOn(o: Outcome) {
    o == NoFiles || o == SessionError || o == Passed
  }

  /** How many of the first `n` outcomes come before one that stops the loop. */
  function TriedCount(outcomes: seq<Outcome>, n: nat): (t: nat)
    requires n <= |outcomes|
    ensures t <= n && (forall j :: 0 <= j < t ==> GoesOn(outcomes[j])) && (t < n ==> !GoesOn(outcomes[t]))
  {
    if n == 0 then 0
    else
      var t := TriedCount(outcomes, n - 1);
      if t == n - 1 && GoesOn(outcomes[t]) then n else t
  }

  /** Passed is completed; no files, or a session that failed, is failed. */
  function TriedAs(x: Sub, o: Outcome): Sub {
    Sub(x.id, if o == Passed then Completed else Failed, x.replanCount)
  }

  /** The first `t` of the subtasks at `ps` have been tried: each is completed if
      its own outcome is that it passed and failed otherwise, and every other
      subtask is as it was. */
  ghost predicate Tried(was: seq<Sub>, now: seq<Sub>, ps: seq<nat>, outcomes: seq<Outcome>, t: nat) {
    |now| == |was| && t <= |ps| <= |outcomes| &&
    (forall j :: 0 <= j < t ==>
      GoesOn(outcomes[j]) && ps[j] < |was| && now[ps[j]] == TriedAs(was[ps[j]], outcomes[j])) &&
    forall k: nat :: k < |was| && k !in ps[..t] ==> now[k] == was[k]
  }

  predicate BecameDone(x: Sub, y: Sub) {
    x.status == Pending && y.status == Completed
  }

  /** Where a pending subtask has become a completed one. */
  ghost function NewlyDone(was: seq<Sub>, now: seq<Sub>): set<nat>
    requires |was| == |now|
  {
    set k: nat | k < |was| && BecameDone(was[k], now[k])
  }

  lemma TriedStep(was: seq<Sub>, now: seq<Sub>, ps: seq<nat>, outcomes: seq<Outcome>, t: nat)
    requires Tried(was, now, ps, outcomes, t) && t < |ps| && GoesOn(outcomes[t])
    requires Positions(was, ps)
    ensures now[ps[t]] == was[ps[t]]
    ensures Tried(was, now[ps[t] := Settled(now[ps[t]], outcomes[t].Passed?)], ps, outcomes, t + 1)
  {
    assert forall j :: 0 <= j < t ==> ps[j] != ps[t];
    assert ps[t] !in ps[..t];
    assert ps[..t + 1] == ps[..t] + [ps[t]];
  }

  lemma DoneStep(was: seq<Sub>, now: seq<Sub>, k: nat, passed: bool)
    requires |was| == |now| && k < |was| && now[k] == was[k] && was[k].status == Pending
    ensures |NewlyDone(was, now[k := Settled(now[k], passed)])| ==
            |NewlyDone(was, now)| + if passed then 1 else 0
  {
    var next := now[k := Settled(now[k], passed)];
    assert k !in NewlyDone(was, now) && BecameDone(was[k], next[k]) == passed;
    assert NewlyDone(was, next) == NewlyDone(was, now) + if passed then {k} else {};
  }

  /** What came of a pass over the subtasks at `ps`, said of the subtasks. */
  ghost predicate PassDid(was: seq<Sub>, ps: seq<nat>, outcomes: seq<Outcome>, r: Pass)
    requires |ps| <= |outcomes|
  {
    var t := TriedCount(outcomes, |ps|);
    match r
    case Finished(now, n) =>
      t == |ps| && Tried(was, now, ps, outcomes, t) && n == |NewlyDone(was, now)|
    case Rejected(now, k, n) =>
      t < |ps| && outcomes[t] != Raised && k == ps[t] &&
      Tried(was, now, ps, outcomes, t) && n == |NewlyDone(was, now)|
    case Crashed => t < |ps| && outcomes[t] == Raised
  }

  lemma {:induction false} TriedUpTo(outcomes: seq<Outcome>, n: nat, i: nat)
    requires i < n <= |outcomes| && !GoesOn(outcomes[i]) && forall j :: 0 <= j < i ==> GoesOn(outcomes[j])
    ensures TriedCount(outcomes, n) == i
  {
  }

  /** Increasing positions of subtasks that were pending. */
  ghost predicate Positions(was: seq<Sub>, ps: seq<nat>) {
    (forall j :: 0 <= j < |ps| ==> ps[j] < |was| && was[ps[j]].status == Pending) &&
    forall a, b :: 0 <= a < b < |ps| ==> ps[a] < ps[b]
  }

  ghost predicate DoneSoFar(was: seq<Sub>, s: seq<Sub>, ps: seq<nat>, outcomes: seq<Outcome>, i: nat, generated: nat) {
    Tried(was, s, ps, outcomes, i) && generated == |NewlyDone(was, s)|
  }

  lemma DoneSoFarStep(was: seq<Sub>, s: seq<Sub>, ps: seq<nat>, outcomes: seq<Outcome>, i: nat, generated: nat)
    requires Positions(was, ps) && DoneSoFar(was, s, ps, outcomes, i, generated)
    requires i < |ps| && GoesOn(outcomes[i])
    ensures DoneSoFar(was, s[ps[i] := Settled(s[ps[i]], outcomes[i].Passed?)], ps, outcomes, i + 1,
                      if outcomes[i].Passed? then generated + 1 else generated)
  {
    TriedStep(was, s, ps, outcomes, i);
    DoneStep(was, s, ps[i], outcomes[i].Passed?);
  }

  lemma StoppedDid(was: seq<Sub>, s: seq<Sub>, ps: seq<nat>, outcomes: seq<Outcome>, i: nat, generated: nat)
    requires Positions(was, ps) && DoneSoFar(was, s, ps, outcomes, i, generated)
    requires i < |ps| && !GoesOn(outcomes[i])
    ensures PassDid(was, ps, outcomes, if outcomes[i] == Raised then Crashed else Rejected(s, ps[i], generated))
  {
    TriedUpTo(outcomes, |ps|, i);
  }

  lemma FinishedDid(was: seq<Sub>, s: seq<Sub>, ps: seq<nat>, outcomes: seq<Outcome>, generated: nat)
    requires Positions(was, ps) && DoneSoFar(was, s, ps, outcomes, |ps|, generated)
    ensures PassDid(was, ps, outcomes, Finished(s, generated))
  {
    TriedAll(outcomes, |ps|);
  }

  /** What the pass comes to at the `i`-th position. */
  lemma PassUnfolds(s: seq<Sub>, ps: seq<nat>, outcomes: seq<Outcome>, i: nat, generated: nat)
    requires i <= |ps| <= |outcomes| && forall j :: 0 <= j < |ps| ==> ps[j] < |s|
    ensures PassFrom(s, ps, outcomes, i, generated) ==
      if i == |ps| then Finished(s, generated)
      else if outcomes[i] == Raised then Crashed
      else if !GoesOn(outcomes[i]) then Rejected(s, ps[i], generated)
      else
        PassFrom(s[ps[i] := Settled(s[ps[i]], outcomes[i].Passed?)], ps, outcomes, i + 1,
                 if outcomes[i].Passed? then generated + 1 else generated)
  {
  }

  lemma InReach(was: seq<Sub>, s: seq<Sub>, ps: seq<nat>, outcomes: seq<Outcome>, i: nat, generated: nat)
    requires Positions(was, ps) && DoneSoFar(was, s, ps, outcomes, i, generated)
    ensures i <= |ps| <= |outcomes| && forall j :: 0 <= j < |ps| ==> ps[j] < |s|
  {
  }

  lemma {:induction false} PassFromDid(was: seq<Sub>, s: seq<Sub>, ps: seq<nat>, outcomes: seq<Outcome>, i: nat,
                                       generated: nat)
    requires Positions(was, ps) && DoneSoFar(was, s, ps, outcomes, i, generated)
    ensures i <= |ps| <= |outcomes| && forall j :: 0 <= j < |ps| ==> ps[j] < |s|
    ensures PassDid(was, ps, outcomes, PassFrom(s, ps, outcomes, i, generated))
    decreases |ps| - i
  {
    InReach(was, s, ps, outcomes, i, generated);
    PassUnfolds(s, ps, outcomes, i, generated);
    if i == |ps| {
      FinishedDid(was, s, ps, outcomes, generated);
    } else if GoesOn(outcomes[i]) {
      var s' := s[ps[i] := Settled(s[ps[i]], outcomes[i].Passed?)];
      var generated' := if outcomes[i].Passed? then generated + 1 else generated;
      DoneSoFarStep(was, s, ps, outcomes, i, generated);
      PassFromDid(was, s', ps, outcomes, i + 1, generated');
    } else {
      StoppedDid(was, s, ps, outcomes, i, generated);
    }
  }

  lemma TriedAll(outcomes: seq<Outcome>, n: nat)
    requires n <= |outcomes| && forall j :: 0 <= j < n ==> GoesOn(outcomes[j])
    ensures TriedCount(outcomes, n) == n
  {
  }

  /** A pending subtask that is tried is completed exactly when it passed and failed
      exactly when there were no files or the session failed; what comes after a
      rejection is untouched; and the count is that of the completed ones. */
  lemma PassMeans(s: seq<Sub>, outcomes: seq<Outcome>)
    requires |PendingAt(s)| <= |outcomes|
    ensures PassDid(s, PendingAt(s), outcomes, GenPass(s, outcomes))
  {
    assert NewlyDone(s, s) == {};
    PassFromDid(s, s, PendingAt(s), outcomes, 0, 0);
  }

  predicate NothingPending(s: seq<Sub>) {
    forall k :: 0 <= k < |s| ==> s[k].status != Pending
  }

  /** Whatever is pending is still to come, from the `i`-th position on. */
  predicate PendingAmong(s: seq<Sub>, ps: seq<nat>, i: nat) {
    forall k :: 0 <= k < |s| && s[k].status == Pending ==> exists j :: i <= j < |ps| && ps[j] == k
  }

  lemma SettledAmong(s: seq<Sub>, ps: seq<nat>, i: nat, done: bool)
    requires i < |ps| && ps[i] < |s| && PendingAmong(s, ps, i)
    ensures PendingAmong(s[ps[i] := Settled(s[ps[i]], done)], ps, i + 1)
  {
    var s' := s[ps[i] := Settled(s[ps[i]], done)];
    forall k | 0 <= k < |s'| && s'[k].status == Pending
      ensures exists j :: i + 1 <= j < |ps| && ps[j] == k
    {
      assert s[k].status == Pending;
      var j :| i <= j < |ps| && ps[j] == k;
      assert j != i;
    }
  }

  /** A pass that is not stopped leaves nothing pending. */
  lemma {:induction false} PassFinishes(s: seq<Sub>, ps: seq<nat>, outcomes: seq<Outcome>, i: nat, generated: nat)
    requires i <= |ps| <= |outcomes|
    requires forall j :: 0 <= j < |ps| ==> ps[j] < |s|
    requires PendingAmong(s, ps, i)
    ensures var r := PassFrom(s, ps, outcomes, i, generated); r.Finished? ==> NothingPending(r.plan)
    decreases |ps| - i
  {
    if i < |ps| && !outcomes[i].Raised? && !outcomes[i].Rejects() {
      var s' := s[ps[i] := Settled(s[ps[i]], outcomes[i].Passed?)];
      var generated' := if outcomes[i].Passed? then generated + 1 else generated;
      SettledAmong(s, ps, i, outcomes[i].Passed?);
      PassFinishes(s', ps, outcomes, i + 1, generated');
      assert PassFrom(s, ps, outcomes, i, generated) == PassFrom(s', ps, outcomes, i + 1, generated');
    }
  }

  lemma FinishedLeavesNothing(s: seq<Sub>, outcomes: seq<Outcome>)
    requires |PendingAt(s)| <= |outcomes| && GenPass(s, outcomes).Finished?
    ensures PendingAt(GenPass(s, outcomes).plan) == []
  {
    PassFinishes(s, PendingAt(s), outcomes, 0, 0);
    NonePending(GenPass(s, outcomes).plan);
  }

  lemma {:induction false} NonePending(s: seq<Sub>)
    requires NothingPending(s)
    ensures PendingAt(s) == []
  {
    if s != [] {
      NonePending(s[..|s| - 1]);
    }
  }

  /** Nor does a pass hide a pending subtask behind another. */
  lemma PassShadowsNone(s: seq<Sub>, outcomes: seq<Outcome>)
    requires |PendingAt(s)| <= |outcomes| && NoneShadowed(s) && !GenPass(s, outcomes).Crashed?
    ensures NoneShadowed(GenPass(s, outcomes).plan)
  {
    PassSettles(s, PendingAt(s), outcomes, 0, 0);
    var q := GenPass(s, outcomes).plan;
    forall k | 0 <= k < |q| && q[k].status == Pending
      ensures !Shadowed(q, k)
    {
      assert !Shadowed(s, k);
    }
  }

  /** What an obedient agent writes hides no pending subtask either. */
  lemma ObeysShadowsNone(q: seq<Sub>, agentPlan: seq<Sub>)
    requires NoneShadowed(q) && Obeys(q, agentPlan)
    ensures NoneShadowed(agentPlan)
  {
    forall k | 0 <= k < |agentPlan| && agentPlan[k].status == Pending
      ensures !Shadowed(agentPlan, k)
    {
      if k < |q| {
        assert !Shadowed(q, k);
      }
    }
  }

  /** Charging and cutting keep every id where it is and make nothing pending. */
  lemma ReplanKeepsForm(agentPlan: seq<Sub>, id: string)
    requires NoneShadowed(agentPlan)
    ensures NoneShadowed(AfterReplan(agentPlan, id))
  {
    var next := AfterReplan(agentPlan, id);
    forall k | 0 <= k < |next| && next[k].status == Pending
      ensures !Shadowed(next, k)
    {
      assert agentPlan[k].status == Pending;
      assert !Shadowed(agentPlan, k);
      assert forall i :: 0 <= i <= k ==> next[i].id == agentPlan[i].id;
    }
  }

  lemma ChargesFirst(agentPlan: seq<Sub>, k: nat)
    requires k < |agentPlan| && !Shadowed(agentPlan, k)
    ensures Bump(agentPlan, agentPlan[k].id) == agentPlan[k := Charged(agentPlan[k])]
  {
    assert FirstWithId(agentPlan, agentPlan[k].id) == k;
  }

  /** The replan itself: the rejected subtask is charged, nothing old is cut off,
      and every new subtask takes a free place worth what it can cost. */
  lemma ReplanLightens(q: seq<Sub>, agentPlan: seq<Sub>, k: nat)
    requires |q| <= HARD_SUBTASK_CAP && NoneShadowed(q) && Obeys(q, agentPlan)
    requires k < |q| && q[k].status == Pending
    ensures var next := AfterReplan(agentPlan, q[k].id);
      |q| <= |next| <= HARD_SUBTASK_CAP && NoneShadowed(next) && Measure(next) < Measure(q)
    ensures var next := AfterReplan(agentPlan, q[k].id);
      forall i :: 0 <= i < |q| ==> next[i].id == q[i].id
  {
    ObeysShadowsNone(q, agentPlan);
    ReplanKeepsForm(agentPlan, q[k].id);
    ChargesFirst(agentPlan, k);
    var next := AfterReplan(agentPlan, q[k].id);
    AddedWeigh(q, agentPlan, k, next[|q|..]);
    KeptLightens(q, agentPlan, next[..|q|], k);
    WeightTaken(q, next);
  }

  lemma WeightTaken(q: seq<Sub>, next: seq<Sub>)
    requires |q| <= |next| && Weights(next[..|q|]) < Weights(q)
    requires Weights(next[|q|..]) <= 2 * |next[|q|..]|
    ensures Measure(next) < Measure(q)
  {
    assert next == next[..|q|] + next[|q|..];
    TotalConcat(Weight, next[..|q|], next[|q|..]);
  }

  lemma AddedWeigh(q: seq<Sub>, agentPlan: seq<Sub>, k: nat, added: seq<Sub>)
    requires k < |q| <= HARD_SUBTASK_CAP && Obeys(q, agentPlan)
    requires added == Cut(agentPlan[k := Charged(agentPlan[k])], HARD_SUBTASK_CAP)[|q|..]
    ensures Weights(added) <= 2 * |added|
  {
    forall i | 0 <= i < |added| && added[i].status == Pending
      ensures added[i].replanCount >= 0
    {
      assert added[i] == agentPlan[|q| + i];
    }
    TotalBound(Weight, added, 2);
  }

  lemma KeptLightens(q: seq<Sub>, agentPlan: seq<Sub>, kept: seq<Sub>, k: nat)
    requires k < |q| == |kept| && q[k].status == Pending
    requires KeepsOldSubtasks(q, agentPlan)
    requires kept == agentPlan[k := Charged(agentPlan[k])][..|q|]
    ensures Weights(kept) < Weights(q)
  {
    assert Weight(kept[k]) < Weight(q[k]);
    TotalMonotone(Weight, kept, q);
  }

  /** Every round makes the plan strictly lighter. */
  lemma RoundDecreases(plan: seq<Sub>, outcomes: seq<Outcome>, agentPlan: seq<Sub>, next: seq<Sub>)
    requires |plan| <= HARD_SUBTASK_CAP && NoneShadowed(plan)
    requires Turn(plan, outcomes, agentPlan, next)
    ensures |plan| <= |next| <= HARD_SUBTASK_CAP && NoneShadowed(next)
    ensures Measure(next) < Measure(plan)
  {
    PassLightens(plan, outcomes);
    PassShadowsNone(plan, outcomes);
    var pass := GenPass(plan, outcomes);
    ReplanLightens(pass.plan, agentPlan, pass.at);
  }

  lemma MeasureBound(plan: seq<Sub>)
    requires |plan| <= HARD_SUBTASK_CAP && CountsFromZero(plan)
    ensures 0 <= Measure(plan) <= 60
  {
    TotalBound(Weight, plan, 2);
  }

  /** The replan loop ends: from any plan that hides no pending subtask there are
      at most `Measure` replans, and so never more than sixty if its counters
      start at zero. */
  lemma {:induction false} ReplanLoopEnds(plans: seq<seq<Sub>>, rounds: seq<Round>)
    requires ReplanRun(plans, rounds) && |plans[0]| <= HARD_SUBTASK_CAP && NoneShadowed(plans[0])
    ensures |rounds| <= Measure(plans[0])
    ensures CountsFromZero(plans[0]) ==> |rounds| <= 60
    decreases |rounds|
  {
    if rounds != [] {
      RoundDecreases(plans[0], rounds[0].outcomes, rounds[0].agentPlan, plans[1]);
      assert ReplanRun(plans[1..], rounds[1..]);
      ReplanLoopEnds(plans[1..], rounds[1..]);
    }
    if CountsFromZero(plans[0]) {
      MeasureBound(plans[0]);
    }
  }

  // ---- Whose counter is charged ----

  /** The counter that is meant to stop the loop belongs to the first subtask
      with the rejected id: the rejected one is charged exactly when no earlier
      subtask shares its id. */
  lemma ChargedIffFirst(s: seq<Sub>, k: nat)
    requires k < |s|
    ensures Bump(s, s[k].id)[k] == Charged(s[k]) <==> !Shadowed(s, k)
  {
    var f := FirstWithId(s, s[k].id);
    if f < k {
      assert s[f].id == s[k].id;
      assert Bump(s, s[k].id)[k] == s[k];
    }
  }

  /** The guards that let everything pass up to position `k` and reject that. */
  function RejectOnly(s: seq<Sub>, k: nat): (outcomes: seq<Outcome>)
    ensures |outcomes| == |PendingAt(s)|
  {
    seq(|PendingAt(s)|, j requires 0 <= j < |PendingAt(s)| => if PendingAt(s)[j] == k then NotWritten else Passed)
  }

  lemma {:induction false} PassRejectsAt(s: seq<Sub>, ps: seq<nat>, outcomes: seq<Outcome>, i: nat, m: nat,
                                         generated: nat)
    requires i <= m < |ps| <= |outcomes|
    requires forall j :: 0 <= j < |ps| ==> ps[j] < |s|
    requires (forall j :: i <= j < m ==> outcomes[j] == Passed) && outcomes[m] == NotWritten
    ensures var r := PassFrom(s, ps, outcomes, i, generated); r.Rejected? && r.at == ps[m]
    decreases m - i
  {
    if i < m {
      PassRejectsAt(s[ps[i] := Settled(s[ps[i]], true)], ps, outcomes, i + 1, m, generated + 1);
    }
  }

  /** Any pending subtask can be the one that is rejected. */
  lemma CanReject(s: seq<Sub>, k: nat)
    requires k < |s| && s[k].status == Pending
    ensures var r := GenPass(s, RejectOnly(s, k));
      r.Rejected? && r.at == k && |r.plan| == |s| && r.plan[k] == s[k] &&
      forall i :: 0 <= i < |s| ==> r.plan[i].id == s[i].id
  {
    var ps, outcomes := PendingAt(s), RejectOnly(s, k);
    var m :| 0 <= m < |ps| && ps[m] == k;
    PassRejectsAt(s, ps, outcomes, 0, m, 0);
    PassSettles(s, ps, outcomes, 0, 0);
  }

  // ---- An agent that keeps to the prompt ----

  /** The agent corrects the subtask this round rejects. */
  ghost predicate Corrects(plan: seq<Sub>, round: Round) {
    |PendingAt(plan)| <= |round.outcomes| &&
    var pass := GenPass(plan, round.outcomes);
    pass.Rejected? && CorrectsOne(pass.plan, pass.at, round.agentPlan)
  }

  ghost predicate ByTheLetter(plan: seq<Sub>, round: Round) {
    |PendingAt(plan)| <= |round.outcomes| &&
    var pass := GenPass(plan, round.outcomes);
    pass.Rejected? && ToTheLetter(pass.plan, pass.at, round.agentPlan)
  }

  ghost predicate CorrectingRun(plans: seq<seq<Sub>>, rounds: seq<Round>) {
    ReplanRun(plans, rounds) &&
    forall i {:trigger rounds[i]} :: 0 <= i < |rounds| ==> Corrects(plans[i], rounds[i])
  }

  /** A run in which every answer of the agent is what the prompt asks for. */
  ghost predicate LetterRun(plans: seq<seq<Sub>>, rounds: seq<Round>) {
    ReplanRun(plans, rounds) &&
    forall i {:trigger rounds[i]} :: 0 <= i < |rounds| ==> ByTheLetter(plans[i], rounds[i])
  }

  /** The agent raises the counter by one and the code raises it again. So the
      first rejection gives an unshadowed subtask up, exactly if its counter was
      not below zero: it takes one, where the prompt counts on two. */
  lemma FailsAtOnceIff(q: seq<Sub>, agentPlan: seq<Sub>, k: nat)
    requires |q| <= HARD_SUBTASK_CAP && CorrectsOne(q, k, agentPlan)
    requires q[k].status == Pending && !Shadowed(q, k)
    ensures var next := AfterReplan(agentPlan, q[k].id);
      |next| > k && next[k].replanCount == q[k].replanCount + 2 &&
      (next[k].status == Failed <==> q[k].replanCount >= 0)
  {
    CorrectingObeys(q, k, agentPlan);
    assert agentPlan[k] == agentPlan[..|q|][k];
    ChargesFirst(agentPlan, k);
  }

  /** One for every free place in the plan and one for every pending subtask. */
  function Room(s: seq<Sub>): int {
    HARD_SUBTASK_CAP - |s| + Total(Slot, s)
  }

  function Slot(x: Sub): nat {
    if x.status == Pending then 1 else 0
  }

  /** The corrected subtask takes the place of the one that is given up. */
  lemma CorrectionTakesRoom(q: seq<Sub>, agentPlan: seq<Sub>, k: nat)
    requires |q| <= HARD_SUBTASK_CAP && NoneShadowed(q) && CountsFromZero(q)
    requires CorrectsOne(q, k, agentPlan) && q[k].status == Pending
    ensures var next := AfterReplan(agentPlan, q[k].id);
      |next| <= HARD_SUBTASK_CAP && NoneShadowed(next) && CountsFromZero(next) && Room(next) < Room(q)
  {
    var next := AfterReplan(agentPlan, q[k].id);
    CorrectingObeys(q, k, agentPlan);
    ObeysShadowsNone(q, agentPlan);
    ReplanKeepsForm(agentPlan, q[k].id);
    CorrectedPlan(q, agentPlan, k);
    RoomTaken(q, next, k);
  }

  lemma RoomTaken(q: seq<Sub>, next: seq<Sub>, k: nat)
    requires k < |q| <= |next| && q[k].status == Pending && next[k].status != Pending
    requires forall i :: 0 <= i < |q| && i != k ==> next[i] == q[i]
    ensures Room(next) < Room(q)
  {
    var kept, added := next[..|q|], next[|q|..];
    assert next == kept + added;
    assert Slot(kept[k]) < Slot(q[k]);
    TotalMonotone(Slot, kept, q);
    TotalConcat(Slot, kept, added);
    TotalBound(Slot, added, 1);
  }

  /** The plan that is saved, place by place. */
  lemma CorrectedPlan(q: seq<Sub>, agentPlan: seq<Sub>, k: nat)
    requires |q| <= HARD_SUBTASK_CAP && CorrectsOne(q, k, agentPlan)
    requires q[k].status == Pending && q[k].replanCount >= 0 && !Shadowed(q, k)
    ensures var next := AfterReplan(agentPlan, q[k].id);
      |q| <= |next| <= |q| + 1 && next[k].status == Failed &&
      (forall i :: 0 <= i < |q| && i != k ==> next[i] == q[i]) &&
      forall i :: |q| <= i < |next| ==> next[i].replanCount == 0
  {
    FailsAtOnceIff(q, agentPlan, k);
    CorrectingObeys(q, k, agentPlan);
    assert agentPlan[k] == agentPlan[..|q|][k];
    ChargesFirst(agentPlan, k);
    forall i | 0 <= i < |q| && i != k
      ensures agentPlan[i] == q[i]
    {
      assert agentPlan[i] == agentPlan[..|q|][i];
    }
  }

  lemma PassKeepsRoom(s: seq<Sub>, outcomes: seq<Outcome>)
    requires |PendingAt(s)| <= |outcomes| && !GenPass(s, outcomes).Crashed?
    ensures var q := GenPass(s, outcomes).plan;
      |q| == |s| && Room(q) <= Room(s) && (CountsFromZero(s) ==> CountsFromZero(q))
  {
    PassSettles(s, PendingAt(s), outcomes, 0, 0);
    TotalMonotone(Slot, GenPass(s, outcomes).plan, s);
  }

  lemma CorrectingRound(plan: seq<Sub>, round: Round, next: seq<Sub>)
    requires |plan| <= HARD_SUBTASK_CAP && NoneShadowed(plan) && CountsFromZero(plan)
    requires Turn(plan, round.outcomes, round.agentPlan, next) && Corrects(plan, round)
    ensures |next| <= HARD_SUBTASK_CAP && NoneShadowed(next) && CountsFromZero(next)
    ensures Room(next) < Room(plan)
  {
    PassLightens(plan, round.outcomes);
    PassShadowsNone(plan, round.outcomes);
    PassKeepsRoom(plan, round.outcomes);
    var pass := GenPass(plan, round.outcomes);
    CorrectionTakesRoom(pass.plan, round.agentPlan, pass.at);
  }

  /** With an agent that does what the prompt asks for there are at most thirty
      replans, half of what obedience alone allows. */
  lemma {:induction false} CorrectingEnds(plans: seq<seq<Sub>>, rounds: seq<Round>)
    requires CorrectingRun(plans, rounds)
    requires |plans[0]| <= HARD_SUBTASK_CAP && NoneShadowed(plans[0]) && CountsFromZero(plans[0])
    ensures |rounds| <= Room(plans[0]) <= 30
    decreases |rounds|
  {
    TotalBound(Slot, plans[0], 1);
    if rounds != [] {
      assert Corrects(plans[0], rounds[0]);
      CorrectingRound(plans[0], rounds[0], plans[1]);
      assert CorrectingRun(plans[1..], rounds[1..]);
      CorrectingEnds(plans[1..], rounds[1..]);
    }
  }

  // ---- The run that does not end ----

  function Correction(q: seq<Sub>, k: nat, n: nat): seq<Sub>
    requires k < |q|
  {
    q[k := q[k].(replanCount := q[k].replanCount + 1)] + [Sub(RetryId(q[k].id, n), Pending, 0)]
  }

  function LongestId(q: seq<Sub>): (n: nat)
    ensures forall i :: 0 <= i < |q| ==> |q[i].id| <= n
  {
    if q == [] then 0
    else
      var n, last := LongestId(q[..|q| - 1]), |q[|q| - 1].id|;
      if last > n then last else n
  }

  /** There is always an id left. */
  lemma CorrectionIsToTheLetter(q: seq<Sub>, k: nat) returns (agentPlan: seq<Sub>)
    requires k < |q|
    ensures ToTheLetter(q, k, agentPlan)
    ensures agentPlan[..|q|] == q[k := q[k].(replanCount := q[k].replanCount + 1)]
  {
    var n := Ones(LongestId(q));
    OnesLength(LongestId(q));
    agentPlan := Correction(q, k, n);
    var raised := q[k := q[k].(replanCount := q[k].replanCount + 1)];
    assert agentPlan[..|q|] == raised;
    forall i | 0 <= i < |q|
      ensures agentPlan[i].id != agentPlan[|q|].id
    {
      assert agentPlan[i].id == q[i].id;
    }
  }

  /** Neither counter matters to a shadowed subtask: the agent raises its own and
      the code that of the one in front. */
  lemma ShadowStays(q: seq<Sub>, k: nat, agentPlan: seq<Sub>)
    requires |q| <= HARD_SUBTASK_CAP && Shadowed(q, k) && q[k].status == Pending
    requires CorrectsOne(q, k, agentPlan)
    ensures var next := AfterReplan(agentPlan, q[k].id);
      |q| <= |next| <= HARD_SUBTASK_CAP && Shadowed(next, k) && next[k].status == Pending
  {
    CorrectingObeys(q, k, agentPlan);
    var i :| 0 <= i < k && q[i].id == q[k].id;
    assert agentPlan[i].id == q[k].id;
    var f := FirstWithId(agentPlan, q[k].id);
    assert 0 <= f <= i;
    assert AfterReplan(agentPlan, q[k].id)[i].id == q[i].id;
  }

  /** A shadowed subtask can be rejected, and when the agent has done what the
      prompt asks for it is shadowed and pending as before. */
  lemma ShadowedTurn(s: seq<Sub>, k: nat) returns (round: Round, next: seq<Sub>)
    requires |s| <= HARD_SUBTASK_CAP && Shadowed(s, k) && s[k].status == Pending
    ensures Turn(s, round.outcomes, round.agentPlan, next) && ByTheLetter(s, round)
    ensures |next| <= HARD_SUBTASK_CAP && Shadowed(next, k) && next[k].status == Pending
  {
    CanReject(s, k);
    var q := GenPass(s, RejectOnly(s, k)).plan;
    assert Shadowed(q, k) by {
      var i :| 0 <= i < k && s[i].id == s[k].id;
      assert q[i].id == q[k].id;
    }
    var agentPlan := CorrectionIsToTheLetter(q, k);
    CorrectingObeys(q, k, agentPlan);
    ShadowStays(q, k, agentPlan);
    round := Round(RejectOnly(s, k), agentPlan);
    next := AfterReplan(agentPlan, q[k].id);
  }

  /** A shadowed pending subtask keeps the loop going for any number of rounds,
      although the agent does to the letter what the prompt asks for. */
  lemma {:induction false} ShadowedNeverEnds(s: seq<Sub>, k: nat, n: nat)
    returns (plans: seq<seq<Sub>>, rounds: seq<Round>)
    requires |s| <= HARD_SUBTASK_CAP && Shadowed(s, k) && s[k].status == Pending
    ensures LetterRun(plans, rounds) && plans[0] == s && |rounds| == n
    decreases n
  {
    if n == 0 {
      plans, rounds := [s], [];
    } else {
      var round, next := ShadowedTurn(s, k);
      var morePlans, moreRounds := ShadowedNeverEnds(next, k, n - 1);
      plans, rounds := [s] + morePlans, [round] + moreRounds;
      RunPrepends(s, round, morePlans, moreRounds);
    }
  }

  lemma RunPrepends(s: seq<Sub>, round: Round, plans: seq<seq<Sub>>, rounds: seq<Round>)
    requires LetterRun(plans, rounds)
    requires Turn(s, round.outcomes, round.agentPlan, plans[0]) && ByTheLetter(s, round)
    ensures LetterRun([s] + plans, [round] + rounds)
  {
    var ps, rs := [s] + plans, [round] + rounds;
    forall i {:trigger rs[i]} | 0 <= i < |rs|
      ensures Turn(ps[i], rs[i].outcomes, rs[i].agentPlan, ps[i + 1]) && ByTheLetter(ps[i], rs[i])
    {
      if i > 0 {
        assert rs[i] == rounds[i - 1] && ps[i] == plans[i - 1] && ps[i + 1] == plans[i - 1 + 1];
      }
    }
  }

  // ---- Exactly when it ends ----

  ghost predicate EndsWithin(s: seq<Sub>, bound: int) {
    forall plans, rounds :: ReplanRun(plans, rounds) && plans[0] == s ==> |rounds| <= bound
  }

  ghost predicate LetterEndsWithin(s: seq<Sub>, bound: int) {
    forall plans, rounds :: LetterRun(plans, rounds) && plans[0] == s ==> |rounds| <= bound
  }

  lemma LetterCorrects(plans: seq<seq<Sub>>, rounds: seq<Round>)
    requires LetterRun(plans, rounds)
    ensures CorrectingRun(plans, rounds)
  {
    forall i {:trigger rounds[i]} | 0 <= i < |rounds|
      ensures Corrects(plans[i], rounds[i])
    {
      assert ByTheLetter(plans[i], rounds[i]);
    }
  }

  lemma UnshadowedEnds(s: seq<Sub>)
    requires |s| <= HARD_SUBTASK_CAP && NoneShadowed(s)
    ensures EndsWithin(s, Measure(s)) && LetterEndsWithin(s, Measure(s))
    ensures CountsFromZero(s) ==> LetterEndsWithin(s, Room(s)) && Room(s) <= 30
  {
    forall plans, rounds | ReplanRun(plans, rounds) && plans[0] == s
      ensures |rounds| <= Measure(s)
    {
      ReplanLoopEnds(plans, rounds);
    }
    forall plans, rounds | CountsFromZero(s) && LetterRun(plans, rounds) && plans[0] == s
      ensures |rounds| <= Room(s)
    {
      LetterCorrects(plans, rounds);
      CorrectingEnds(plans, rounds);
    }
    TotalBound(Slot, s, 1);
  }

  lemma ShadowedExceeds(s: seq<Sub>, bound: int)
    requires |s| <= HARD_SUBTASK_CAP && !NoneShadowed(s)
    ensures !EndsWithin(s, bound) && !LetterEndsWithin(s, bound)
  {
    var k :| 0 <= k < |s| && s[k].status == Pending && Shadowed(s, k);
    var plans, rounds := ShadowedNeverEnds(s, k, if bound < 0 then 0 else bound + 1);
    assert LetterRun(plans, rounds) && ReplanRun(plans, rounds) && plans[0] == s;
  }

  /** The loop is bounded exactly when no pending subtask of the plan it starts on
      is shadowed: for agents that only leave the old plan alone, and just as
      well for agents that keep to the letter of the prompt. Then the measure is
      a bound for the former, and from counters at zero thirty for the latter;
      otherwise nothing is a bound for either. */
  lemma EndsIff(s: seq<Sub>)
    requires |s| <= HARD_SUBTASK_CAP
    ensures EndsWithin(s, Measure(s)) <==> NoneShadowed(s)
    ensures (exists bound :: EndsWithin(s, bound)) <==> NoneShadowed(s)
    ensures (exists bound :: LetterEndsWithin(s, bound)) <==> NoneShadowed(s)
    ensures CountsFromZero(s) ==> (LetterEndsWithin(s, 30) <==> NoneShadowed(s))
  {
    if NoneShadowed(s) {
      UnshadowedEnds(s);
    } else {
      forall bound
        ensures !EndsWithin(s, bound) && !LetterEndsWithin(s, bound)
      {
        ShadowedExceeds(s, bound);
      }
    }
  }
}
