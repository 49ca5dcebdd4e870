/** The test pipeline as a protocol. */
module Pipeline {
  import opened TestPlan
  import opened ReplanLoop

  // Four stages that schedule each other as asyncio tasks, a watchdog and a
  // cancel callback, all writing one status file. Every status write is one step;
  // a task can only be cancelled before its first step or while it awaits an
  // agent session.

  datatype Stage = Planner | GenFunctional | Evaluator | Triager

  /** The `status` field. `Unstarted` stands for whatever is there before the
      first stage writes. */
  datatype Status =
    | Unstarted
    | Active(stage: Stage)
    | StageFailed(stage: Stage)
    | Planned | PlannedEmpty
    | ReplanRequested
    | Generated | GeneratedEmpty
    | Evaluated | EvaluatedEmpty
    | Triaged | TriagedEmpty
    | Stalled
  {
    /** Statuses nothing may replace: `*_failed` and the two terminal ones. */
    predicate Settled() {
      StageFailed? || Triaged? || TriagedEmpty?
    }
  }

  // ---- The strings behind the statuses ----

  function StageName(stage: Stage): string {
    match stage
    case Planner => "planner"
    case GenFunctional => "gen_functional"
    case Evaluator => "evaluator"
    case Triager => "triager"
  }

  function StatusText(s: Status): string {
    match s
    case Unstarted => "pending"
    case Active(Planner) => "planning"
    case Active(GenFunctional) => "generating"
    case Active(Evaluator) => "evaluating"
    case Active(Triager) => "triaging"
    case StageFailed(stage) => StageName(stage) + "_failed"
    case Planned => "planned"
    case PlannedEmpty => "planned_empty"
    case ReplanRequested => "replan_needed"
    case Generated => "generated"
    case GeneratedEmpty => "generated_empty"
    case Evaluated => "evaluated"
    case EvaluatedEmpty => "evaluated_empty"
    case Triaged => "triaged"
    case TriagedEmpty => "triaged_empty"
    case Stalled => "stalled"
  }

  predicate EndsWith(s: string, suffix: string) {
    |suffix| <= |s| && s[|s| - |suffix|..] == suffix
  }

  predicate IsActiveText(t: string) {
    t == "planning" || t == "generating" || t == "evaluating" || t == "triaging"
  }

  predicate IsTerminalText(t: string) {
    t == "triaged" || t == "triaged_empty"
  }

  /** What the watchdog asks of the string is what the model asks of the status. */
  lemma ActiveTextsAgree(s: Status)
    ensures IsActiveText(StatusText(s)) <==> s.Active?
  {
    var t := StatusText(s);
    if !s.Active? {
      assert t[|t| - 1] != 'g' || t == "pending";
    }
  }

  /** A text that ends in "_failed" shows it in these two places. */
  lemma FailedSuffix(t: string)
    ensures EndsWith(t, "_failed") ==> |t| >= 7 && t[|t| - 1] == 'd' && t[|t| - 4] == 'i'
  {
    if EndsWith(t, "_failed") {
      assert t[|t| - 4] == t[|t| - 7..][3] && t[|t| - 1] == t[|t| - 7..][6];
    }
  }

  /** So is what the cancel callback asks: failed, or terminal. */
  lemma FailedTextsAgree(s: Status)
    ensures EndsWith(StatusText(s), "_failed") <==> s.StageFailed?
  {
    if s.StageFailed? {
      var name := StageName(s.stage);
      assert (name + "_failed")[|name|..] == "_failed";
    } else {
      OtherTexts(s);
      FailedSuffix(StatusText(s));
    }
  }

  lemma OtherTexts(s: Status)
    requires !s.StageFailed?
    ensures var t := StatusText(s); |t| >= 4 && (t[|t| - 1] != 'd' || t[|t| - 4] != 'i')
  {
  }

  lemma TerminalTextsAgree(s: Status)
    ensures IsTerminalText(StatusText(s)) <==> s.Triaged? || s.TriagedEmpty?
  {
    var t := StatusText(s);
    if s.StageFailed? {
      assert t[0] == StageName(s.stage)[0];
      assert |t| == |StageName(s.stage)| + 7;
    } else if !s.Triaged? && !s.TriagedEmpty? {
      assert t[0] != 't' || |t| == 8;
    }
  }

  // ---- Tasks ----

  datatype Kind = PlanInitial | PlanReplan | Gen | Eval | Triage

  function StageOf(kind: Kind): Stage {
    match kind
    case PlanInitial => Planner
    case PlanReplan => Planner
    case Gen => GenFunctional
    case Eval => Evaluator
    case Triage => Triager
  }

  /** How far a task is. `Working` is between two awaits, `Advancing` is the
      last thing a body does: scheduling its successor and returning. */
  datatype Progress =
    | Scheduled
    | Working
    | Awaiting(sessions: nat)
    | Advancing(next: Kind)
    | Returned
    | Cancelled

  datatype Task = Task(kind: Kind, at: Progress, callbackDone: bool) {
    predicate Live() {
      !at.Returned? && !at.Cancelled?
    }

    /** The body has started and not left: what "in flight" means. */
    predicate InBody() {
      at.Working? || at.Awaiting? || at.Advancing?
    }
  }

  /** The watchdog's finding: it read `status` written at `updatedAt` and judged
      it stalled at time `now`. */
  datatype StallVerdict = StallVerdict(status: Status, updatedAt: int, now: int)

  const DEADLINE_SECONDS: int := 900

  datatype Sys = Sys(
    status: Status,
    updatedAt: int,
    clock: int,
    tasks: seq<Task>,
    plan: seq<Sub>,
    request: string,
    verdicts: seq<StallVerdict>)
  {
    function Write(st: Status): Sys {
      this.(status := st, updatedAt := clock)
    }

    function MoveTo(i: nat, at: Progress): Sys
      requires i < |tasks|
    {
      this.(tasks := tasks[i := tasks[i].(at := at)])
    }

    /** `schedule_<stage>`: one more task, with its done-callback attached. */
    function Schedule(kind: Kind): Sys {
      this.(tasks := tasks + [Task(kind, Scheduled, false)])
    }
  }

  /** What one task does in one step. */
  datatype Move =
    | SkipNoDir                          // spec_dir missing: no write at all
    | Enter                              // first status write of a stage
    | Await                              // an agent session begins
    | Fail                               // any `<stage>_failed` exit
    | AcceptPlan(agentPlan: seq<Sub>)    // the emitted plan validated
    | GenNothing
    | GenReject(outcomes: seq<Outcome>)
    | GenFinish(outcomes: seq<Outcome>)
    | EvalNothing
    | EvalFinish
    | TriageFinish(empty: bool)
    | Advance(fired: bool)               // not fired: gated off, or ImportError
    | Cancel
    | Callback                           // the done-callback of the task runs

  datatype Action =
    | TaskStep(i: nat, move: Move)
    | Tick(seconds: nat)
    | EvaluateLiveness
    | MarkStalled(v: nat)

  /** Sessions a stage opens: the Planner retries once, Gen-Functional opens one
      per pending subtask, the Evaluator one, the Triager none. */
  function SessionLimit(kind: Kind, plan: seq<Sub>): nat {
    match kind
    case PlanInitial => 2
    case PlanReplan => 2
    case Gen => |PendingAt(plan)|
    case Eval => 1
    case Triage => 0
  }

  function Sessions(at: Progress): nat {
    if at.Awaiting? then at.sessions else 0
  }

  predicate CanMove(plan: seq<Sub>, t: Task, move: Move) {
    match move
    case SkipNoDir => t.at.Scheduled? && StageOf(t.kind) in {Planner, GenFunctional}
    case Enter => t.at.Scheduled?
    case Await => (t.at.Working? || t.at.Awaiting?) && Sessions(t.at) < SessionLimit(t.kind, plan)
    case Fail => t.InBody()
    case AcceptPlan(_) => t.at.Awaiting? && StageOf(t.kind) == Planner
    case GenNothing => t.at.Working? && t.kind == Gen && PendingAt(plan) == []
    case GenReject(outcomes) =>
      t.at.Awaiting? && t.kind == Gen && |PendingAt(plan)| <= |outcomes| && GenPass(plan, outcomes).Rejected?
    case GenFinish(outcomes) =>
      (t.at.Working? || t.at.Awaiting?) && t.kind == Gen && PendingAt(plan) != [] &&
      |PendingAt(plan)| <= |outcomes| && GenPass(plan, outcomes).Finished?
    case EvalNothing => t.at.Working? && t.kind == Eval
    case EvalFinish => t.at.Awaiting? && t.kind == Eval
    case TriageFinish(_) => t.at.Working? && t.kind == Triage
    case Advance(_) => t.at.Advancing?
    case Cancel => t.at.Scheduled? || t.at.Awaiting?
    case Callback => !t.Live() && !t.callbackDone
  }

  predicate Enabled(s: Sys, a: Action) {
    match a
    case TaskStep(i, move) => i < |s.tasks| && CanMove(s.plan, s.tasks[i], move)
    case Tick(_) => true
    case EvaluateLiveness => true
    case MarkStalled(v) => v < |s.verdicts|
  }

  function Rejection(plan: seq<Sub>, outcomes: seq<Outcome>): (r: Pass)
    requires |PendingAt(plan)| <= |outcomes| && GenPass(plan, outcomes).Rejected?
    ensures r.Rejected? && r.at < |r.plan|
  {
    PassLightens(plan, outcomes);
    GenPass(plan, outcomes)
  }

  function Moved(s: Sys, i: nat, move: Move): Sys
    requires i < |s.tasks| && CanMove(s.plan, s.tasks[i], move)
  {
    var kind := s.tasks[i].kind;
    match move
    case SkipNoDir => s.MoveTo(i, Returned)
    case Enter => s.Write(Active(StageOf(kind))).MoveTo(i, Working)
    case Await => s.MoveTo(i, Awaiting(Sessions(s.tasks[i].at) + 1))
    case Fail => s.Write(StageFailed(StageOf(kind))).MoveTo(i, Returned)
    case AcceptPlan(agentPlan) =>
      if kind == PlanInitial then
        s.(plan := Cut(agentPlan, HARD_SUBTASK_CAP))
         .Write(if agentPlan == [] then PlannedEmpty else Planned).MoveTo(i, Advancing(Gen))
      else
        s.(plan := AfterReplan(agentPlan, s.request)).Write(Planned).MoveTo(i, Advancing(Gen))
    case GenNothing => s.Write(GeneratedEmpty).MoveTo(i, Returned)
    case GenReject(outcomes) =>
      var pass := Rejection(s.plan, outcomes);
      s.(plan := pass.plan, request := pass.plan[pass.at].id)
       .Write(ReplanRequested).MoveTo(i, Advancing(PlanReplan))
    case GenFinish(outcomes) =>
      var pass := GenPass(s.plan, outcomes);
      if pass.generated == 0 then
        s.(plan := pass.plan).Write(StageFailed(GenFunctional)).MoveTo(i, Returned)
      else
        s.(plan := pass.plan).Write(Generated).MoveTo(i, Advancing(Eval))
    case EvalNothing => s.Write(EvaluatedEmpty).MoveTo(i, Returned)
    case EvalFinish => s.Write(Evaluated).MoveTo(i, Advancing(Triage))
    case TriageFinish(empty) => s.Write(if empty then TriagedEmpty else Triaged).MoveTo(i, Returned)
    case Advance(fired) =>
      var next := s.tasks[i].at.next;
      if fired then s.MoveTo(i, Returned).Schedule(next) else s.MoveTo(i, Returned)
    case Cancel => s.MoveTo(i, Cancelled)
    case Callback =>
      var done := s.(tasks := s.tasks[i := s.tasks[i].(callbackDone := true)]);
      if !s.tasks[i].at.Cancelled? || s.status.Settled() then done
      else done.Write(StageFailed(StageOf(kind)))
  }

  function Apply(s: Sys, a: Action): Sys
    requires Enabled(s, a)
  {
    match a
    case TaskStep(i, move) => Moved(s, i, move)
    case Tick(seconds) => s.(clock := s.clock + seconds)
    case EvaluateLiveness =>
      if s.status.Active? && s.clock - s.updatedAt > DEADLINE_SECONDS then
        s.(verdicts := s.verdicts + [StallVerdict(s.status, s.updatedAt, s.clock)])
      else s
    case MarkStalled(v) =>
      var verdict := s.verdicts[v];
      var rest := s.(verdicts := s.verdicts[..v] + s.verdicts[v + 1..]);
      if s.status.Active? then rest.(status := Stalled, updatedAt := verdict.now) else rest
  }

  // ---- Runs ----

  /** `schedule_planner` has just been called on a fresh workspace. */
  ghost predicate Init(s: Sys) {
    s.status == Unstarted && s.tasks == [Task(PlanInitial, Scheduled, false)] && s.verdicts == []
  }

  ghost predicate Run(states: seq<Sys>, actions: seq<Action>) {
    |states| == |actions| + 1 && Init(states[0]) &&
    forall k {:trigger actions[k]} :: 0 <= k < |actions| ==> Step(states[k], actions[k], states[k + 1])
  }

  ghost predicate Step(s: Sys, a: Action, s': Sys) {
    Enabled(s, a) && s' == Apply(s, a)
  }

  // ---- The invariant ----

  predicate Follows(kind: Kind, next: Kind) {
    match kind
    case PlanInitial => next == Gen
    case PlanReplan => next == Gen
    case Gen => next == PlanReplan || next == Eval
    case Eval => next == Triage
    case Triage => false
  }

  /** The statuses that hand over to a stage of this kind. */
  predicate HandsTo(s: Status, next: Kind) {
    match next
    case PlanInitial => s == Unstarted
    case PlanReplan => s == ReplanRequested
    case Gen => s == Planned || s == PlannedEmpty
    case Eval => s == Generated
    case Triage => s == Evaluated
  }

  predicate Consistent(s: Status, t: Task) {
    match t.at
    case Scheduled => HandsTo(s, t.kind)
    case Working => s == Active(StageOf(t.kind)) || s == Stalled
    case Awaiting(_) => t.kind != Triage && (s == Active(StageOf(t.kind)) || s == Stalled)
    case Advancing(next) => Follows(t.kind, next) && HandsTo(s, next)
    case Returned => !s.Active?
    case Cancelled =>
      if t.callbackDone then s == StageFailed(StageOf(t.kind))
      else !s.Settled() && (s.Active? ==> s == Active(StageOf(t.kind)))
  }

  function Last(s: Sys): Task
    requires |s.tasks| > 0
  {
    s.tasks[|s.tasks| - 1]
  }

  ghost predicate Inv(s: Sys) {
    |s.tasks| > 0 && s.tasks[0].kind == PlanInitial &&
    (forall i :: 0 <= i < |s.tasks| - 1 ==>
      s.tasks[i].at == Returned && Follows(s.tasks[i].kind, s.tasks[i + 1].kind)) &&
    (forall i :: 0 <= i < |s.tasks| && s.tasks[i].Live() ==> !s.tasks[i].callbackDone) &&
    Consistent(s.status, Last(s))
  }

  lemma InvInit(s: Sys)
    requires Init(s)
    ensures Inv(s)
  {
  }

  /** Only the last task can be anything but returned. */
  lemma LastMoves(s: Sys, i: nat)
    requires Inv(s) && i < |s.tasks| && !s.tasks[i].at.Returned?
    ensures i == |s.tasks| - 1
  {
  }

  lemma InvMove(s: Sys, i: nat, move: Move)
    requires Inv(s) && i < |s.tasks| && CanMove(s.plan, s.tasks[i], move)
    ensures Inv(Moved(s, i, move))
  {
    if move.Advance? {
      InvAdvance(s, i, move.fired);
    } else if move.Callback? {
      InvCallback(s, i);
    } else {
      LastMoves(s, i);
      var s' := Moved(s, i, move);
      MoveConsistent(s, i, move);
      assert forall j :: 0 <= j < i ==> s'.tasks[j] == s.tasks[j];
    }
  }

  /** What a move leaves behind fits the status it leaves behind. */
  lemma MoveConsistent(s: Sys, i: nat, move: Move)
    requires i < |s.tasks| && CanMove(s.plan, s.tasks[i], move) && Consistent(s.status, s.tasks[i])
    requires !move.Advance? && !move.Callback?
    requires s.tasks[i].Live() ==> !s.tasks[i].callbackDone
    ensures var s' := Moved(s, i, move);
      |s'.tasks| == |s.tasks| && (forall j :: 0 <= j < |s.tasks| && j != i ==> s'.tasks[j] == s.tasks[j]) &&
      s'.tasks[i].kind == s.tasks[i].kind && !s'.tasks[i].callbackDone && Consistent(s'.status, s'.tasks[i])
  {
  }

  lemma InvAdvance(s: Sys, i: nat, fired: bool)
    requires Inv(s) && i < |s.tasks| && s.tasks[i].at.Advancing?
    ensures Inv(Moved(s, i, Advance(fired)))
  {
    LastMoves(s, i);
    var s' := Moved(s, i, Advance(fired));
    forall j | 0 <= j < |s'.tasks| - 1
      ensures s'.tasks[j].at == Returned && Follows(s'.tasks[j].kind, s'.tasks[j + 1].kind)
    {
      if j < i {
        assert s'.tasks[j] == s.tasks[j] && s'.tasks[j + 1].kind == s.tasks[j + 1].kind;
      }
    }
  }

  lemma InvCallback(s: Sys, i: nat)
    requires Inv(s) && i < |s.tasks| && CanMove(s.plan, s.tasks[i], Callback)
    ensures Inv(Moved(s, i, Callback))
  {
    var s' := Moved(s, i, Callback);
    assert forall j :: 0 <= j < |s.tasks| ==>
      s'.tasks[j].kind == s.tasks[j].kind && s'.tasks[j].at == s.tasks[j].at;
    if s.tasks[i].at.Cancelled? {
      LastMoves(s, i);
    }
  }

  lemma InvStep(s: Sys, a: Action)
    requires Inv(s) && Enabled(s, a)
    ensures Inv(Apply(s, a))
  {
    if a.TaskStep? {
      InvMove(s, a.i, a.move);
    }
  }

  lemma {:induction false} RunKeepsInv(states: seq<Sys>, actions: seq<Action>, k: nat)
    requires Run(states, actions) && k < |states|
    ensures Inv(states[k])
  {
    if k == 0 {
      InvInit(states[0]);
    } else {
      RunKeepsInv(states, actions, k - 1);
      assert Step(states[k - 1], actions[k - 1], states[k - 1 + 1]);
      InvStep(states[k - 1], actions[k - 1]);
    }
  }

  // ---- Which stages run, and in what order ----

  function Kinds(tasks: seq<Task>): (ks: seq<Kind>)
    ensures |ks| == |tasks| && forall i :: 0 <= i < |ks| ==> ks[i] == tasks[i].kind
  {
    seq(|tasks|, i requires 0 <= i < |tasks| => tasks[i].kind)
  }

  /** `n` rejections, each answered by a replan. */
  function Rounds(n: nat): seq<Kind> {
    if n == 0 then [] else [Gen, PlanReplan] + Rounds(n - 1)
  }

  /** planner (gen replan)^n gen evaluator triager */
  function Word(n: nat): seq<Kind> {
    [PlanInitial] + (Rounds(n) + [Gen, Eval, Triage])
  }

  ghost predicate Chain(ks: seq<Kind>) {
    forall i :: 0 <= i < |ks| - 1 ==> Follows(ks[i], ks[i + 1])
  }

  lemma {:induction false} ChainFromGen(ks: seq<Kind>) returns (n: nat)
    requires Chain(ks) && (ks != [] ==> ks[0] == Gen)
    ensures ks <= Rounds(n) + [Gen, Eval, Triage]
  {
    n := 0;
    if |ks| >= 2 && ks[1] == PlanReplan {
      var m := ChainFromGen(ks[2..]);
      n := m + 1;
      assert ks == [Gen, PlanReplan] + ks[2..];
      assert Rounds(n) + [Gen, Eval, Triage] == [Gen, PlanReplan] + (Rounds(m) + [Gen, Eval, Triage]);
    } else if |ks| >= 2 {
      assert Follows(ks[0], ks[0 + 1]);
      if |ks| >= 3 {
        assert Follows(ks[1], ks[1 + 1]);
        assert |ks| >= 4 ==> Follows(ks[2], ks[2 + 1]);
      }
    }
  }

  /** In every reachable state the stages scheduled so far are a prefix of
      planner (gen replan)* gen evaluator triager. */
  lemma StageSequence(states: seq<Sys>, actions: seq<Action>, k: nat) returns (n: nat)
    requires Run(states, actions) && k < |states|
    ensures Kinds(states[k].tasks) <= Word(n)
  {
    RunKeepsInv(states, actions, k);
    var ks := Kinds(states[k].tasks);
    forall i | 0 <= i < |ks| - 1
      ensures Follows(ks[i], ks[i + 1])
    {
    }
    if |ks| >= 2 {
      assert Follows(ks[0], ks[0 + 1]);
    }
    n := ChainFromGen(ks[1..]);
    assert ks == [PlanInitial] + ks[1..];
  }

  /** At most one stage body is in flight, and it is the newest one. */
  lemma OneBodyAtATime(states: seq<Sys>, actions: seq<Action>, k: nat, i: nat, j: nat)
    requires Run(states, actions) && k < |states|
    requires i < |states[k].tasks| && j < |states[k].tasks|
    requires states[k].tasks[i].Live() && states[k].tasks[j].Live()
    ensures i == j == |states[k].tasks| - 1
  {
    RunKeepsInv(states, actions, k);
    LastMoves(states[k], i);
    LastMoves(states[k], j);
  }

  /** An active status is never orphaned: its stage is live, or was cancelled and
      its callback is still to come. */
  lemma ActiveStatusIsOwned(states: seq<Sys>, actions: seq<Action>, k: nat) returns (i: nat)
    requires Run(states, actions) && k < |states| && states[k].status.Active?
    ensures i < |states[k].tasks|
    ensures var t := states[k].tasks[i];
      StageOf(t.kind) == states[k].status.stage && (t.Live() || (t.at.Cancelled? && !t.callbackDone))
  {
    RunKeepsInv(states, actions, k);
    i := |states[k].tasks| - 1;
  }

  /** Once every task is over and every callback has run, nothing claims to be
      running any more. */
  lemma QuiescentIsNotActive(states: seq<Sys>, actions: seq<Action>, k: nat)
    requires Run(states, actions) && k < |states|
    requires forall i :: 0 <= i < |states[k].tasks| ==> !states[k].tasks[i].Live() && states[k].tasks[i].callbackDone
    ensures !states[k].status.Active?
  {
    if states[k].status.Active? {
      var i := ActiveStatusIsOwned(states, actions, k);
    }
  }

  // ---- What the watchdog and the callback may overwrite ----

  predicate FromTheSide(a: Action) {
    a.EvaluateLiveness? || a.MarkStalled? || (a.TaskStep? && a.move.Callback?)
  }

  /** The active status is that of the newest task, which is live or was cancelled
      and has its callback still to come. */
  predicate NewestOwnsStatus(s: Sys) {
    s.status.Active? && s.tasks != [] && StageOf(Last(s).kind) == s.status.stage &&
    (Last(s).Live() || (Last(s).at.Cancelled? && !Last(s).callbackDone))
  }

  lemma ActiveIsOwned(s: Sys)
    requires Inv(s) && s.status.Active?
    ensures NewestOwnsStatus(s)
  {
  }

  /** The callback of task `i` reports the failure of that task's own stage. */
  predicate OwnFailure(s: Sys, i: nat, s': Sys)
    requires i < |s.tasks|
  {
    i == |s.tasks| - 1 == |s'.tasks| - 1 &&
    s'.status == StageFailed(StageOf(s.tasks[i].kind)) &&
    (s.status.Active? ==> s.status.stage == StageOf(s.tasks[i].kind)) &&
    forall j :: 0 <= j < |s'.tasks| ==> !s'.tasks[j].Live()
  }

  predicate CallbackEffect(s: Sys, i: nat, s': Sys) {
    i < |s.tasks| && if s.tasks[i].at.Cancelled? then OwnFailure(s, i, s') else s'.status == s.status
  }

  lemma CallbackOwnFailure(s: Sys, i: nat)
    requires Inv(s) && i < |s.tasks| && CanMove(s.plan, s.tasks[i], Callback) && s.tasks[i].at.Cancelled?
    ensures OwnFailure(s, i, Moved(s, i, Callback))
  {
    LastMoves(s, i);
  }

  /** Whatever the watchdog or a callback changes is its own to change. In a run
      the watchdog only ever replaces an active status, which the newest task
      still owns. The callback of a cancelled task always finds its own task the
      newest, and leaves that stage's failure with nobody in flight; every other
      callback leaves the status alone. */
  lemma SideWritersOwnWhatTheyChange(states: seq<Sys>, actions: seq<Action>, k: nat)
    requires Run(states, actions) && k < |actions| && FromTheSide(actions[k])
    ensures states[k].status.Settled() ==> states[k + 1].status == states[k].status
    ensures states[k + 1].status != states[k].status && !actions[k].TaskStep? ==>
      NewestOwnsStatus(states[k]) && states[k + 1].status == Stalled
    ensures actions[k].TaskStep? ==> CallbackEffect(states[k], actions[k].i, states[k + 1])
  {
    RunKeepsInv(states, actions, k);
    assert Step(states[k], actions[k], states[k + 1]);
    if actions[k].TaskStep? && states[k].tasks[actions[k].i].at.Cancelled? {
      CallbackOwnFailure(states[k], actions[k].i);
    } else if states[k].status.Active? {
      ActiveIsOwned(states[k]);
    }
  }

  lemma SettledStep(s: Sys, a: Action)
    requires Inv(s) && Enabled(s, a) && s.status.Settled()
    ensures Apply(s, a).status == s.status
  {
    if a.TaskStep? && !a.move.Callback? {
      LastMoves(s, a.i);
      assert false;
    }
  }

  /** A settled status is final: nothing that can still happen, in whatever
      order, replaces it. */
  lemma {:induction false} SettledIsFinal(states: seq<Sys>, actions: seq<Action>, k: nat, m: nat)
    requires Run(states, actions) && k <= m < |states| && states[k].status.Settled()
    ensures states[m].status == states[k].status
  {
    if k < m {
      SettledIsFinal(states, actions, k, m - 1);
      RunKeepsInv(states, actions, m - 1);
      assert Step(states[m - 1], actions[m - 1], states[m - 1 + 1]);
      SettledStep(states[m - 1], actions[m - 1]);
    }
  }

  /** From the moment the callback of a cancelled task has run, the status is
      `<stage>_failed` for good. */
  lemma CancelledStaysFailed(states: seq<Sys>, actions: seq<Action>, k: nat, m: nat, i: nat)
    requires Run(states, actions) && k <= m < |states|
    requires i < |states[k].tasks| && states[k].tasks[i].at.Cancelled? && states[k].tasks[i].callbackDone
    ensures states[m].status == StageFailed(StageOf(states[k].tasks[i].kind))
  {
    RunKeepsInv(states, actions, k);
    LastMoves(states[k], i);
    SettledIsFinal(states, actions, k, m);
  }

  // ---- How long a run can get ----

  /** What is asked of the planner agent. */
  ghost predicate Obedient(s: Sys, a: Action) {
    a.TaskStep? && a.move.AcceptPlan? && a.i < |s.tasks| ==>
      if s.tasks[a.i].kind == PlanReplan then Obeys(s.plan, a.move.agentPlan)
      else WellFormed(a.move.agentPlan)
  }

  ghost predicate ObedientRun(states: seq<Sys>, actions: seq<Action>) {
    Run(states, actions) && forall k {:trigger actions[k]} :: 0 <= k < |actions| ==> Obedient(states[k], actions[k])
  }

  function Replans(ks: seq<Kind>): nat {
    if ks == [] then 0
    else Replans(ks[..|ks| - 1]) + (if ks[|ks| - 1] == PlanReplan then 1 else 0)
  }

  ghost predicate PlanOk(plan: seq<Sub>) {
    |plan| <= HARD_SUBTASK_CAP && NoneShadowed(plan)
  }

  ghost predicate RequestPending(s: Sys) {
    exists k :: 0 <= k < |s.plan| && s.plan[k].status == Pending && s.plan[k].id == s.request
  }

  function ReplansSoFar(s: Sys): nat {
    Replans(Kinds(s.tasks))
  }

  /** Gen-Functional can still send this plan back. */
  predicate GenAhead(t: Task) {
    t.Live() && ((t.kind == Gen && t.at != Advancing(Eval)) || t.at == Advancing(Gen))
  }

  /** The Planner has been sent back and has not answered yet. */
  predicate Answering(t: Task) {
    t.kind == PlanReplan && t.Live() && !t.at.Advancing?
  }

  ghost predicate GenAffordable(s: Sys)
    requires |s.tasks| > 0
  {
    GenAhead(Last(s)) ==> PlanOk(s.plan) && ReplansSoFar(s) + Measure(s.plan) <= 60
  }

  ghost predicate AnswerAffordable(s: Sys)
    requires |s.tasks| > 0
  {
    Answering(Last(s)) ==>
      PlanOk(s.plan) && ReplansSoFar(s) - 1 + Measure(s.plan) <= 60 && RequestPending(s)
  }

  ghost predicate RequestKept(s: Sys)
    requires |s.tasks| > 0
  {
    Last(s).at == Advancing(PlanReplan) ==> RequestPending(s)
  }

  /** Replans so far plus what the plan can still cost never exceeds sixty. */
  ghost predicate Affordable(s: Sys) {
    |s.tasks| > 0 && ReplansSoFar(s) <= 60 &&
    GenAffordable(s) && AnswerAffordable(s) && RequestKept(s) &&
    (Last(s).kind == PlanInitial ==> ReplansSoFar(s) == 0)
  }

  lemma PendingCosts(s: Sys)
    requires RequestPending(s)
    ensures Weights(s.plan) >= 1
  {
    var k :| 0 <= k < |s.plan| && s.plan[k].status == Pending && s.plan[k].id == s.request;
    PendingWeighs(s.plan, k);
  }

  /** What the Planner saves is affordable: an initial plan costs sixty at most,
      and a replan pays for itself. */
  lemma SavedPlanAffordable(s: Sys, i: nat, agentPlan: seq<Sub>)
    requires Inv(s) && Affordable(s) && i == |s.tasks| - 1
    requires s.tasks[i].at.Awaiting? && StageOf(s.tasks[i].kind) == Planner
    requires Obedient(s, TaskStep(i, AcceptPlan(agentPlan)))
    ensures var plan := if s.tasks[i].kind == PlanInitial then Cut(agentPlan, HARD_SUBTASK_CAP)
                        else AfterReplan(agentPlan, s.request);
      PlanOk(plan) && ReplansSoFar(s) + Measure(plan) <= 60
  {
    if s.tasks[i].kind == PlanInitial {
      CutWellFormed(agentPlan);
      MeasureBound(Cut(agentPlan, HARD_SUBTASK_CAP));
    } else {
      assert Answering(Last(s));
      var k :| 0 <= k < |s.plan| && s.plan[k].status == Pending && s.plan[k].id == s.request;
      ReplanLightens(s.plan, agentPlan, k);
    }
  }

  lemma CutWellFormed(s: seq<Sub>)
    requires WellFormed(s)
    ensures WellFormed(Cut(s, HARD_SUBTASK_CAP))
  {
    var c := Cut(s, HARD_SUBTASK_CAP);
    forall k | 0 <= k < |c| && c[k].status == Pending
      ensures !Shadowed(c, k)
    {
      assert !Shadowed(s, k);
      assert forall i :: 0 <= i <= k ==> c[i] == s[i];
    }
  }

  lemma AffordablePlan(s: Sys, i: nat, agentPlan: seq<Sub>)
    requires Inv(s) && Affordable(s) && i < |s.tasks| && CanMove(s.plan, s.tasks[i], AcceptPlan(agentPlan))
    requires Obedient(s, TaskStep(i, AcceptPlan(agentPlan)))
    ensures Affordable(Moved(s, i, AcceptPlan(agentPlan)))
  {
    LastMoves(s, i);
    SavedPlanAffordable(s, i, agentPlan);
    var s' := Moved(s, i, AcceptPlan(agentPlan));
    assert Kinds(s'.tasks) == Kinds(s.tasks);
  }

  /** The plan a rejection saves costs no more than the plan that was tried. */
  lemma RejectionAffordable(s: Sys, i: nat, outcomes: seq<Outcome>)
    requires Inv(s) && Affordable(s) && i == |s.tasks| - 1 && CanMove(s.plan, s.tasks[i], GenReject(outcomes))
    ensures var plan := Rejection(s.plan, outcomes).plan; PlanOk(plan) && ReplansSoFar(s) + Measure(plan) <= 60
  {
    assert GenAhead(Last(s));
    PassLightens(s.plan, outcomes);
    PassShadowsNone(s.plan, outcomes);
  }

  lemma RejectionRequests(s: Sys, i: nat, outcomes: seq<Outcome>)
    requires i < |s.tasks| && CanMove(s.plan, s.tasks[i], GenReject(outcomes))
    ensures RequestPending(Moved(s, i, GenReject(outcomes)))
  {
    PassLightens(s.plan, outcomes);
    var pass := Rejection(s.plan, outcomes);
    var s' := Moved(s, i, GenReject(outcomes));
    assert s'.plan[pass.at].id == s'.request;
  }

  lemma AffordableReject(s: Sys, i: nat, outcomes: seq<Outcome>)
    requires Inv(s) && Affordable(s) && i < |s.tasks| && CanMove(s.plan, s.tasks[i], GenReject(outcomes))
    ensures Affordable(Moved(s, i, GenReject(outcomes)))
  {
    LastMoves(s, i);
    RejectionAffordable(s, i, outcomes);
    RejectionRequests(s, i, outcomes);
    var s' := Moved(s, i, GenReject(outcomes));
    assert Kinds(s'.tasks) == Kinds(s.tasks);
  }

  lemma AffordableFinish(s: Sys, i: nat, outcomes: seq<Outcome>)
    requires Inv(s) && Affordable(s) && i < |s.tasks| && CanMove(s.plan, s.tasks[i], GenFinish(outcomes))
    ensures Affordable(Moved(s, i, GenFinish(outcomes)))
  {
    LastMoves(s, i);
    var s' := Moved(s, i, GenFinish(outcomes));
    assert Kinds(s'.tasks) == Kinds(s.tasks);
    assert Last(s').at == Returned || Last(s').at == Advancing(Eval);
  }

  lemma AffordableAdvance(s: Sys, i: nat, fired: bool)
    requires Inv(s) && Affordable(s) && i < |s.tasks| && s.tasks[i].at.Advancing?
    ensures Affordable(Moved(s, i, Advance(fired)))
  {
    LastMoves(s, i);
    var s' := Moved(s, i, Advance(fired));
    if fired {
      assert Kinds(s'.tasks)[..|s.tasks|] == Kinds(s.tasks);
      if s.tasks[i].at.next == PlanReplan {
        PendingCosts(s);
      }
    } else {
      assert Kinds(s'.tasks) == Kinds(s.tasks);
    }
  }

  /** A move that leaves the plan alone and hands over to the Triager at most. */
  predicate Quiet(t: Task, t': Task) {
    t'.kind == t.kind &&
    (t'.at == t.at || (t.Live() && !t.at.Advancing? && (t'.at.Advancing? ==> t'.at.next == Triage)) || !t'.Live())
  }

  lemma OtherMoves(s: Sys, i: nat, move: Move)
    requires i < |s.tasks| && CanMove(s.plan, s.tasks[i], move)
    requires !move.AcceptPlan? && !move.GenReject? && !move.GenFinish? && !move.Advance?
    ensures var s' := Moved(s, i, move);
      s'.plan == s.plan && s'.request == s.request && |s'.tasks| == |s.tasks| &&
      s'.tasks == s.tasks[i := s'.tasks[i]] && Quiet(s.tasks[i], s'.tasks[i])
  {
  }

  lemma AffordableQuiet(s: Sys, i: nat, s': Sys)
    requires Affordable(s) && i < |s.tasks| == |s'.tasks|
    requires s'.plan == s.plan && s'.request == s.request
    requires s'.tasks == s.tasks[i := s'.tasks[i]] && Quiet(s.tasks[i], s'.tasks[i])
    ensures Affordable(s')
  {
    assert Kinds(s'.tasks) == Kinds(s.tasks);
  }

  lemma AffordableOther(s: Sys, i: nat, move: Move)
    requires Affordable(s) && i < |s.tasks| && CanMove(s.plan, s.tasks[i], move)
    requires !move.AcceptPlan? && !move.GenReject? && !move.GenFinish? && !move.Advance?
    ensures Affordable(Moved(s, i, move))
  {
    OtherMoves(s, i, move);
    AffordableQuiet(s, i, Moved(s, i, move));
  }

  lemma AffordableMove(s: Sys, i: nat, move: Move)
    requires Inv(s) && Affordable(s) && Enabled(s, TaskStep(i, move)) && Obedient(s, TaskStep(i, move))
    ensures Affordable(Moved(s, i, move))
  {
    if move.AcceptPlan? {
      AffordablePlan(s, i, move.agentPlan);
    } else if move.GenReject? {
      AffordableReject(s, i, move.outcomes);
    } else if move.GenFinish? {
      AffordableFinish(s, i, move.outcomes);
    } else if move.Advance? {
      AffordableAdvance(s, i, move.fired);
    } else {
      AffordableOther(s, i, move);
    }
  }

  lemma AffordableStep(s: Sys, a: Action)
    requires Inv(s) && Affordable(s) && Enabled(s, a) && Obedient(s, a)
    ensures Affordable(Apply(s, a))
  {
    if a.TaskStep? {
      AffordableMove(s, a.i, a.move);
    } else {
      assert Apply(s, a).tasks == s.tasks && Apply(s, a).plan == s.plan && Apply(s, a).request == s.request;
    }
  }

  lemma AffordableInit(s: Sys)
    requires Init(s)
    ensures Affordable(s)
  {
    assert Kinds(s.tasks) == [PlanInitial];
    assert Replans([PlanInitial]) == 0;
  }

  lemma {:induction false} ObedientRunAffordable(states: seq<Sys>, actions: seq<Action>, k: nat)
    requires ObedientRun(states, actions) && k < |states|
    ensures Affordable(states[k])
  {
    if k > 0 {
      ObedientRunAffordable(states, actions, k - 1);
      RunKeepsInv(states, actions, k - 1);
      assert Step(states[k - 1], actions[k - 1], states[k - 1 + 1]);
      assert Obedient(states[k - 1], actions[k - 1]);
      AffordableStep(states[k - 1], actions[k - 1]);
    } else {
      AffordableInit(states[0]);
    }
  }

  /** A chain of stages is at most a fixed overhead longer than twice its replans. */
  lemma {:induction false} ChainLength(ks: seq<Kind>)
    requires Chain(ks) && ks != [] && ks[0] == PlanInitial
    ensures |ks| <= 2 * Replans(ks) +
      (match ks[|ks| - 1] case PlanInitial => 1 case PlanReplan => 1 case Gen => 2 case Eval => 3 case Triage => 4)
  {
    var n := |ks| - 1;
    if n > 0 {
      assert Follows(ks[n - 1], ks[n - 1 + 1]);
      ChainLength(ks[..n]);
    }
  }

  /** Whatever is rejected, cancelled or flagged on the way, one request costs at
      most sixty replans and a hundred and twenty-four stage runs, as long as
      the planner agent keeps to its prompt. */
  lemma PipelineEnds(states: seq<Sys>, actions: seq<Action>, k: nat)
    requires ObedientRun(states, actions) && k < |states|
    ensures Replans(Kinds(states[k].tasks)) <= 60
    ensures |states[k].tasks| <= 124
  {
    ObedientRunAffordable(states, actions, k);
    RunKeepsInv(states, actions, k);
    var ks := Kinds(states[k].tasks);
    forall i | 0 <= i < |ks| - 1
      ensures Follows(ks[i], ks[i + 1])
    {
    }
    ChainLength(ks);
  }

  // ---- What a verdict is worth by the time it is acted on ----

  /** The record is past the deadline at the time the watchdog looked. */
  predicate PastDeadline(s: Sys, now: int) {
    s.status.Active? && now - s.updatedAt > DEADLINE_SECONDS
  }

  /** What the watchdog holds in its hand: true of the status it read, looked at
      in the past, and as long as the status is active nothing was written since,
      or only after the watchdog had looked. */
  ghost predicate VerdictsSound(s: Sys) {
    forall v :: 0 <= v < |s.verdicts| ==> VerdictSound(s, s.verdicts[v])
  }

  predicate VerdictSound(s: Sys, v: StallVerdict) {
    v.status.Active? && v.now - v.updatedAt > DEADLINE_SECONDS && v.now <= s.clock &&
    (s.status.Active? ==> s.updatedAt == v.updatedAt || s.updatedAt >= v.now)
  }

  /** A step keeps a verdict sound as long as it writes at the time it happens. */
  lemma SoundStep(s: Sys, a: Action, v: StallVerdict)
    requires Enabled(s, a) && VerdictSound(s, v)
    ensures VerdictSound(Apply(s, a), v)
  {
  }

  lemma VerdictsStep(s: Sys, a: Action)
    requires Enabled(s, a) && VerdictsSound(s)
    ensures VerdictsSound(Apply(s, a))
  {
    var s' := Apply(s, a);
    forall v | 0 <= v < |s'.verdicts|
      ensures VerdictSound(s', s'.verdicts[v])
    {
      if s'.verdicts[v] in s.verdicts {
        SoundStep(s, a, s'.verdicts[v]);
      }
    }
  }

  lemma {:induction false} VerdictsStaySound(states: seq<Sys>, actions: seq<Action>, k: nat)
    requires Run(states, actions) && k < |states|
    ensures VerdictsSound(states[k])
  {
    if k > 0 {
      VerdictsStaySound(states, actions, k - 1);
      assert Step(states[k - 1], actions[k - 1], states[k - 1 + 1]);
      VerdictsStep(states[k - 1], actions[k - 1]);
    }
  }

  /** `mark_stalled` rechecks that the status is active, and flips it; it does not
      compare time stamps. What it flips is really past its deadline exactly when
      the time stamp is still the one the watchdog read, which is the guard the
      code lacks. */
  lemma FlipIsJustifiedIff(states: seq<Sys>, actions: seq<Action>, k: nat, v: nat)
    requires Run(states, actions) && k < |states| && v < |states[k].verdicts| && states[k].status.Active?
    ensures Apply(states[k], MarkStalled(v)).status == Stalled
    ensures PastDeadline(states[k], states[k].verdicts[v].now) <==>
      states[k].updatedAt == states[k].verdicts[v].updatedAt
  {
    VerdictsStaySound(states, actions, k);
    assert VerdictSound(states[k], states[k].verdicts[v]);
  }

  const SLOW := StallVerdict(Active(Planner), 0, 901)

  function StaleState(k: nat): Sys {
    var planner := (at: Progress) => Task(PlanInitial, at, false);
    if k == 0 then Sys(Unstarted, 0, 0, [planner(Scheduled)], [], "", [])
    else if k == 1 then Sys(Active(Planner), 0, 0, [planner(Working)], [], "", [])
    else if k == 2 then Sys(Active(Planner), 0, 0, [planner(Awaiting(1))], [], "", [])
    else if k == 3 then Sys(Active(Planner), 0, 901, [planner(Awaiting(1))], [], "", [])
    else if k == 4 then Sys(Active(Planner), 0, 901, [planner(Awaiting(1))], [], "", [SLOW])
    else if k == 5 then Sys(PlannedEmpty, 901, 901, [planner(Advancing(Gen))], [], "", [SLOW])
    else if k == 6 then
      Sys(PlannedEmpty, 901, 901, [planner(Returned), Task(Gen, Scheduled, false)], [], "", [SLOW])
    else if k == 7 then
      Sys(Active(GenFunctional), 901, 901, [planner(Returned), Task(Gen, Working, false)], [], "", [SLOW])
    else Sys(Stalled, 901, 901, [planner(Returned), Task(Gen, Working, false)], [], "", [])
  }

  function StaleAction(k: nat): Action {
    if k == 0 then TaskStep(0, Enter)
    else if k == 1 then TaskStep(0, Await)
    else if k == 2 then Tick(901)
    else if k == 3 then EvaluateLiveness
    else if k == 4 then TaskStep(0, AcceptPlan([]))
    else if k == 5 then TaskStep(0, Advance(true))
    else if k == 6 then TaskStep(1, Enter)
    else MarkStalled(0)
  }

  /** The Planner is slow, and the watchdog sees it. */
  lemma SlowStep(k: nat)
    requires k < 4
    ensures Step(StaleState(k), StaleAction(k), StaleState(k + 1))
  {
    var s, s' := StaleState(k), StaleState(k + 1);
    assert Enabled(s, StaleAction(k));
    var r := Apply(s, StaleAction(k));
    assert r.tasks == s'.tasks && r.verdicts == s'.verdicts;
  }

  /** It goes on, and so does the next stage, until the verdict is acted on. */
  lemma LateStep(k: nat)
    requires 4 <= k < 8
    ensures Step(StaleState(k), StaleAction(k), StaleState(k + 1))
  {
    var s, s' := StaleState(k), StaleState(k + 1);
    assert Enabled(s, StaleAction(k));
    var r := Apply(s, StaleAction(k));
    assert r.tasks == s'.tasks && r.verdicts == s'.verdicts;
  }

  lemma StaleStep(k: nat)
    requires k < 8
    ensures Step(StaleState(k), StaleAction(k), StaleState(k + 1))
  {
    if k < 4 {
      SlowStep(k);
    } else {
      LateStep(k);
    }
  }

  /** It can also hit the wrong stage: a verdict on a slow Planner flips the
      Gen-Functional stage that started after it, in the very second it wrote
      its first status. */
  lemma StaleVerdictHitsNextStage()
    returns (states: seq<Sys>, actions: seq<Action>)
    ensures Run(states, actions) && |actions| == 8 && actions[7] == MarkStalled(0)
    ensures states[7].status == Active(GenFunctional) && states[7].updatedAt == states[7].clock
    ensures states[8].status == Stalled
  {
    states := seq(9, k requires 0 <= k => StaleState(k));
    actions := seq(8, k requires 0 <= k => StaleAction(k));
    forall k | 0 <= k < 8
      ensures Step(states[k], actions[k], states[k + 1])
    {
      StaleStep(k);
    }
  }
}
