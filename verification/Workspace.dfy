/** The workspace the stages share, as the object they update: the status file,
    the plan file, the replan request and the task registry. */
module Workspace {
  import opened TestPlan
  import opened ReplanLoop
  import opened PlanFile
  import opened PhaseCheck
  import opened ReplanSteps
  import opened Pipeline
  import T = Triager

  // Each method is one step of the protocol on the object, and keeps its
  // invariant. What the step means for the status and for the other tasks is
  // said on the object.

  /** What an agent session of the Planner leaves behind. */
  datatype PlannerSession = SessionError | InvalidPlan | Emitted(file: seq<PlanPhase>)

  /** Whether the next stage could be scheduled. */
  datatype Gate = Open | Closed | ScheduleRaised

  class Spec {
    var status: Status
    var updatedAt: int
    var clock: int
    var tasks: seq<Task>
    var plan: seq<PlanPhase>
    var request: string
    var verdicts: seq<StallVerdict>

    /** The state of the protocol this workspace is in. */
    ghost function View(): Sys
      reads this
    {
      Sys(status, updatedAt, clock, tasks, FlatSubs(plan), request, verdicts)
    }

    ghost predicate Valid()
      reads this
    {
      Inv(View())
    }

    ghost predicate Can(i: nat, move: Move)
      reads this
    {
      i < |tasks| && CanMove(FlatSubs(plan), tasks[i], move)
    }

    /** Task `i` is the newest and the only one that has not returned. */
    ghost predicate OnlyLive(i: nat)
      reads this
    {
      OnlyLiveIn(tasks, i)
    }

    ghost predicate NobodyLive()
      reads this
    {
      forall j :: 0 <= j < |tasks| ==> !tasks[j].Live()
    }

    /** The stage of task `i` has failed: for good, and with nobody in flight. */
    ghost predicate FailedFor(kind: Kind)
      reads this
    {
      status == StageFailed(StageOf(kind)) && NobodyLive()
    }

    /** Task `i` is over, and what comes next is scheduled and handed to. */
    ghost predicate SucceededBy(i: nat)
      reads this
    {
      |tasks| == i + 2 && OnlyLive(i + 1) && tasks[i + 1].at == Scheduled &&
      HandsTo(status, tasks[i + 1].kind) && Follows(tasks[i].kind, tasks[i + 1].kind)
    }

    /** A fresh workspace with the Planner scheduled. */
    constructor (plan: seq<PlanPhase>, clock: int)
      ensures Valid() && Init(View()) && OnlyLive(0)
    {
      this.status, this.updatedAt, this.clock := Unstarted, clock, clock;
      this.tasks := [Task(PlanInitial, Scheduled, false)];
      this.plan, this.request, this.verdicts := plan, "", [];
    }

    /** `write_status_patch`: merge the new status, stamp the time. */
    method WriteStatusPatch(st: Status)
      modifies this`status, this`updatedAt
      ensures View() == old(View()).Write(st)
    {
      status, updatedAt := st, clock;
    }

    method MoveTask(i: nat, at: Progress)
      requires i < |tasks|
      modifies this`tasks
      ensures View() == old(View()).MoveTo(i, at)
    {
      tasks := tasks[i := tasks[i].(at := at)];
    }

    /** `BackgroundTaskRegistry.schedule` plus `fail_status_on_cancel`. */
    method ScheduleTask(kind: Kind)
      modifies this`tasks
      ensures View() == old(View()).Schedule(kind)
    {
      tasks := tasks + [Task(kind, Scheduled, false)];
    }

    /** The end of a body that succeeded: what it saves, its status, and who is next. */
    method HandOver(i: nat, saved: seq<PlanPhase>, id: string, st: Status, next: Kind)
      requires i < |tasks|
      modifies this`plan, this`request, this`status, this`updatedAt, this`tasks
      ensures View() == old(View()).(plan := FlatSubs(saved), request := id).Write(st).MoveTo(i, Advancing(next))
      ensures plan == saved
    {
      plan, request := saved, id;
      WriteStatusPatch(st);
      MoveTask(i, Advancing(next));
    }

    /** Any `<stage>_failed` exit of a body. */
    method FailStage(i: nat)
      requires Valid() && Can(i, Fail)
      modifies this
      ensures Valid() && View() == Moved(old(View()), i, Fail)
      ensures FailedFor(old(tasks[i].kind)) && plan == old(plan)
    {
      InvMove(View(), i, Fail);
      LastMoves(View(), i);
      WriteStatusPatch(StageFailed(StageOf(tasks[i].kind)));
      MoveTask(i, Returned);
    }

    /** The first status write of any stage: its own status becomes the active
        one, and no other stage is in flight to contradict it. */
    method EnterStage(i: nat)
      requires Valid() && Can(i, Enter)
      modifies this
      ensures Valid() && View() == Moved(old(View()), i, Enter)
      ensures status == Active(StageOf(tasks[i].kind)) && OnlyLive(i)
    {
      InvMove(View(), i, Enter);
      LastMoves(View(), i);
      WriteStatusPatch(Active(StageOf(tasks[i].kind)));
      MoveTask(i, Working);
    }

    /** The Planner wakes up from a session: fail, retry once, or accept. */
    method PlannerResume(i: nat, session: PlannerSession)
      requires Valid()
      requires i < |tasks| && tasks[i].at.Awaiting? && StageOf(tasks[i].kind) == Planner
      modifies this
      ensures Valid()
      ensures session.SessionError? ==> FailedFor(old(tasks[i].kind)) && plan == old(plan)
      ensures session.InvalidPlan? && old(tasks[i].at.sessions) < 2 ==>
        View() == Moved(old(View()), i, Await) && OnlyLive(i)
      ensures session.InvalidPlan? && old(tasks[i].at.sessions) >= 2 ==>
        FailedFor(old(tasks[i].kind)) && plan == old(plan)
      ensures session.Emitted? ==> View() == PlannerAccepts(old(View()), i, old(plan), session.file)
      ensures session.Emitted? && tasks[i].at.Advancing? ==> AcceptedFrom(old(View()), i, session.file)
      ensures session.Emitted? && !tasks[i].at.Advancing? ==> FailedFor(PlanReplan) && plan == old(plan)
    {
      match session
      case SessionError => FailStage(i);
      case InvalidPlan =>
        if tasks[i].at.sessions < 2 {
          InvMove(View(), i, Await);
          LastMoves(View(), i);
          MoveTask(i, Awaiting(tasks[i].at.sessions + 1));
        } else {
          FailStage(i);
        }
      case Emitted(file) =>
        if tasks[i].kind == PlanInitial {
          AcceptInitial(i, file);
        } else {
          AcceptReplan(i, file);
        }
    }

    /** What an accepted plan is good for: it fits the cap, loses no phase on a
        replan, and an answer that leaves the old plan alone makes it cheaper. */
    ghost predicate AcceptedFrom(was: Sys, i: nat, emitted: seq<PlanPhase>)
      reads this
    {
      i < |was.tasks| && HandsTo(status, Gen) && OnlyLive(i) && tasks[i].at == Advancing(Gen) &&
      |FlatSubs(plan)| <= HARD_SUBTASK_CAP && Numbers(plan) == Numbers(emitted) &&
      (status == PlannedEmpty <==> was.tasks[i].kind == PlanInitial && FlatSubs(emitted) == []) &&
      (status == Planned <==> was.tasks[i].kind == PlanReplan || FlatSubs(emitted) != []) &&
      (was.tasks[i].kind == PlanReplan && Obeys(was.plan, FlatSubs(emitted)) && PlanOk(was.plan) &&
          RequestPending(was) ==>
        PlanOk(FlatSubs(plan)) && Measure(FlatSubs(plan)) < Measure(was.plan))
    }

    method AcceptInitial(i: nat, emitted: seq<PlanPhase>)
      requires Valid() && Can(i, AcceptPlan(FlatSubs(emitted))) && tasks[i].kind == PlanInitial
      modifies this
      ensures Valid() && View() == Moved(old(View()), i, AcceptPlan(FlatSubs(emitted)))
      ensures AcceptedFrom(old(View()), i, emitted)
    {
      InvMove(View(), i, AcceptPlan(FlatSubs(emitted)));
      LastMoves(View(), i);
      var saved := SaveInitial(emitted);
      HandOver(i, saved, request, if |FlatSubs(emitted)| == 0 then PlannedEmpty else Planned, Gen);
    }

    method AcceptReplan(i: nat, emitted: seq<PlanPhase>)
      requires Valid() && Can(i, AcceptPlan(FlatSubs(emitted))) && tasks[i].kind == PlanReplan
      modifies this
      ensures Valid() && View() == PlannerAccepts(old(View()), i, old(plan), emitted)
      ensures tasks[i].at.Advancing? ==> AcceptedFrom(old(View()), i, emitted)
      ensures !tasks[i].at.Advancing? ==> FailedFor(PlanReplan) && plan == old(plan)
    {
      var ok, newCount, stuck, saved := SaveReplan(plan, emitted, request);
      if !ok {
        FailStage(i);
      } else {
        HandReplan(i, emitted, saved);
      }
    }

    /** The accepted plan is saved and handed to Gen-Functional. */
    method HandReplan(i: nat, ghost emitted: seq<PlanPhase>, saved: seq<PlanPhase>)
      requires Valid() && Can(i, AcceptPlan(FlatSubs(emitted))) && tasks[i].kind == PlanReplan
      requires SavedAs(emitted, request, saved)
      modifies this
      ensures Valid() && View() == Moved(old(View()), i, AcceptPlan(FlatSubs(emitted)))
      ensures AcceptedFrom(old(View()), i, emitted)
    {
      InvMove(View(), i, AcceptPlan(FlatSubs(emitted)));
      LastMoves(View(), i);
      SavedNumbers(emitted, request, saved);
      AnswerLightens(View(), FlatSubs(emitted));
      HandOver(i, saved, request, Planned, Gen);
    }

    /** Gen-Functional opens the next session. */
    method NextSession(i: nat)
      requires Valid() && Can(i, Await)
      modifies this`tasks
      ensures Valid() && View() == Moved(old(View()), i, Await) && OnlyLive(i)
    {
      InvMove(View(), i, Await);
      LastMoves(View(), i);
      MoveTask(i, Awaiting(Sessions(tasks[i].at) + 1));
    }

    /** How Gen-Functional ends: it has failed, or it asks for a replan of a subtask
        that is still pending, or it hands over with nothing pending at all. */
    ghost predicate GenLeaves(i: nat)
      reads this
    {
      FailedFor(Gen) ||
      (OnlyLive(i) && status == ReplanRequested && RequestPending(View())) ||
      (OnlyLive(i) && status == Generated && PendingAt(FlatSubs(plan)) == [])
    }

    /** Gen-Functional after its last session, with everything the guards said:
        the pass over the subtasks decides what the status becomes. */
    method GenResume(i: nat, outcomes: seq<Outcome>)
      requires Valid() && i < |tasks| && tasks[i].kind == Gen
      requires PendingAt(FlatSubs(plan)) != [] && |PendingAt(FlatSubs(plan))| <= |outcomes|
      requires tasks[i].at.Awaiting? || (tasks[i].at.Working? && !GenPass(FlatSubs(plan), outcomes).Rejected?)
      modifies this
      ensures Valid() && View() == Moved(old(View()), i, GenMove(GenPass(old(FlatSubs(plan)), outcomes), outcomes))
      ensures Numbers(plan) == Numbers(old(plan)) && GenLeaves(i)
      ensures GenSays(old(FlatSubs(plan)), FlatSubs(plan), outcomes, status, request)
    {
      ghost var was := FlatSubs(plan);
      var end, saved := GenerateFromFile(plan, outcomes);
      GenLeave(i, outcomes, end, saved);
      GenStatus(was, FlatSubs(plan), outcomes, end, status, request);
    }

    /** The status write after the loop, and the plan that is saved with it. */
    method GenLeave(i: nat, ghost outcomes: seq<Outcome>, end: LoopEnd, saved: seq<PlanPhase>)
      requires Valid() && i < |tasks| && tasks[i].kind == Gen
      requires PendingAt(FlatSubs(plan)) != [] && |PendingAt(FlatSubs(plan))| <= |outcomes|
      requires tasks[i].at.Awaiting? || (tasks[i].at.Working? && !GenPass(FlatSubs(plan), outcomes).Rejected?)
      requires match GenPass(FlatSubs(plan), outcomes)
        case Finished(q, n) => end == AllTried(n) && FlatSubs(saved) == q
        case Rejected(q, k, n) => k < |q| && end == ReplanNeeded(q[k].id, n) && FlatSubs(saved) == q
        case Crashed => end == LoopRaised && saved == plan
      modifies this
      ensures Valid() && View() == Moved(old(View()), i, GenMove(GenPass(old(FlatSubs(plan)), outcomes), outcomes))
      ensures plan == saved && GenLeaves(i)
      ensures match end
        case LoopRaised => status == StageFailed(GenFunctional)
        case ReplanNeeded(id, _) => status == ReplanRequested && request == id
        case AllTried(n) => status == if n == 0 then StageFailed(GenFunctional) else Generated
    {
      match end
      case LoopRaised => FailStage(i);
      case ReplanNeeded(id, _) => GenStop(i, outcomes, id, saved);
      case AllTried(generated) => GenDone(i, outcomes, generated, saved);
    }

    method GenStop(i: nat, ghost outcomes: seq<Outcome>, id: string, saved: seq<PlanPhase>)
      requires Valid() && Can(i, GenReject(outcomes))
      requires var r := Rejection(FlatSubs(plan), outcomes); FlatSubs(saved) == r.plan && id == r.plan[r.at].id
      modifies this
      ensures Valid() && View() == Moved(old(View()), i, GenReject(outcomes)) && plan == saved
      ensures OnlyLive(i) && status == ReplanRequested && RequestPending(View()) && request == id
    {
      RejectedState(View(), i, outcomes);
      HandOver(i, saved, id, ReplanRequested, PlanReplan);
    }

    method GenDone(i: nat, ghost outcomes: seq<Outcome>, generated: nat, saved: seq<PlanPhase>)
      requires Valid() && Can(i, GenFinish(outcomes))
      requires GenPass(FlatSubs(plan), outcomes) == Finished(FlatSubs(saved), generated)
      modifies this
      ensures Valid() && View() == Moved(old(View()), i, GenFinish(outcomes)) && plan == saved
      ensures PendingAt(FlatSubs(plan)) == []
      ensures if generated == 0 then FailedFor(Gen) else OnlyLive(i) && status == Generated
    {
      ghost var next := Moved(View(), i, GenFinish(outcomes));
      FinishedState(View(), i, outcomes);
      if generated == 0 {
        plan := saved;
        WriteStatusPatch(StageFailed(GenFunctional));
        MoveTask(i, Returned);
      } else {
        HandOver(i, saved, request, Generated, Eval);
      }
      assert View() == next;
    }

    /** The Evaluator wakes up with the verdicts it was waiting for. */
    method EvaluatorResume(i: nat, verdictsValid: bool)
      requires Valid() && Can(i, EvalFinish)
      modifies this
      ensures Valid() && View() == Moved(old(View()), i, if verdictsValid then EvalFinish else Fail)
      ensures if verdictsValid then OnlyLive(i) && HandsTo(status, Triage) else FailedFor(Eval)
    {
      if verdictsValid {
        InvMove(View(), i, EvalFinish);
        LastMoves(View(), i);
        WriteStatusPatch(Evaluated);
        MoveTask(i, Advancing(Triage));
      } else {
        FailStage(i);
      }
    }

    /** Gen-Functional looks at the plan: without a pending subtask it is over. */
    method GenBegin(i: nat) returns (pending: nat)
      requires Valid() && i < |tasks| && tasks[i].kind == Gen && tasks[i].at.Working?
      modifies this
      ensures Valid() && plan == old(plan)
      ensures pending == |PendingAt(old(FlatSubs(plan)))|
      ensures pending == 0 <==> forall k :: 0 <= k < |FlatSubs(plan)| ==> FlatSubs(plan)[k].status != Pending
      ensures pending == 0 ==> View() == Moved(old(View()), i, GenNothing) && status == GeneratedEmpty && NobodyLive()
      ensures pending > 0 ==> View() == old(View())
    {
      pending := CountPending(plan);
      NoneToDo(FlatSubs(plan));
      if pending == 0 {
        InvMove(View(), i, GenNothing);
        LastMoves(View(), i);
        WriteStatusPatch(GeneratedEmpty);
        MoveTask(i, Returned);
      }
    }

    /** A whole Triager run: it fails, or its last status says `triaged` exactly when
        there was a candidate to keep, and `triaged_empty` exactly when there was
        none. */
    method TriagerRun(i: nat, inp: T.Inputs) returns (o: T.Outcome)
      requires Valid() && i < |tasks| && tasks[i].kind == Triage && tasks[i].at.Working?
      modifies this
      ensures Valid() && o == T.Triage(inp) && NobodyLive()
      ensures o.Failed? ==> FailedFor(Triage)
      ensures o.Finished? ==> (status == Triaged <==> T.KeepersOf(inp) != [])
      ensures o.Finished? ==> (status == TriagedEmpty <==> T.KeepersOf(inp) == [])
    {
      o := T.RunTriager(inp);
      T.TriagedIff(inp);
      TriagerLeave(i, o.Failed?, o.Failed? || !o.record.triaged);
    }

    /** The end of a run: a failure, or the last write of one that finished. */
    method TriagerLeave(i: nat, failed: bool, empty: bool)
      requires Valid() && i < |tasks| && tasks[i].kind == Triage && tasks[i].at.Working?
      modifies this
      ensures Valid() && NobodyLive()
      ensures failed ==> FailedFor(Triage)
      ensures !failed ==> (status == TriagedEmpty <==> empty) && (status == Triaged <==> !empty)
    {
      if failed {
        FailStage(i);
      } else {
        TriagerFinish(i, empty);
      }
    }

    /** The last write of a run: `triaged_empty` exactly for an empty run, otherwise
        `triaged`, and nobody left in flight. */
    method TriagerFinish(i: nat, empty: bool)
      requires Valid() && Can(i, TriageFinish(empty))
      modifies this
      ensures Valid() && View() == Moved(old(View()), i, TriageFinish(empty))
      ensures (status == TriagedEmpty <==> empty) && (status == Triaged <==> !empty) && NobodyLive()
    {
      InvMove(View(), i, TriageFinish(empty));
      LastMoves(View(), i);
      WriteStatusPatch(if empty then TriagedEmpty else Triaged);
      MoveTask(i, Returned);
    }

    /** `_advance_to_<next>`: a closed gate or a missing import is not an error,
        any other exception fails the stage that was about to return. If the gate
        is open the successor is the one live task, and the status hands to it. */
    method AdvanceTo(i: nat, gate: Gate)
      requires Valid() && i < |tasks| && tasks[i].at.Advancing?
      modifies this
      ensures Valid() && View() == Moved(old(View()), i, if gate.ScheduleRaised? then Fail else Advance(gate.Open?))
      ensures gate.Open? ==> status == old(status) && SucceededBy(i)
      ensures gate.Closed? ==> status == old(status) && NobodyLive()
      ensures gate.ScheduleRaised? ==> FailedFor(old(tasks[i].kind))
    {
      if gate.ScheduleRaised? {
        FailStage(i);
      } else {
        InvMove(View(), i, Advance(gate.Open?));
        LastMoves(View(), i);
        var next := tasks[i].at.next;
        MoveTask(i, Returned);
        if gate.Open? {
          ScheduleTask(next);
        }
      }
    }

    /** `_on_done`, attached by `fail_status_on_cancel`. A settled status survives
        it. If the task was cancelled it is the newest one, any active status is
        its own, and its failure is what is left; otherwise nothing changes. */
    method OnDone(i: nat)
      requires Valid() && Can(i, Callback)
      modifies this
      ensures Valid() && View() == Moved(old(View()), i, Callback)
      ensures old(status).Settled() ==> status == old(status)
      ensures old(tasks[i].at).Cancelled? ==> FailedFor(tasks[i].kind) && i == |tasks| - 1
      ensures old(tasks[i].at).Cancelled? && old(status).Active? ==>
        old(status) == Active(StageOf(tasks[i].kind))
      ensures !old(tasks[i].at).Cancelled? ==> status == old(status) && updatedAt == old(updatedAt)
    {
      InvMove(View(), i, Callback);
      if tasks[i].at.Cancelled? {
        LastMoves(View(), i);
      }
      var stage := StageOf(tasks[i].kind);
      var cancelled := tasks[i].at.Cancelled?;
      tasks := tasks[i := tasks[i].(callbackDone := true)];
      if cancelled && !status.Settled() {
        WriteStatusPatch(StageFailed(stage));
      }
    }

    /** `evaluate_liveness`, with the deadline in force. A stall is only ever
        reported of a stage that is live or was cancelled a moment ago. */
    method EvaluateLive() returns (stalled: bool)
      requires Valid()
      modifies this`verdicts
      ensures Valid() && View() == Apply(old(View()), EvaluateLiveness)
      ensures stalled <==> PastDeadline(old(View()), clock)
      ensures stalled ==> NewestOwnsStatus(View())
      ensures stalled ==> verdicts == old(verdicts) + [StallVerdict(status, updatedAt, clock)]
    {
      stalled := status.Active? && clock - updatedAt > DEADLINE_SECONDS;
      if stalled {
        ActiveIsOwned(View());
        verdicts := verdicts + [StallVerdict(status, updatedAt, clock)];
      }
    }

    /** `mark_stalled`. A settled status survives it, and so does every status that
        no stage in flight owns. */
    method Mark(v: nat) returns (flipped: bool)
      requires Valid() && v < |verdicts|
      modifies this
      ensures Valid() && View() == Apply(old(View()), MarkStalled(v))
      ensures flipped <==> old(status).Active?
      ensures flipped ==> NewestOwnsStatus(old(View())) && status == Stalled
      ensures !flipped ==> status == old(status) && updatedAt == old(updatedAt)
      ensures tasks == old(tasks) && plan == old(plan) && request == old(request)
    {
      InvStep(View(), MarkStalled(v));
      var now := verdicts[v].now;
      verdicts := verdicts[..v] + verdicts[v + 1..];
      flipped := status.Active?;
      if flipped {
        ActiveIsOwned(old(View()));
        status, updatedAt := Stalled, now;
      }
    }

    /** `check_and_mark`, when nothing comes between looking and marking: the
        status becomes `stalled` exactly if it was active past the deadline, and
        nothing else changes. */
    method CheckAndMark() returns (stalled: bool)
      requires Valid()
      modifies this
      ensures Valid()
      ensures stalled <==> PastDeadline(old(View()), old(clock))
      ensures stalled ==> View() == old(View()).Write(Stalled)
      ensures !stalled ==> View() == old(View())
    {
      stalled := EvaluateLive();
      if stalled {
        var flipped := Mark(|verdicts| - 1);
        assert verdicts == old(verdicts);
      }
    }
  }

  /** What the Planner does with an emitted plan: a replan that loses a phase or
      adds more than one fails, everything else is accepted. */
  ghost function PlannerAccepts(s: Sys, i: nat, before: seq<PlanPhase>, emitted: seq<PlanPhase>): Sys
    requires i < |s.tasks| && s.tasks[i].at.Awaiting? && StageOf(s.tasks[i].kind) == Planner
  {
    if s.tasks[i].kind == PlanReplan && !PhasesPreserved(Numbers(before), Numbers(emitted)) then Moved(s, i, Fail)
    else Moved(s, i, AcceptPlan(FlatSubs(emitted)))
  }

  /** What the status says of a pass, in terms of the outcomes and the plan before
      and after: a rejection asks for a replan of the subtask it is about; an
      exception fails the stage and saves nothing; and without either the stage
      fails exactly when no subtask has become completed. */
  ghost predicate GenSays(was: seq<Sub>, now: seq<Sub>, outcomes: seq<Outcome>, status: Status, request: string)
    requires |PendingAt(was)| <= |outcomes|
  {
    var ps := PendingAt(was);
    var t := TriedCount(outcomes, |ps|);
    if t < |ps| && outcomes[t] == Raised then status == StageFailed(GenFunctional) && now == was
    else
      Tried(was, now, ps, outcomes, t) &&
      if t < |ps| then status == ReplanRequested && request == was[ps[t]].id
      else status == if NewlyDone(was, now) == {} then StageFailed(GenFunctional) else Generated
  }

  lemma GenStatus(was: seq<Sub>, now: seq<Sub>, outcomes: seq<Outcome>, end: LoopEnd, status: Status, request: string)
    requires |PendingAt(was)| <= |outcomes| && LoopDid(was, now, outcomes, end)
    requires match end
      case LoopRaised => status == StageFailed(GenFunctional) && now == was
      case ReplanNeeded(id, _) => status == ReplanRequested && request == id
      case AllTried(n) => status == if n == 0 then StageFailed(GenFunctional) else Generated
    ensures GenSays(was, now, outcomes, status, request)
  {
  }

  lemma NoneToDo(s: seq<Sub>)
    ensures |PendingAt(s)| == 0 <==> NothingPending(s)
  {
    if NothingPending(s) {
      NonePending(s);
    }
  }

  /** How a pass shows in the protocol. */
  function GenMove(pass: Pass, outcomes: seq<Outcome>): Move {
    match pass
    case Finished(_, _) => GenFinish(outcomes)
    case Rejected(_, _, _) => GenReject(outcomes)
    case Crashed => Fail
  }

  ghost predicate OnlyLiveIn(tasks: seq<Task>, i: nat) {
    i == |tasks| - 1 && tasks[i].Live() && forall j :: 0 <= j < i ==> tasks[j].at == Returned
  }

  /** What a rejection leaves: Gen-Functional on its way out, and the request for
      a subtask that is still pending. */
  lemma RejectedState(s: Sys, i: nat, outcomes: seq<Outcome>)
    requires Inv(s) && i < |s.tasks| && CanMove(s.plan, s.tasks[i], GenReject(outcomes))
    ensures var next, r := Moved(s, i, GenReject(outcomes)), Rejection(s.plan, outcomes);
      Inv(next) && OnlyLiveIn(next.tasks, i) && RequestPending(next) &&
      next == s.(plan := r.plan, request := r.plan[r.at].id)
               .Write(ReplanRequested).MoveTo(i, Advancing(PlanReplan))
  {
    InvMove(s, i, GenReject(outcomes));
    LastMoves(s, i);
    RejectionRequests(s, i, outcomes);
  }

  /** What the end of the loop leaves: nothing pending, and a failure or a hand-over. */
  lemma FinishedState(s: Sys, i: nat, outcomes: seq<Outcome>)
    requires Inv(s) && i < |s.tasks| && CanMove(s.plan, s.tasks[i], GenFinish(outcomes))
    ensures var next, r := Moved(s, i, GenFinish(outcomes)), GenPass(s.plan, outcomes);
      Inv(next) && next.plan == r.plan && PendingAt(r.plan) == [] &&
      if r.generated == 0 then
        next == s.(plan := r.plan).Write(StageFailed(GenFunctional)).MoveTo(i, Returned) &&
        forall j :: 0 <= j < |next.tasks| ==> !next.tasks[j].Live()
      else
        next == s.(plan := r.plan).Write(Generated).MoveTo(i, Advancing(Eval)) && OnlyLiveIn(next.tasks, i)
  {
    InvMove(s, i, GenFinish(outcomes));
    LastMoves(s, i);
    FinishedLeavesNothing(s.plan, outcomes);
  }

  lemma SavedNumbers(emitted: seq<PlanPhase>, id: string, saved: seq<PlanPhase>)
    requires SavedAs(emitted, id, saved)
    ensures Numbers(saved) == Numbers(emitted)
    ensures |FlatSubs(saved)| <= HARD_SUBTASK_CAP
  {
    SameNumbers(emitted, saved);
  }

  /** An answer that leaves the old plan alone makes the plan cheaper. */
  lemma AnswerLightens(s: Sys, agentPlan: seq<Sub>)
    ensures Obeys(s.plan, agentPlan) && PlanOk(s.plan) && RequestPending(s) ==>
      PlanOk(AfterReplan(agentPlan, s.request)) && Measure(AfterReplan(agentPlan, s.request)) < Measure(s.plan)
  {
    if Obeys(s.plan, agentPlan) && PlanOk(s.plan) && RequestPending(s) {
      var k :| 0 <= k < |s.plan| && s.plan[k].status == Pending && s.plan[k].id == s.request;
      ReplanLightens(s.plan, agentPlan, k);
    }
  }
}
