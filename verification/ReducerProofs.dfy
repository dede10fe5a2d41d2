/** Exactly which events each reducer accepts, and exactly what it changes, said of the run's own fields. */
module ReducerProofs {
  import opened Prelude
  import opened Domain
  import opened WorkflowControl
  import opened ReceiptAuthority
  import opened AuthorityProofs
  import opened StateTransition
  import opened TransitionProofs
  import opened EvidenceProofs

  // ---------------------------------------------------------------------------
  // Owner commands
  // ---------------------------------------------------------------------------

  /** The statuses from which an owner's event is accepted. */
  ghost predicate OwnerMay(run: Run, m: Mutation) {
    var status := run.payload.status;
    match m
    case WorkflowControlled(Pause) => status == Active
    case WorkflowControlled(Resume) => status in {Paused, Stuck}
    case WorkflowControlled(Cancel) => status !in {Completed, Cancelled, Failed, Abandoned}
    case OwnerAdopted(_) => status in {Paused, Stuck, Blocked, NeedsUserDecision, ReviewBlocked}
    case PlanReconciled(_, _) => run.payload.StartWork? && status !in {Completed, Cancelled, Failed, Abandoned}
    case _ => false
  }

  /** The payload with another status. */
  ghost function InStatus(payload: Payload, status: Status): Payload {
    match payload
    case StartWork(_, plan) => StartWork(status, plan)
    case UlwLoop(_, annotation, activeGoalId, goals) => UlwLoop(status, annotation, activeGoalId, goals)
  }

  ghost predicate OwnerEvent(m: Mutation) { m.WorkflowControlled? || m.OwnerAdopted? || m.PlanReconciled? }

  /** No attempt counts against the run any more. */
  ghost predicate AttemptsForgotten(run: Run, next: Run) {
    next.continuation == Continuation(run.continuation.lastProcessedLeafId, run.progressRevision, 0, false)
  }

  /** What it leaves: the new status, one more revision, and only an adoption changes hands. */
  ghost predicate OwnerDid(run: Run, m: Mutation, next: Run) {
    && next.revision == run.revision + 1 && next.version == run.version && next.runId == run.runId
    && next.progressRevision == run.progressRevision && next.transactionRevision == run.transactionRevision
    && (match m
        case WorkflowControlled(Pause) => next.payload == InStatus(run.payload, Paused)
        case WorkflowControlled(Cancel) => next.payload == InStatus(run.payload, Cancelled)
        case PlanReconciled(taskIds, fingerprint) =>
          run.payload.StartWork? && next.payload == StartWork(Active, Plan(run.payload.plan.displayPath, fingerprint, taskIds))
        case _ => next.payload == InStatus(run.payload, Active))
    && next.owner == (if m.OwnerAdopted? then Owner(m.sessionId, run.owner.epoch + 1) else run.owner)
    && (if m.OwnerAdopted? || m == WorkflowControlled(Resume) then AttemptsForgotten(run, next)
        else next.continuation == run.continuation)
  }

  /** Pausing, resuming, cancelling, adopting and reconciling: accepted exactly from their statuses. */
  lemma OwnerEventIff(run: Run, event: Event, authority: Option<Authority>)
    requires RunDecodes(run) && OwnerEvent(event.mutation)
    ensures ControlRun(run, event, authority).Some? <==> OwnerMay(run, event.mutation)
    ensures OwnerMay(run, event.mutation) ==> OwnerDid(run, event.mutation, ControlRun(run, event, authority).value)
  {
  }

  // ---------------------------------------------------------------------------
  // Progress
  // ---------------------------------------------------------------------------

  /** A bound event that is not marked as converted from an unbound one. */
  ghost predicate Live(event: Event) { event.binding.Bound? && !event.binding.legacyHeadUnbound }

  ghost predicate Named(goals: seq<Goal>, goalId: string, criterionId: string, i: int, k: int) {
    && 0 <= i < |goals| && 0 <= k < |goals[i].criteria| && goals[i].id == goalId && goals[i].criteria[k].id == criterionId
  }

  /** Every goal but `goalId`, and in it every criterion but `criterionId`, is as before. */
  ghost predicate OnlyThatCriterion(goals: seq<Goal>, after: seq<Goal>, goalId: string, criterionId: string) {
    && |after| == |goals|
    && (forall i | 0 <= i < |goals| && goals[i].id != goalId :: after[i] == goals[i])
    && (forall i | 0 <= i < |goals| && goals[i].id == goalId ::
          && after[i] == goals[i].(criteria := after[i].criteria, status := after[i].status)
          && |after[i].criteria| == |goals[i].criteria|
          && forall k | 0 <= k < |goals[i].criteria| && goals[i].criteria[k].id != criterionId ::
               after[i].criteria[k] == goals[i].criteria[k])
  }

  lemma SettledGoalsExact(goals: seq<Goal>, m: Mutation)
    requires m.CriterionSettled?
    ensures var after := SettledGoals(goals, m);
            && OnlyThatCriterion(goals, after, m.goalId, m.criterionId)
            && (forall i, k | Named(goals, m.goalId, m.criterionId, i, k) :: PassedWith(goals[i].criteria[k], after[i].criteria[k], m))
            && (forall i | 0 <= i < |goals| && goals[i].id == m.goalId ::
                  after[i].status == if AllPass(after[i]) then GoalComplete else goals[i].status)
  {
    var after := SettledGoals(goals, m);
    forall i, k | Named(goals, m.goalId, m.criterionId, i, k) ensures PassedWith(goals[i].criteria[k], after[i].criteria[k], m) {
      assert after[i].criteria[k].id == goals[i].criteria[k].id;
    }
  }

  /** The criterion with the pass and its capture, and nothing else changed. */
  ghost predicate PassedWith(c: Criterion, after: Criterion, m: Mutation)
    requires m.CriterionSettled?
  {
    after == Criterion(c.id, c.text, CriterionPass, c.failureFingerprint, c.failureCount, Some(m.evidenceRef),
                       Some(m.captureRevision), Some(m.captureCommit))
  }

  /** A settlement is accepted exactly when it repeats the last acceptance that proves the criterion now,
      and the criterion is there and not passed. */
  ghost predicate MaySettle(run: Run, event: Event, authority: Authority) {
    var m := event.mutation;
    && m.CriterionSettled? && run.payload.UlwLoop? && Live(event)
    && (exists a :: LastProof(a, run, authority, m.criterionId)
                    && m.acceptanceId == Some(a.idempotencyKey) && event.binding.taskGeneration == Some(a.taskGeneration)
                    && m.captureRevision == a.runRevision && m.captureCommit == a.captureCommit)
    && exists g, c :: FindGoal(run.payload.goals, m.goalId) == Some(g) && FindCriterion(g.criteria, m.criterionId) == Some(c)
                      && !c.status.CriterionPass?
  }

  lemma LastProofUnique(a: Acceptance, b: Acceptance, run: Run, authority: Authority, taskId: string)
    requires LastProof(a, run, authority, taskId) && LastProof(b, run, authority, taskId)
    ensures a == b
  {
    var i :| 0 <= i < |authority.accepted| && authority.accepted[i] == a
             && forall j | i < j < |authority.accepted| ::
                  !ProvesNow(authority.accepted[j], run, authority.taskGeneration, taskId);
    var j :| 0 <= j < |authority.accepted| && authority.accepted[j] == b
             && forall k | j < k < |authority.accepted| ::
                  !ProvesNow(authority.accepted[k], run, authority.taskGeneration, taskId);
    assert i == j;
  }

  /** The current acceptance, if there is one, is the last proof. */
  lemma CurrentIsLastProof(run: Run, authority: Authority, taskId: string, a: Acceptance)
    ensures CurrentAcceptance(run, authority, taskId) == Some(a) <==> LastProof(a, run, authority, taskId)
  {
    CurrentAcceptanceIff(run, authority, taskId);
    if LastProof(a, run, authority, taskId) {
      var i :| 0 <= i < |authority.accepted| && authority.accepted[i] == a
               && ProvesNow(a, run, authority.taskGeneration, taskId);
      assert authority.accepted[i] in authority.accepted;
      LastProofUnique(a, CurrentAcceptance(run, authority, taskId).value, run, authority, taskId);
    }
  }

  lemma SettleIff(run: Run, event: Event, authority: Authority)
    requires event.mutation.CriterionSettled? && Live(event)
    ensures ControlRun(run, event, Some(authority)).Some? <==> MaySettle(run, event, authority)
    ensures ControlRun(run, event, Some(authority)).Some? ==>
              ControlRun(run, event, Some(authority)).value == SettledRun(run, event.mutation)
  {
    SettleReduces(run, event, Some(authority));
    if ControlRun(run, event, Some(authority)).Some? {
      SettleNeeds(run, event, authority);
    }
    if MaySettle(run, event, authority) {
      SettleSuffices(run, event, authority);
    }
  }

  lemma {:induction false} SettleReduces(run: Run, event: Event, authority: Option<Authority>)
    requires event.mutation.CriterionSettled?
    ensures ControlRun(run, event, authority) == SettleCriterion(run, event, authority)
  {
    var settled := SettleCriterion(run, event, authority);
    match event.mutation
    case CriterionSettled(_, _, _, _, _, _) => assert ControlRun(run, event, authority) == settled;
  }

  lemma SettleNeeds(run: Run, event: Event, authority: Authority)
    requires event.mutation.CriterionSettled? && Live(event) && SettleCriterion(run, event, Some(authority)).Some?
    ensures MaySettle(run, event, authority)
    ensures SettleCriterion(run, event, Some(authority)).value == SettledRun(run, event.mutation)
  {
    var a := CurrentAcceptance(run, authority, event.mutation.criterionId).value;
    CurrentIsLastProof(run, authority, event.mutation.criterionId, a);
  }

  lemma SettleSuffices(run: Run, event: Event, authority: Authority)
    requires MaySettle(run, event, authority)
    ensures SettleCriterion(run, event, Some(authority)).Some?
  {
    var m := event.mutation;
    var a :| LastProof(a, run, authority, m.criterionId)
             && m.acceptanceId == Some(a.idempotencyKey) && event.binding.taskGeneration == Some(a.taskGeneration)
             && m.captureRevision == a.runRevision && m.captureCommit == a.captureCommit;
    CurrentIsLastProof(run, authority, m.criterionId, a);
  }

  /** Without an authority, unbound, or on another workflow nothing is settled. */
  lemma SettleRefused(run: Run, event: Event, authority: Option<Authority>)
    requires event.mutation.CriterionSettled?
    requires event.binding.Unbound? || (Live(event) && authority.None?) || !run.payload.UlwLoop?
    ensures ControlRun(run, event, authority).None?
  {
  }

  lemma SettledRunExact(run: Run, m: Mutation)
    requires run.payload.UlwLoop? && m.CriterionSettled?
    ensures var next := SettledRun(run, m);
            && next.revision == run.revision + 1 && next.progressRevision == run.progressRevision + 1
            && next.owner == run.owner && next.continuation == run.continuation && next.version == run.version
            && next.payload.UlwLoop? && next.payload.goals == SettledGoals(run.payload.goals, m)
            && next.payload.annotation == run.payload.annotation
            && (if forall g | g in next.payload.goals :: forall c | c in g.criteria :: c.status == CriterionPass
                then next.payload.status == Completed && next.payload.activeGoalId == None
                else next.payload.status == run.payload.status && next.payload.activeGoalId == run.payload.activeGoalId)
  {
  }

  /** Task evidence is accepted exactly when it names the last acceptance that proves the task now. */
  lemma TaskEvidenceIff(run: Run, event: Event, authority: Authority)
    requires event.mutation.TaskEvidenceAccepted?
    ensures ControlRun(run, event, Some(authority)).Some? <==>
            && run.payload.StartWork? && Live(event)
            && exists a :: LastProof(a, run, authority, event.mutation.taskId)
                           && a.idempotencyKey == event.mutation.acceptanceKey
                           && event.binding.taskGeneration == Some(a.taskGeneration)
    ensures ControlRun(run, event, Some(authority)).Some? ==>
              ControlRun(run, event, Some(authority)).value ==
              run.(revision := run.revision + 1, progressRevision := run.progressRevision + 1)
    ensures ControlRun(run, event, None).None?
  {
    var taskId := event.mutation.taskId;
    var found := CurrentAcceptance(run, authority, taskId);
    if found.Some? {
      CurrentIsLastProof(run, authority, taskId, found.value);
    }
    if exists a :: LastProof(a, run, authority, taskId) && a.idempotencyKey == event.mutation.acceptanceKey {
      var a :| LastProof(a, run, authority, taskId) && a.idempotencyKey == event.mutation.acceptanceKey;
      CurrentIsLastProof(run, authority, taskId, a);
    }
  }

  /** A run fails exactly when the named task is the last one exhausted in the event's generation. */
  lemma FailedRunIff(run: Run, event: Event, authority: Authority)
    requires event.mutation.WorkflowTerminal? && event.mutation.status.TerminalFailed?
    ensures ControlRun(run, event, Some(authority)).Some? <==>
            && Live(event) && event.binding.taskGeneration == Some(authority.taskGeneration)
            && event.mutation.failedTaskId.Some?
            && exists r :: LastExhausted(r, run, authority) && r.taskId == event.mutation.failedTaskId.value
    ensures ControlRun(run, event, Some(authority)).Some? ==>
              ControlRun(run, event, Some(authority)).value ==
              run.(revision := run.revision + 1, payload := InStatus(run.payload, Failed))
    ensures ControlRun(run, event, None).None?
  {
    ExhaustedIsLast(run, authority);
    assert ControlRun(run, event, Some(authority)) == TerminalRun(run, event, Some(authority));
  }

  lemma ExhaustedIsLast(run: Run, authority: Authority)
    ensures forall t :: ExhaustedTaskId(run, authority) == Some(t) <==> exists r :: LastExhausted(r, run, authority) && r.taskId == t
  {
    ExhaustedTaskIff(run, authority);
    forall r | LastExhausted(r, run, authority) ensures ExhaustedTaskId(run, authority) == Some(r.taskId) {
      LastExhaustedFound(r, run, authority);
    }
  }

  lemma LastExhaustedFound(r: Rejection, run: Run, authority: Authority)
    requires LastExhausted(r, run, authority)
    ensures ExhaustedTaskId(run, authority) == Some(r.taskId)
  {
    ExhaustedTaskIff(run, authority);
    var i :| 0 <= i < |authority.rejected| && authority.rejected[i] == r && Exhausts(r, run, authority)
             && forall j | i < j < |authority.rejected| :: !Exhausts(authority.rejected[j], run, authority);
    assert r in authority.rejected;
    var t := ExhaustedTaskId(run, authority).value;
    var q :| LastExhausted(q, run, authority) && q.taskId == t;
    var j :| 0 <= j < |authority.rejected| && authority.rejected[j] == q && Exhausts(q, run, authority)
             && forall k | j < k < |authority.rejected| :: !Exhausts(authority.rejected[k], run, authority);
    assert i == j;
  }

  /** A plan is completed exactly when it is proved and the event names the proofs. */
  lemma CompletedRunIff(run: Run, event: Event, authority: Authority)
    requires event.mutation.WorkflowTerminal? && event.mutation.status.TerminalCompleted?
    ensures ControlRun(run, event, Some(authority)).Some? <==>
            && Live(event) && event.binding.taskGeneration == Some(authority.taskGeneration)
            && run.payload.StartWork? && PlanProved(run, authority)
            && event.mutation.acceptanceIds == StartCompletionAcceptanceIds(run, authority)
    ensures ControlRun(run, event, Some(authority)).Some? ==>
              ControlRun(run, event, Some(authority)).value ==
              run.(revision := run.revision + 1, progressRevision := run.progressRevision + 1,
                   payload := InStatus(run.payload, Completed))
    ensures ControlRun(run, event, None).None?
  {
    if run.payload.StartWork? {
      CompletionIdsIff(run, authority);
    }
  }

  // ---------------------------------------------------------------------------
  // Continuation
  // ---------------------------------------------------------------------------

  /** An attempt is accepted once per leaf and only for the progress it saw; it counts. */
  lemma AttemptIff(run: Run, event: Event, authority: Option<Authority>)
    requires event.mutation.ContinuationAttempted?
    ensures var m := event.mutation;
            && (ControlRun(run, event, authority).Some? <==>
                  run.continuation.lastProcessedLeafId != Some(m.leafId) && m.progressRevision == run.progressRevision)
            && (ControlRun(run, event, authority).Some? ==>
                  ControlRun(run, event, authority).value ==
                  run.(revision := run.revision + 1,
                       continuation := Continuation(
                         Some(m.leafId), run.progressRevision,
                         if run.continuation.progressRevisionSeen == run.progressRevision
                         then run.continuation.noProgressAttempts + 1 else 1,
                         false)))
  {
  }

  /** A stuck report is accepted once per leaf, after two attempts without progress, and stops the run. */
  lemma StuckIff(run: Run, event: Event, authority: Option<Authority>)
    requires event.mutation.ContinuationStuck?
    ensures var m, c := event.mutation, run.continuation;
            && (ControlRun(run, event, authority).Some? <==>
                  && c.lastProcessedLeafId != Some(m.leafId)
                  && c.progressRevisionSeen == run.progressRevision && c.noProgressAttempts >= 2)
            && (ControlRun(run, event, authority).Some? ==>
                  ControlRun(run, event, authority).value ==
                  run.(revision := run.revision + 1, payload := InStatus(run.payload, Stuck),
                       continuation := c.(lastProcessedLeafId := Some(m.leafId), stuck := true)))
  {
  }

  // ---------------------------------------------------------------------------
  // Goals
  // ---------------------------------------------------------------------------

  /** A cycle starts exactly on a goal that is there and has fewer than five; only its count changes. */
  lemma CycleIff(run: Run, event: Event, authority: Option<Authority>)
    requires event.mutation.GoalCycleStarted? && !(event.binding.Bound? && event.binding.legacyHeadUnbound)
    ensures var goalId := event.mutation.goalId;
            ControlRun(run, event, authority).Some? <==>
            run.payload.UlwLoop? && exists g :: FindGoal(run.payload.goals, goalId) == Some(g) && g.cycleCount < 5
    ensures ControlRun(run, event, authority).Some? ==>
              var next, goals := ControlRun(run, event, authority).value, run.payload.goals;
              && next == run.(revision := run.revision + 1, payload := run.payload.(goals := next.payload.goals))
              && |next.payload.goals| == |goals|
              && forall i | 0 <= i < |goals| ::
                   next.payload.goals[i] ==
                   if goals[i].id == event.mutation.goalId then goals[i].(cycleCount := goals[i].cycleCount + 1) else goals[i]
  {
  }

  /** A failure is recorded unless it would be the fourth with the same fingerprint; it marks the criterion,
      and counts on from the same fingerprint or starts again. */
  lemma FailureIff(run: Run, event: Event, authority: Option<Authority>)
    requires event.mutation.CriterionFailureRecorded? && !(event.binding.Bound? && event.binding.legacyHeadUnbound)
    ensures var m := event.mutation;
            ControlRun(run, event, authority).Some? <==>
            && run.payload.UlwLoop?
            && exists g, c :: FindGoal(run.payload.goals, m.goalId) == Some(g) && FindCriterion(g.criteria, m.criterionId) == Some(c)
                              && !(c.failureFingerprint == Some(m.fingerprint) && c.failureCount >= 3)
  {
  }

  lemma FailureExact(run: Run, m: Mutation, i: int, k: int)
    requires RunDecodes(run) && run.payload.UlwLoop? && m.CriterionFailureRecorded?
    requires Named(run.payload.goals, m.goalId, m.criterionId, i, k)
    requires RecordCriterionFailure(run, m.goalId, m.criterionId, m.fingerprint).Some?
    ensures var next := RecordCriterionFailure(run, m.goalId, m.criterionId, m.fingerprint).value;
            && next == run.(revision := run.revision + 1, payload := run.payload.(goals := next.payload.goals))
            && OnlyThatCriterion(run.payload.goals, next.payload.goals, m.goalId, m.criterionId)
            && next.payload.goals[i].status == run.payload.goals[i].status
            && FailedWith(run.payload.goals[i].criteria[k], next.payload.goals[i].criteria[k], m)
  {
    var goals := run.payload.goals;
    var goal, c := goals[i], goals[i].criteria[k];
    assert goal in goals && c in goal.criteria;
    GoalIdsDistinct(goals);
    FoundGoalUnique(goals, m.goalId, goal);
    CriteriaDistinctInGoal(goals, goal);
    FoundCriterionUnique(goal.criteria, m.criterionId, c);
    var repeated := c.failureFingerprint == Some(m.fingerprint);
    var after := RecordCriterionFailure(run, m.goalId, m.criterionId, m.fingerprint).value.payload.goals;
    ReplacedCriteria(goals, i, FailCriteria(goal.criteria, m.criterionId, m.fingerprint, repeated), after);
  }

  /** Replacing the criteria under a goal's id replaces them in that goal alone. */
  lemma ReplacedCriteria(goals: seq<Goal>, i: int, criteria: seq<Criterion>, after: seq<Goal>)
    requires DistinctGoals(goals) && 0 <= i < |goals|
    requires after == MapGoal(goals, goals[i].id, (g: Goal) => g.(criteria := criteria))
    ensures |after| == |goals| && after[i] == goals[i].(criteria := criteria)
    ensures forall j | 0 <= j < |goals| && j != i :: after[j] == goals[j] && goals[j].id != goals[i].id
  {
  }

  /** The criterion marked failed; a repeated fingerprint counts on, a new one starts at one. */
  ghost predicate FailedWith(c: Criterion, after: Criterion, m: Mutation)
    requires m.CriterionFailureRecorded?
  {
    after == Criterion(c.id, c.text, CriterionFail, Some(m.fingerprint),
                       if c.failureFingerprint == Some(m.fingerprint) then c.failureCount + 1 else 1,
                       c.evidenceRef, c.captureRevision, c.captureCommit)
  }

  /** Steering is accepted exactly on a loop with an active goal, for ids it does not have yet. */
  lemma SteerIff(run: Run, event: Event, authority: Option<Authority>)
    requires event.mutation.WorkflowSteered?
    ensures ControlRun(run, event, authority).Some? <==>
            && run.payload.UlwLoop? && run.payload.activeGoalId.Some?
            && forall n | n in event.mutation.criteria :: n.id !in CriterionIds(run.payload.goals)
    ensures ControlRun(run, event, authority).Some? ==>
              var next, m, goals := ControlRun(run, event, authority).value, event.mutation, run.payload.goals;
              && next == run.(revision := run.revision + 1,
                              payload := run.payload.(goals := next.payload.goals, annotation := next.payload.annotation))
              && next.payload.annotation == (if m.annotation.Some? then m.annotation else run.payload.annotation)
              && |next.payload.goals| == |goals|
              && forall i | 0 <= i < |goals| ::
                   if Some(goals[i].id) == run.payload.activeGoalId
                   then Appended(goals[i], next.payload.goals[i], m.criteria) else next.payload.goals[i] == goals[i]
  {
  }

  /** The goal with the new criteria after its own, all of them open and untried. */
  ghost predicate Appended(goal: Goal, after: Goal, added: seq<NewCriterion>) {
    && after == goal.(criteria := after.criteria) && |after.criteria| == |goal.criteria| + |added|
    && (forall k | 0 <= k < |goal.criteria| :: after.criteria[k] == goal.criteria[k])
    && forall k | 0 <= k < |added| ::
         after.criteria[|goal.criteria| + k] ==
         Criterion(added[k].id, Some(added[k].text), CriterionPending, None, 0, None, None, None)
  }

  // ---------------------------------------------------------------------------
  // Whole histories
  // ---------------------------------------------------------------------------

  /** An event converted from an unbound one, which the loop's reducers accept without effect. */
  ghost predicate Inert(run: Run, event: Event) {
    && event.binding.Bound? && event.binding.legacyHeadUnbound
    && (event.mutation.GoalCycleStarted? || event.mutation.CriterionFailureRecorded?
        || (event.mutation.CriterionSettled? && run.payload.UlwLoop?))
  }

  /** The events that count as progress. */
  ghost predicate MakesProgress(m: Mutation) {
    m.CriterionSettled? || m.TaskEvidenceAccepted? || (m.WorkflowTerminal? && m.status.TerminalCompleted?)
  }

  /** What one accepted event does to the counters and the owner. */
  ghost predicate Counted(run: Run, event: Event, next: Run) {
    if Inert(run, event) then next == run
    else
      && next.revision == run.revision + 1
      && next.progressRevision == run.progressRevision + (if MakesProgress(event.mutation) then 1 else 0)
      && next.owner == (if event.mutation.OwnerAdopted? then Owner(event.mutation.sessionId, run.owner.epoch + 1) else run.owner)
      && next.payload.StartWork? == run.payload.StartWork?
  }

  lemma StepCounts(run: Run, event: Event, authority: Option<Authority>)
    requires ControlRun(run, event, authority).Some?
    ensures Counted(run, event, ControlRun(run, event, authority).value)
  {
  }

  ghost function Adoptions(moves: seq<Move>): nat {
    if moves == [] then 0
    else Adoptions(moves[..|moves| - 1]) + if moves[|moves| - 1].event.mutation.OwnerAdopted? then 1 else 0
  }

  /** The session of the last adoption, or the first owner's. */
  ghost function Holder(first: string, moves: seq<Move>): string {
    if moves == [] then first
    else
      match moves[|moves| - 1].event.mutation
      case OwnerAdopted(sessionId) => sessionId
      case _ => Holder(first, moves[..|moves| - 1])
  }

  /** Over every accepted history the owner's epoch counts the adoptions and its session is the last
      adopter's. */
  lemma {:induction false} EpochCountsAdoptions(run: Run, moves: seq<Move>)
    requires Play(run, moves).Some?
    ensures Play(run, moves).value.owner == Owner(Holder(run.owner.sessionId, moves), run.owner.epoch + Adoptions(moves))
  {
    if moves != [] {
      EpochCountsAdoptions(run, moves[..|moves| - 1]);
      var last := moves[|moves| - 1];
      StepCounts(Play(run, moves[..|moves| - 1]).value, last.event, last.authority);
    }
  }

  /** So no two ownerships of a run share an epoch: a receipt of one is never a receipt of another. */
  lemma OwnershipsDiffer(run: Run, moves: seq<Move>, k: nat)
    requires k <= |moves| && Play(run, moves).Some? && Play(run, moves[..k]).Some?
    ensures Play(run, moves[..k]).value.owner.epoch <= Play(run, moves).value.owner.epoch
    ensures Play(run, moves[..k]).value.owner.epoch == Play(run, moves).value.owner.epoch <==>
            forall i | k <= i < |moves| :: !moves[i].event.mutation.OwnerAdopted?
  {
    EpochCountsAdoptions(run, moves);
    EpochCountsAdoptions(run, moves[..k]);
    AdoptionsSince(moves, k);
  }

  lemma {:induction false} AdoptionsSince(moves: seq<Move>, k: nat)
    requires k <= |moves|
    ensures Adoptions(moves[..k]) <= Adoptions(moves)
    ensures Adoptions(moves[..k]) == Adoptions(moves) <==> forall i | k <= i < |moves| :: !moves[i].event.mutation.OwnerAdopted?
  {
    if k < |moves| {
      var before := moves[..|moves| - 1];
      AdoptionsSince(before, k);
      assert before[..k] == moves[..k];
      assert forall i | k <= i < |before| :: before[i] == moves[i];
    } else {
      assert moves[..k] == moves;
    }
  }

  /** A leaf is answered once: after an attempt or a stuck report on it, neither is accepted for it again
      before another leaf was answered. */
  lemma LeafAnsweredOnce(run: Run, event: Event, again: Event, authority: Option<Authority>)
    requires event.mutation.ContinuationAttempted? || event.mutation.ContinuationStuck?
    requires again.mutation.ContinuationAttempted? || again.mutation.ContinuationStuck?
    requires again.mutation.leafId == event.mutation.leafId && ControlRun(run, event, authority).Some?
    ensures ControlRun(ControlRun(run, event, authority).value, again, authority).None?
  {
  }

  // ---------------------------------------------------------------------------
  // Whole transitions
  // ---------------------------------------------------------------------------

  /** The mutations that belong to a task generation. */
  ghost predicate OfAGeneration(m: Mutation) {
    match m
    case PlanReconciled(_, _) | WorkflowSteered(_, _) | CriterionSettled(_, _, _, _, _, _) => true
    case TaskEvidenceAccepted(_, _) | WorkflowTerminal(_, _, _) | GoalCycleStarted(_) => true
    case CriterionFailureRecorded(_, _, _) => true
    case _ => false
  }

  /** The event was built on the run as it is stored: its revision, its owner and epoch and, when bound,
      its head if it names one, and a generation exactly if the mutation belongs to one. */
  ghost predicate BuiltOn(current: Run, event: Event) {
    && event.expected.runRevision == Some(current.revision)
    && event.expected.ownerSessionId == Some(current.owner.sessionId)
    && event.expected.ownerEpoch == Some(current.owner.epoch)
    && (event.binding.Bound? ==>
          && (event.binding.expectedHead.Some? ==>
                current.version.V2? && current.version.expectedHead == event.binding.expectedHead)
          && (event.binding.taskGeneration.Some? <==> OfAGeneration(event.mutation)))
  }

  lemma ChecksPassIff(current: Run, event: Event)
    ensures CheckExpected(current, event).None? <==> BuiltOn(current, event)
  {
  }

  /** Which refusal a version 2 event gets for a stale index, run, owner or epoch. */
  lemma StaleEventsRefused(index: Index, current: Run, event: Event, authority: Option<Authority>)
    requires event.binding.Bound? && !event.mutation.RunCreated?
    requires event.sequence == event.expected.indexRevision + 1
    requires event.expected != Expected(index.revision, Some(current.revision), Some(current.owner.sessionId), Some(current.owner.epoch))
    ensures PrepareTransition(index, Some(current), event, authority) ==
            Refused(if event.expected.indexRevision != index.revision || event.expected.runRevision != Some(current.revision)
                    then StaleRevision
                    else if event.expected.ownerSessionId != Some(current.owner.sessionId) then OwnerMismatch
                    else OwnerEpochMismatch)
  {
  }

  /** A transition on a stored run is accepted exactly when the event follows the index, was built on the
      run, names it, and its reducer accepts it. */
  lemma TransitionIff(index: Index, current: Run, event: Event, authority: Option<Authority>)
    requires RunDecodes(current) && !event.mutation.RunCreated?
    ensures PrepareTransition(index, Some(current), event, authority).Prepared? <==>
            && event.expected.indexRevision == index.revision && event.sequence == index.revision + 1
            && BuiltOn(current, event) && event.runId == current.runId && event.workflow == current.Workflow()
            && ControlRun(current, event, authority).Some?
  {
    ChecksPassIff(current, event);
    if ControlRun(current, event, authority).Some? {
      StatusAfter(current, event, authority);
    }
  }

  /** A creation is accepted exactly when it follows the index, expects nothing, and no run has its id; the
      run is published as it came. */
  lemma CreationIff(index: Index, current: Option<Run>, event: Event, authority: Option<Authority>)
    requires event.mutation.RunCreated?
    ensures PrepareTransition(index, current, event, authority).Prepared? <==>
            && event.expected == Expected(index.revision, None, None, None) && event.sequence == index.revision + 1
            && current.None? && event.mutation.run.runId == event.runId && event.mutation.run.Workflow() == event.workflow
    ensures PrepareTransition(index, current, event, authority).Prepared? ==>
              PrepareTransition(index, current, event, authority).run == event.mutation.run.(transactionRevision := event.sequence)
  {
  }

  /** An index stays of its version. */
  lemma IndexKeepsVersion(index: Index, current: Option<Run>, event: Event, authority: Option<Authority>)
    requires PrepareTransition(index, current, event, authority).Prepared?
    ensures PrepareTransition(index, current, event, authority).index.migrationRevision == index.migrationRevision
  {
  }

  /** What the store keeps of a submitted event: all of it, except that on a migrated index a version 1 event
      becomes bound to no head, to generation 1 where its kind needs one and it is not a steering event, and
      a run it creates becomes version 2. */
  lemma StoredEvent(index: Index, event: Event)
    ensures var stored := PersistedEventForIndex(index, event);
            && stored == event.(binding := stored.binding, mutation := stored.mutation)
            && (index.migrationRevision.None? || event.binding.Bound? ==> stored == event)
            && (index.migrationRevision.Some? && event.binding.Unbound? ==>
                  && stored.binding == Bound(None, if OfAGeneration(event.mutation) && !event.mutation.WorkflowSteered?
                                                   then Some(1) else None, false)
                  && (!event.mutation.RunCreated? ==> stored.mutation == event.mutation)
                  && (event.mutation.RunCreated? ==>
                        stored.mutation == RunCreated(
                          if event.mutation.run.version.V1? then event.mutation.run.(version := V2(None, None))
                          else event.mutation.run)))
  {
  }
}
