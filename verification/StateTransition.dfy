/** The pure reducers: one event against one run and the active index. */
module StateTransition {
  import opened Prelude
  import opened Domain
  import opened WorkflowControl
  import opened ReceiptAuthority

  // ---------------------------------------------------------------------------
  // Runtime progress
  // ---------------------------------------------------------------------------

  /** A goal after one of its criteria passed: complete once all of them have. */
  function SettleGoal(goal: Goal, m: Mutation): Goal
    requires m.CriterionSettled?
  {
    var criteria := Map(goal.criteria, (c: Criterion) =>
                          if c.id == m.criterionId
                          then c.(status := CriterionPass,
                                  evidenceRef := Some(m.evidenceRef),
                                  captureRevision := Some(m.captureRevision),
                                  captureCommit := Some(m.captureCommit))
                          else c);
    var settled := goal.(criteria := criteria);
    if AllPass(settled) then settled.(status := GoalComplete) else settled
  }

  function SettledGoals(goals: seq<Goal>, m: Mutation): seq<Goal>
    requires m.CriterionSettled?
  {
    MapGoal(goals, m.goalId, (g: Goal) => SettleGoal(g, m))
  }

  /** The run with the criterion passed: completed, with no active goal, once every criterion has. */
  function SettledRun(run: Run, m: Mutation): Run
    requires run.payload.UlwLoop? && m.CriterionSettled?
  {
    var goals := SettledGoals(run.payload.goals, m);
    var completed := forall g | g in goals :: AllPass(g);
    run.(revision := run.revision + 1,
         progressRevision := run.progressRevision + 1,
         payload := run.payload.(
         goals := goals,
         activeGoalId := if completed then None else run.payload.activeGoalId,
         status := if completed then Completed else run.payload.status))
  }

  function SettleCriterion(run: Run, event: Event, authority: Option<Authority>): Option<Run>
    requires event.mutation.CriterionSettled?
  {
    var m := event.mutation;
    if !run.payload.UlwLoop? then None
    else if event.binding.Bound? && event.binding.legacyHeadUnbound then Some(run)
    else if event.binding.Unbound? || authority.None? then None
    else
      match CurrentAcceptance(run, authority.value, m.criterionId)
      case None => None
      case Some(accepted) =>
        if || m.acceptanceId != Some(accepted.idempotencyKey)
           || Some(accepted.taskGeneration) != event.binding.taskGeneration
           || accepted.runRevision != m.captureRevision
           || accepted.captureCommit != m.captureCommit then None
        else
          match FindGoal(run.payload.goals, m.goalId)
          case None => None
          case Some(goal) =>
            match FindCriterion(goal.criteria, m.criterionId)
            case None => None
            case Some(criterion) =>
              if criterion.status.CriterionPass? then None
              else Some(SettledRun(run, m))
  }

  function AcceptTaskEvidence(run: Run, event: Event, authority: Option<Authority>): Option<Run>
    requires event.mutation.TaskEvidenceAccepted?
  {
    if !run.payload.StartWork? then None
    else if event.binding.Unbound? || event.binding.legacyHeadUnbound || authority.None? then None
    else
      match CurrentAcceptance(run, authority.value, event.mutation.taskId)
      case None => None
      case Some(accepted) =>
        if || accepted.idempotencyKey != event.mutation.acceptanceKey
           || Some(accepted.taskGeneration) != event.binding.taskGeneration then None
        else Some(run.(revision := run.revision + 1, progressRevision := run.progressRevision + 1))
  }

  function TerminalRun(run: Run, event: Event, authority: Option<Authority>): Option<Run>
    requires event.mutation.WorkflowTerminal?
  {
    var m := event.mutation;
    if event.binding.Unbound? || event.binding.legacyHeadUnbound || authority.None? then None
    else if event.binding.taskGeneration != Some(authority.value.taskGeneration) then None
    else if m.status.TerminalFailed? then
      if m.failedTaskId.None? || ExhaustedTaskId(run, authority.value) != m.failedTaskId then None
      else Some(WithStatus(run, Failed))
    else if !run.payload.StartWork? then None
    else
      var ids := StartCompletionAcceptanceIds(run, authority.value);
      if ids.None? || m.acceptanceIds.None? || ids != m.acceptanceIds then None
      else Some(WithStatus(run, Completed).(progressRevision := run.progressRevision + 1))
  }

  function AttemptContinuation(run: Run, m: Mutation): Option<Run>
    requires m.ContinuationAttempted?
  {
    if run.continuation.lastProcessedLeafId == Some(m.leafId) || m.progressRevision != run.progressRevision then None
    else
      var progressChanged := run.continuation.progressRevisionSeen != run.progressRevision;
      Some(run.(revision := run.revision + 1,
                continuation := Continuation(
                  Some(m.leafId), run.progressRevision,
                  if progressChanged then 1 else run.continuation.noProgressAttempts + 1, false)))
  }

  function StopContinuation(run: Run, m: Mutation): Option<Run>
    requires m.ContinuationStuck?
  {
    if || run.continuation.lastProcessedLeafId == Some(m.leafId)
       || run.continuation.progressRevisionSeen != run.progressRevision
       || run.continuation.noProgressAttempts < 2 then None
    else
      var stopped := WithStatus(run, Stuck);
      Some(stopped.(continuation := stopped.continuation.(lastProcessedLeafId := Some(m.leafId), stuck := true)))
  }

  // ---------------------------------------------------------------------------
  // One event against one run
  // ---------------------------------------------------------------------------

  function SteeredCriterion(n: NewCriterion): Criterion {
    Criterion(n.id, Some(n.text), CriterionPending, None, 0, None, None, None)
  }

  function SteeredGoals(goals: seq<Goal>, active: string, m: Mutation): seq<Goal>
    requires m.WorkflowSteered?
  {
    var added := Map(m.criteria, SteeredCriterion);
    MapGoal(goals, active, (g: Goal) => g.(criteria := g.criteria + added))
  }

  function Steer(run: Run, m: Mutation): Option<Run>
    requires m.WorkflowSteered?
  {
    if !run.payload.UlwLoop? || run.payload.activeGoalId.None? then None
    else if exists n | n in m.criteria :: n.id in CriterionIds(run.payload.goals) then None
    else
      var goals := SteeredGoals(run.payload.goals, run.payload.activeGoalId.value, m);
      var annotation := if m.annotation.None? then run.payload.annotation else m.annotation;
      Some(WithGoals(run, goals).(payload := run.payload.(goals := goals, annotation := annotation)))
  }

  function ControlRun(run: Run, event: Event, authority: Option<Authority>): Option<Run> {
    var m := event.mutation;
    if && event.binding.Bound? && event.binding.legacyHeadUnbound
       && (m.GoalCycleStarted? || m.CriterionFailureRecorded?) then Some(run)
    else
      match m
      case RunCreated(_) => None
      case WorkflowControlled(control) =>
        ReduceWorkflowControl(run, match control
                                   case Pause => PauseRun(run.owner.sessionId, run.owner.epoch)
                                   case Resume => ResumeRun(run.owner.sessionId, run.owner.epoch)
                                   case Cancel => CancelRun(run.owner.sessionId, run.owner.epoch))
      case OwnerAdopted(sessionId) => ReduceWorkflowControl(run, AdoptRun(sessionId, run.owner.epoch))
      case PlanReconciled(taskIds, fingerprint) =>
        if !run.payload.StartWork? then None
        else ReduceWorkflowControl(run, ReconcilePlan(run.owner.sessionId, run.owner.epoch, taskIds, fingerprint))
      case WorkflowSteered(_, _) => Steer(run, m)
      case CriterionSettled(_, _, _, _, _, _) => SettleCriterion(run, event, authority)
      case TaskEvidenceAccepted(_, _) => AcceptTaskEvidence(run, event, authority)
      case WorkflowTerminal(_, _, _) => TerminalRun(run, event, authority)
      case ContinuationAttempted(_, _) => AttemptContinuation(run, m)
      case ContinuationStuck(_) => StopContinuation(run, m)
      case GoalCycleStarted(goalId) =>
        if !run.payload.UlwLoop? then None else StartGoalCycle(run, goalId)
      case CriterionFailureRecorded(goalId, criterionId, fingerprint) =>
        if !run.payload.UlwLoop? then None
        else RecordCriterionFailure(run, goalId, criterionId, fingerprint)
  }

  // ---------------------------------------------------------------------------
  // Index derivation and the transition as a whole
  // ---------------------------------------------------------------------------

  function EntryFor(run: Run, hint: Hint, sequence: nat): IndexEntry {
    IndexEntry(run.Workflow(), run.owner.sessionId, run.runId, run.owner.epoch, run.revision, sequence, hint)
  }

  /** The entries of every other run. */
  function Retained(entries: seq<IndexEntry>, runId: string): seq<IndexEntry> {
    Filter(entries, (e: IndexEntry) => e.runId != runId)
  }

  function DeriveIndex(index: Index, run: Run, sequence: nat): Index {
    var retained := Retained(index.entries, run.runId);
    var entries := match StatusHint(run)
      case None => retained
      case Some(hint) => retained + [EntryFor(run, hint, sequence)];
    Index(index.migrationRevision, sequence, entries)
  }

  datatype TransitionError =
    | IndexRevisionConflict | RunRevisionConflict | OwnerConflict | EpochConflict
    | StaleRevision | OwnerMismatch | OwnerEpochMismatch | StaleHead
    | TaskScopeMismatch | InvalidMutation

  datatype Transition = Prepared(run: Run, index: Index) | Refused(error: TransitionError)

  /** The compare-and-swap checks on an existing run, in the order the program makes them. */
  function CheckExpected(current: Run, event: Event): Option<TransitionError> {
    var v2 := event.binding.Bound?;
    if Some(current.revision) != event.expected.runRevision then
      Some(if v2 then StaleRevision else RunRevisionConflict)
    else if Some(current.owner.sessionId) != event.expected.ownerSessionId then
      Some(if v2 then OwnerMismatch else OwnerConflict)
    else if Some(current.owner.epoch) != event.expected.ownerEpoch then
      Some(if v2 then OwnerEpochMismatch else EpochConflict)
    else if !v2 then None
    else if && event.binding.expectedHead.Some?
            && (current.version.V1? || current.version.expectedHead != event.binding.expectedHead) then
      Some(StaleHead)
    else if TaskScoped(event.mutation) != event.binding.taskGeneration.Some? then Some(TaskScopeMismatch)
    else None
  }

  function NextRun(current: Option<Run>, event: Event, authority: Option<Authority>): Option<Run> {
    if event.mutation.RunCreated? then Some(event.mutation.run)
    else if current.None? then None
    else ControlRun(current.value, event, authority)
  }

  function PrepareTransition(index: Index, current: Option<Run>, event: Event, authority: Option<Authority>): Transition {
    if event.expected.indexRevision != index.revision then
      Refused(if event.binding.Bound? then StaleRevision else IndexRevisionConflict)
    else if event.sequence != index.revision + 1 then Refused(InvalidMutation)
    else if event.mutation.RunCreated? && (current.Some? || event.expected.runRevision.Some?) then
      Refused(RunRevisionConflict)
    else if && event.mutation.RunCreated?
            && (event.expected.ownerSessionId.Some? || event.expected.ownerEpoch.Some?) then
      Refused(OwnerConflict)
    else if !event.mutation.RunCreated? && current.None? then Refused(RunRevisionConflict)
    else if !event.mutation.RunCreated? && CheckExpected(current.value, event).Some? then
      Refused(CheckExpected(current.value, event).value)
    else
      match NextRun(current, event, authority)
      case None => Refused(InvalidMutation)
      case Some(next) =>
        if next.runId != event.runId || next.Workflow() != event.workflow then Refused(InvalidMutation)
        else
          var published := next.(transactionRevision := event.sequence);
          Prepared(published, DeriveIndex(index, published, event.sequence))
  }

  /** A version 1 event submitted to a migrated (version 2) index is rewritten before it is stored. */
  function PersistedEventForIndex(index: Index, event: Event): Event {
    if index.migrationRevision.None? || event.binding.Bound? then event
    else
      var m := event.mutation;
      var mutation :=
        if m.RunCreated? && m.run.version.V1? then RunCreated(m.run.(version := V2(None, None))) else m;
      var generation := if TaskScoped(m) && !m.WorkflowSteered? then Some(1) else None;
      event.(mutation := mutation, binding := Bound(None, generation, false))
  }
}
