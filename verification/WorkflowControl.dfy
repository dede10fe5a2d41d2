/** Owner commands on a run, and the goal-cycle rules of the ULW loop. */
module WorkflowControl {
  import opened Prelude
  import opened Domain

  datatype Command =
    | PauseRun(sessionId: string, expectedEpoch: nat)
    | ResumeRun(sessionId: string, expectedEpoch: nat)
    | CancelRun(sessionId: string, expectedEpoch: nat)
    | AdoptRun(sessionId: string, expectedEpoch: nat)
    | ReconcilePlan(sessionId: string, expectedEpoch: nat, taskIds: seq<string>, fingerprint: string)

  predicate Terminal(run: Run) {
    || run.payload.status.Completed? || run.payload.status.Cancelled? || run.payload.status.Failed?
    || (run.payload.StartWork? && run.payload.status.Abandoned?)
  }

  function ResetContinuation(run: Run): Continuation {
    run.continuation.(noProgressAttempts := 0, progressRevisionSeen := run.progressRevision, stuck := false)
  }

  function WithStatus(run: Run, status: Status): Run {
    run.(revision := run.revision + 1, payload := run.payload.(status := status))
  }

  /** None stands for each of the refusals owner_mismatch, epoch_mismatch, terminal and
      invalid_transition: the caller drops the code. */
  function ReduceWorkflowControl(run: Run, command: Command): Option<Run> {
    if !command.AdoptRun? && run.owner.sessionId != command.sessionId then None
    else if run.owner.epoch != command.expectedEpoch then None
    else
      match command
      case PauseRun(_, _) =>
        if run.payload.status.Active? then Some(WithStatus(run, Paused)) else None
      case CancelRun(_, _) =>
        if Terminal(run) then None else Some(WithStatus(run, Cancelled))
      case ResumeRun(_, _) =>
        if Terminal(run) || !(run.payload.status.Paused? || run.payload.status.Stuck?) then None
        else Some(WithStatus(run, Active).(continuation := ResetContinuation(run)))
      case AdoptRun(sessionId, _) =>
        var status := run.payload.status;
        if Terminal(run)
           || !(status.Paused? || status.Stuck? || status.Blocked? || status.NeedsUserDecision?
                || status.ReviewBlocked?) then None
        else
          Some(WithStatus(run, Active).(
               owner := Owner(sessionId, run.owner.epoch + 1),
               continuation := ResetContinuation(run)))
      case ReconcilePlan(_, _, taskIds, fingerprint) =>
        if run.payload.UlwLoop? || Terminal(run) then None
        else
          var plan := run.payload.plan.(taskIds := taskIds, taskFingerprint := fingerprint);
          Some(run.(revision := run.revision + 1, payload := StartWork(Active, plan)))
  }

  // ---------------------------------------------------------------------------
  // ULW loop contract
  // ---------------------------------------------------------------------------

  predicate AllPass(goal: Goal) {
    forall c | c in goal.criteria :: c.status.CriterionPass?
  }

  function FindGoal(goals: seq<Goal>, id: string): Option<Goal> {
    FirstWhere(goals, (g: Goal) => g.id == id)
  }

  function FindCriterion(criteria: seq<Criterion>, id: string): Option<Criterion> {
    FirstWhere(criteria, (c: Criterion) => c.id == id)
  }

  /** The goal a loop may continue on, if any. */
  function EvaluateUlwContinuation(run: Run): Option<string>
    requires run.payload.UlwLoop?
  {
    if !run.payload.status.Active? then None
    else if run.payload.activeGoalId.None? then None
    else
      match FindGoal(run.payload.goals, run.payload.activeGoalId.value)
      case None => None
      case Some(goal) =>
        if goal.cycleCount >= 5 || exists c | c in goal.criteria :: c.failureCount >= 3 then None
        else Some(goal.id)
  }

  function MapGoal(goals: seq<Goal>, id: string, f: Goal -> Goal): seq<Goal> {
    Map(goals, (g: Goal) => if g.id == id then f(g) else g)
  }

  function WithGoals(run: Run, goals: seq<Goal>): Run
    requires run.payload.UlwLoop?
  {
    run.(revision := run.revision + 1, payload := run.payload.(goals := goals))
  }

  function StartGoalCycle(run: Run, goalId: string): Option<Run>
    requires run.payload.UlwLoop?
  {
    match FindGoal(run.payload.goals, goalId)
    case None => None
    case Some(goal) =>
      if goal.cycleCount >= 5 then None
      else Some(WithGoals(run, MapGoal(run.payload.goals, goalId,
                                       (g: Goal) => g.(cycleCount := g.cycleCount + 1))))
  }

  function FailCriterion(c: Criterion, fingerprint: string, repeated: bool): Criterion {
    c.(status := CriterionFail,
       failureFingerprint := Some(fingerprint),
       failureCount := if repeated then c.failureCount + 1 else 1)
  }

  function FailCriteria(criteria: seq<Criterion>, id: string, fingerprint: string, repeated: bool): seq<Criterion> {
    Map(criteria, (c: Criterion) => if c.id == id then FailCriterion(c, fingerprint, repeated) else c)
  }

  function RecordCriterionFailure(run: Run, goalId: string, criterionId: string, fingerprint: string): Option<Run>
    requires run.payload.UlwLoop?
  {
    match FindGoal(run.payload.goals, goalId)
    case None => None
    case Some(goal) =>
      match FindCriterion(goal.criteria, criterionId)
      case None => None
      case Some(criterion) =>
        var repeated := criterion.failureFingerprint == Some(fingerprint);
        if repeated && criterion.failureCount >= 3 then None
        else
          var criteria := FailCriteria(goal.criteria, criterionId, fingerprint, repeated);
          Some(WithGoals(run, MapGoal(run.payload.goals, goalId, (g: Goal) => g.(criteria := criteria))))
  }
}
