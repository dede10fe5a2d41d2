/** Persisted records of the workflow state: runs, events and the active index.

    Identifiers are plain strings; they stand for values that already passed the
    decoder's trimming and non-emptiness checks. */
module Domain {
  import opened Prelude

  datatype Workflow = StartWorkKind | UlwLoopKind

  datatype Status =
    | Active | Paused | Stuck
    | Blocked | NeedsUserDecision | ReviewBlocked
    | Completed | Cancelled | Failed | Abandoned
  {
    predicate Terminal() {
      Completed? || Cancelled? || Failed? || Abandoned?
    }
  }

  datatype CriterionStatus = CriterionPending | CriterionPass | CriterionFail | CriterionBlocked

  datatype CriterionText = CriterionText(scenario: string, observable: string, evidenceLogicalId: string)

  datatype Criterion = Criterion(
    id: string,
    text: Option<CriterionText>,
    status: CriterionStatus,
    failureFingerprint: Option<string>,
    failureCount: nat,
    evidenceRef: Option<string>,
    captureRevision: Option<nat>,
    captureCommit: Option<string>)

  datatype GoalStatus =
    | GoalPending | GoalInProgress | GoalComplete | GoalFailed
    | GoalBlocked | GoalNeedsUserDecision | GoalReviewBlocked

  datatype Goal = Goal(id: string, status: GoalStatus, cycleCount: nat, criteria: seq<Criterion>)

  datatype Plan = Plan(displayPath: string, taskFingerprint: string, taskIds: seq<string>)

  datatype Payload =
    | StartWork(status: Status, plan: Plan)
    | UlwLoop(status: Status, annotation: Option<string>, activeGoalId: Option<string>, goals: seq<Goal>)

  datatype Version = V1 | V2(packetHash: Option<string>, expectedHead: Option<string>)

  datatype Owner = Owner(sessionId: string, epoch: nat)

  datatype Continuation = Continuation(
    lastProcessedLeafId: Option<string>,
    progressRevisionSeen: nat,
    noProgressAttempts: nat,
    stuck: bool)

  datatype Run = Run(
    version: Version,
    runId: string,
    revision: nat,
    transactionRevision: nat,
    owner: Owner,
    progressRevision: nat,
    continuation: Continuation,
    payload: Payload)
  {
    function Workflow(): Workflow {
      if payload.StartWork? then StartWorkKind else UlwLoopKind
    }
  }

  datatype Hint = HintActive | HintPaused | HintStuck | HintBlocked

  datatype IndexEntry = IndexEntry(
    workflow: Workflow,
    sessionId: string,
    runId: string,
    ownerEpoch: nat,
    runRevision: nat,
    transactionRevision: nat,
    statusHint: Hint)

  /** `migrationRevision` is present exactly in schema version 2. */
  datatype Index = Index(migrationRevision: Option<nat>, revision: nat, entries: seq<IndexEntry>)

  datatype Control = Pause | Resume | Cancel

  datatype NewCriterion = NewCriterion(id: string, text: CriterionText)

  datatype TerminalStatus = TerminalCompleted | TerminalFailed

  datatype Mutation =
    | RunCreated(run: Run)
    | WorkflowControlled(control: Control)
    | OwnerAdopted(sessionId: string)
    | PlanReconciled(taskIds: seq<string>, taskFingerprint: string)
    | WorkflowSteered(criteria: seq<NewCriterion>, annotation: Option<string>)
    | CriterionSettled(
        goalId: string, criterionId: string, acceptanceId: Option<AcceptanceKey>,
        evidenceRef: string, captureRevision: nat, captureCommit: string)
    | TaskEvidenceAccepted(taskId: string, acceptanceKey: AcceptanceKey)
    | WorkflowTerminal(
        status: TerminalStatus, acceptanceIds: Option<seq<AcceptanceKey>>, failedTaskId: Option<string>)
    | ContinuationAttempted(leafId: string, progressRevision: nat)
    | ContinuationStuck(leafId: string)
    | GoalCycleStarted(goalId: string)
    | CriterionFailureRecorded(goalId: string, criterionId: string, fingerprint: string)

  /** The idempotency key of an accepted worker result; the program joins the four parts with NUL. */
  datatype AcceptanceKey = AcceptanceKey(runId: string, attempt: nat, agentId: string, artifactHash: string)

  datatype Expected = Expected(
    indexRevision: nat,
    runRevision: Option<nat>,
    ownerSessionId: Option<string>,
    ownerEpoch: Option<nat>)

  /** What schema version 2 of an event adds to version 1. */
  datatype Binding =
    | Unbound
    | Bound(expectedHead: Option<string>, taskGeneration: Option<nat>, legacyHeadUnbound: bool)

  datatype Event = Event(
    eventId: string,
    sequence: nat,
    runId: string,
    workflow: Workflow,
    expected: Expected,
    mutation: Mutation,
    at: string,
    binding: Binding)

  /** `taskScoped` of prepareTransition. */
  predicate TaskScoped(m: Mutation) {
    || m.PlanReconciled? || m.WorkflowSteered? || m.CriterionSettled? || m.TaskEvidenceAccepted?
    || m.WorkflowTerminal? || m.GoalCycleStarted? || m.CriterionFailureRecorded?
  }

  /** The mutations whose reducer consults the receipt authority. */
  predicate ReceiptBound(m: Mutation) {
    m.CriterionSettled? || m.TaskEvidenceAccepted? || m.WorkflowTerminal?
  }

  // ---------------------------------------------------------------------------
  // What the decoders accept
  // ---------------------------------------------------------------------------

  function Ids(criteria: seq<Criterion>): seq<string> {
    Map(criteria, (c: Criterion) => c.id)
  }

  function CriterionIds(goals: seq<Goal>): seq<string> {
    if goals == [] then [] else Ids(goals[0].criteria) + CriterionIds(goals[1..])
  }

  predicate GoalDecodes(goal: Goal) {
    goal.cycleCount <= 5 && forall c | c in goal.criteria :: c.failureCount <= 3
  }

  function InProgressIds(goals: seq<Goal>): seq<string> {
    if goals == [] then []
    else (if goals[0].status.GoalInProgress? then [goals[0].id] else []) + InProgressIds(goals[1..])
  }

  function AsList(activeGoalId: Option<string>): seq<string> {
    if activeGoalId.None? then [] else [activeGoalId.value]
  }

  /** The goals in progress are exactly the one the payload names as active, or none. */
  predicate ActiveGoalMatches(goals: seq<Goal>, activeGoalId: Option<string>) {
    InProgressIds(goals) == AsList(activeGoalId)
  }

  predicate PayloadDecodes(payload: Payload) {
    match payload
    case StartWork(_, plan) => Distinct(plan.taskIds)
    case UlwLoop(status, annotation, activeGoalId, goals) =>
      && !status.Abandoned?
      && (annotation.Some? ==> |annotation.value| <= 512)
      && (forall g | g in goals :: GoalDecodes(g))
      && Distinct(Map(goals, (g: Goal) => g.id))
      && Distinct(CriterionIds(goals))
      && ActiveGoalMatches(goals, activeGoalId)
  }

  predicate RunDecodes(run: Run) {
    PayloadDecodes(run.payload)
  }

  predicate MutationDecodes(m: Mutation) {
    match m
    case RunCreated(run) => RunDecodes(run)
    case PlanReconciled(taskIds, _) => Distinct(taskIds)
    case WorkflowSteered(criteria, annotation) =>
      criteria != [] && (annotation.Some? ==> |annotation.value| <= 512)
    case WorkflowTerminal(status, acceptanceIds, failedTaskId) =>
      && (acceptanceIds.Some? ==> Distinct(acceptanceIds.value))
      && status.TerminalCompleted? == acceptanceIds.Some?
      && status.TerminalCompleted? == failedTaskId.None?
    case _ => true
  }

  predicate EventDecodes(event: Event) {
    && MutationDecodes(event.mutation)
    && (event.binding.Bound? ==>
          && (event.binding.taskGeneration.Some? ==> event.binding.taskGeneration.value > 0)
          && (event.binding.legacyHeadUnbound ==> event.binding.expectedHead.None?))
  }

  // ---------------------------------------------------------------------------
  // The active index
  // ---------------------------------------------------------------------------

  function StatusHint(run: Run): Option<Hint> {
    match run.payload.status
    case Active => Some(HintActive)
    case Paused => Some(HintPaused)
    case Stuck => Some(HintStuck)
    case Blocked | NeedsUserDecision | ReviewBlocked => Some(HintBlocked)
    case Completed | Cancelled | Failed | Abandoned => None
  }

  /** No two entries share a (workflow, session) and no two share a run. */
  predicate IndexValid(entries: seq<IndexEntry>) {
    forall i, j | 0 <= i < j < |entries| ::
      && (entries[i].workflow != entries[j].workflow || entries[i].sessionId != entries[j].sessionId)
      && entries[i].runId != entries[j].runId
  }

  datatype IndexVerdict = IndexOk | DuplicateActiveKey | DuplicateRun

  /** The scan of validateActiveIndex: two growing sets, first clash reported. */
  method ValidateActiveIndex(entries: seq<IndexEntry>) returns (verdict: IndexVerdict)
    ensures verdict.IndexOk? <==> IndexValid(entries)
    ensures verdict.DuplicateActiveKey? ==>
              exists i, j | 0 <= i < j < |entries| ::
                entries[i].workflow == entries[j].workflow && entries[i].sessionId == entries[j].sessionId
    ensures verdict.DuplicateRun? ==> exists i, j | 0 <= i < j < |entries| :: entries[i].runId == entries[j].runId
  {
    var keys: set<(Workflow, string)> := {};
    var runIds: set<string> := {};
    for n := 0 to |entries|
      invariant keys == set i | 0 <= i < n :: (entries[i].workflow, entries[i].sessionId)
      invariant runIds == set i | 0 <= i < n :: entries[i].runId
      invariant IndexValid(entries[..n])
    {
      var key := (entries[n].workflow, entries[n].sessionId);
      if key in keys {
        var i :| 0 <= i < n && (entries[i].workflow, entries[i].sessionId) == key;
        return DuplicateActiveKey;
      }
      if entries[n].runId in runIds {
        var i :| 0 <= i < n && entries[i].runId == entries[n].runId;
        return DuplicateRun;
      }
      keys := keys + {key};
      runIds := runIds + {entries[n].runId};
    }
    assert entries[..|entries|] == entries;
    return IndexOk;
  }
}
