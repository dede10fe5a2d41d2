/** Deciding, from durable state alone, whether an idle session should continue its workflow. */
module Continuation {
  import opened Prelude
  import opened Domain
  import opened WorkflowControl
  import opened ReceiptAuthority
  import opened StateTransition
  import opened TransactionStore

  datatype PlanSnapshot = PlanSnapshot(taskIds: seq<string>, remainingTaskIds: seq<string>, fingerprint: string)

  datatype PlanObservation = PlanObservation(runId: string, plan: PlanSnapshot)

  datatype AuthorityObservation = AuthorityObservation(runId: string, authority: Authority)

  datatype Snapshot = Snapshot(
    index: Index, runs: seq<Run>, plans: seq<PlanObservation>, authorities: seq<AuthorityObservation>)

  datatype Decision =
    | Quiet
    | Continue(run: Run, mutation: Mutation)
    | StuckNow(run: Run, mutation: Mutation)
    | Settled(run: Run, mutation: Mutation, taskGeneration: nat)

  datatype Eligibility = NextTask(taskId: string) | NotActive | PlanIdentityMismatch | PlanComplete

  function EvaluateStartWork(run: Run, observed: PlanSnapshot): Eligibility
    requires run.payload.StartWork?
  {
    if !run.payload.status.Active? then NotActive
    else if || run.payload.plan.taskFingerprint != observed.fingerprint
            || run.payload.plan.taskIds != observed.taskIds then PlanIdentityMismatch
    else if observed.remainingTaskIds == [] then PlanComplete
    else NextTask(observed.remainingTaskIds[0])
  }

  predicate HasReachedNoProgressBound(run: Run) {
    run.continuation.progressRevisionSeen == run.progressRevision && run.continuation.noProgressAttempts >= 2
  }

  function AuthorityOf(snapshot: Snapshot, run: Run): Authority {
    match FirstWhere(snapshot.authorities, (a: AuthorityObservation) => a.runId == run.runId)
    case None => EMPTY_AUTHORITY
    case Some(observed) => observed.authority
  }

  // ---------------------------------------------------------------------------
  // Resolving a session's runs through the index
  // ---------------------------------------------------------------------------

  /** The entry's hint still says what the run's status is. */
  predicate HintMatches(entry: IndexEntry, run: Run) {
    match run.payload.status
    case Active => entry.statusHint.HintActive?
    case Paused => entry.statusHint.HintPaused?
    case Stuck => entry.statusHint.HintStuck?
    case Blocked | NeedsUserDecision | ReviewBlocked => entry.statusHint.HintBlocked?
    case Completed | Cancelled | Failed | Abandoned => false
  }

  datatype Resolved = Absent | Conflict | Found(run: Run)

  function ResolveWorkflow(index: Index, runs: seq<Run>, workflow: Workflow, sessionId: string): Resolved {
    match FirstWhere(index.entries, (e: IndexEntry) => e.workflow == workflow && e.sessionId == sessionId)
    case None => Absent
    case Some(entry) =>
      match FirstWhere(runs, (r: Run) => r.runId == entry.runId)
      case None => Conflict
      case Some(run) =>
        if || run.Workflow() != entry.workflow
           || run.owner != Owner(entry.sessionId, entry.ownerEpoch)
           || run.revision != entry.runRevision
           || run.transactionRevision != entry.transactionRevision
           || !HintMatches(entry, run) then Conflict
        else Found(run)
  }

  // ---------------------------------------------------------------------------
  // The decision
  // ---------------------------------------------------------------------------

  function ContinueOrStop(run: Run, leafId: string): Decision {
    if HasReachedNoProgressBound(run) then StuckNow(run, ContinuationStuck(leafId))
    else Continue(run, ContinuationAttempted(leafId, run.progressRevision))
  }

  function FailExhausted(run: Run, authority: Authority, taskId: string): Decision {
    Settled(run, WorkflowTerminal(TerminalFailed, None, Some(taskId)), authority.taskGeneration)
  }

  /** None when the start-work run gives no decision and the loop is considered instead. */
  function DecideStart(run: Run, observed: PlanSnapshot, authority: Authority, leafId: string): Option<Decision>
    requires run.payload.StartWork?
  {
    var eligibility := EvaluateStartWork(run, observed);
    var completion := StartCompletionAcceptanceIds(run, authority);
    var exhausted := ExhaustedTaskId(run, authority);
    if eligibility.PlanComplete? && completion.Some? then
      Some(Settled(run, WorkflowTerminal(TerminalCompleted, completion, None), authority.taskGeneration))
    else if exhausted.Some? then Some(FailExhausted(run, authority, exhausted.value))
    else if !eligibility.NextTask? then None
    else
      match CurrentAcceptance(run, authority, eligibility.taskId)
      case Some(accepted) =>
        Some(Settled(run, TaskEvidenceAccepted(eligibility.taskId, accepted.idempotencyKey), authority.taskGeneration))
      case None => Some(ContinueOrStop(run, leafId))
  }

  function PendingCriterion(goal: Goal): Option<Criterion> {
    FirstWhere(goal.criteria, (c: Criterion) => !c.status.CriterionPass?)
  }

  function DecideLoop(run: Run, authority: Authority, leafId: string): Decision
    requires run.payload.UlwLoop?
  {
    var exhausted := ExhaustedTaskId(run, authority);
    if exhausted.Some? then FailExhausted(run, authority, exhausted.value)
    else
      match EvaluateUlwContinuation(run)
      case None => Quiet
      case Some(goalId) =>
        match FindGoal(run.payload.goals, goalId)
        case None => Quiet
        case Some(goal) =>
          if !goal.status.GoalPending? && !goal.status.GoalInProgress? then Quiet
          else
            match PendingCriterion(goal)
            case None => ContinueOrStop(run, leafId)
            case Some(pending) =>
              match CurrentAcceptance(run, authority, pending.id)
              case None => ContinueOrStop(run, leafId)
              case Some(accepted) =>
                Settled(run,
                        CriterionSettled(goal.id, pending.id, Some(accepted.idempotencyKey), accepted.receiptPath,
                                         accepted.runRevision, accepted.captureCommit),
                        authority.taskGeneration)
  }

  /** The start-work branch applies only when the session's plan file could be observed. */
  function StartDecision(snapshot: Snapshot, start: Resolved, leafId: string): Option<Decision> {
    if !start.Found? || !start.run.payload.StartWork? then None
    else
      match FirstWhere(snapshot.plans, (p: PlanObservation) => p.runId == start.run.runId)
      case None => None
      case Some(observed) => DecideStart(start.run, observed.plan, AuthorityOf(snapshot, start.run), leafId)
  }

  function DecideContinuation(snapshot: Snapshot, sessionId: string, leafId: string): Decision {
    var start := ResolveWorkflow(snapshot.index, snapshot.runs, StartWorkKind, sessionId);
    var loop := ResolveWorkflow(snapshot.index, snapshot.runs, UlwLoopKind, sessionId);
    if !IndexValid(snapshot.index.entries) || start.Conflict? || loop.Conflict? then Quiet
    else if start.Found? && start.run.continuation.lastProcessedLeafId == Some(leafId) then Quiet
    else
      match StartDecision(snapshot, start, leafId)
      case Some(decision) => decision
      case None =>
        if !loop.Found? || !loop.run.payload.UlwLoop? then Quiet
        else if loop.run.continuation.lastProcessedLeafId == Some(leafId) then Quiet
        else DecideLoop(loop.run, AuthorityOf(snapshot, loop.run), leafId)
  }

  /** The event the coordinator commits for a decision. */
  function CoordinatorEvent(index: Index, decision: Decision, eventId: string, at: string): Event
    requires !decision.Quiet?
  {
    var run := decision.run;
    var binding := match run.version
      case V1 => Unbound
      case V2(_, expectedHead) =>
        Bound(if decision.Settled? then expectedHead else None,
              if decision.Settled? then Some(decision.taskGeneration) else None,
              false);
    Event(eventId, index.revision + 1, run.runId, run.Workflow(),
          Expected(index.revision, Some(run.revision), Some(run.owner.sessionId), Some(run.owner.epoch)),
          decision.mutation, at, binding)
  }

  // ---------------------------------------------------------------------------
  // The coordinator over the store
  // ---------------------------------------------------------------------------

  /** What one idle notification brings: the session, the leaf it stopped on, an identifier and a time
      for the event, and what the plan files and receipt ledgers say at that moment. */
  datatype Request = Request(
    sessionId: string, leafId: string, eventId: string, at: string,
    plans: map<string, PlanSnapshot>, authorities: map<string, Authority>)

  function AuthorityIn(authorities: map<string, Authority>, runId: string): Authority {
    if runId in authorities then authorities[runId] else EMPTY_AUTHORITY
  }

  function SessionRuns(d: Disk, entries: seq<IndexEntry>, sessionId: string): seq<Run> {
    if entries == [] then []
    else
      var rest := SessionRuns(d, entries[1..], sessionId);
      if entries[0].sessionId == sessionId && entries[0].runId in d.runs then [d.runs[entries[0].runId]] + rest
      else rest
  }

  function PlansFor(runs: seq<Run>, plans: map<string, PlanSnapshot>): seq<PlanObservation> {
    if runs == [] then []
    else
      var r := runs[|runs| - 1];
      var before := PlansFor(runs[..|runs| - 1], plans);
      if r.payload.StartWork? && r.payload.plan.displayPath in plans
      then before + [PlanObservation(r.runId, plans[r.payload.plan.displayPath])] else before
  }

  function SnapshotFor(d: Disk, q: Request): Snapshot {
    var runs := SessionRuns(d, IndexOf(d).entries, q.sessionId);
    Snapshot(IndexOf(d), runs, PlansFor(runs, q.plans),
             Map(runs, (r: Run) => AuthorityObservation(r.runId, AuthorityIn(q.authorities, r.runId))))
  }

  function DecisionFor(d: Disk, q: Request): Decision {
    DecideContinuation(SnapshotFor(d, q), q.sessionId, q.leafId)
  }

  /** Everything the coordinator reads decodes. */
  predicate SessionReadable(d: Disk, q: Request) {
    && IndexReadable(d)
    && forall e | e in IndexOf(d).entries && e.sessionId == q.sessionId :: RunReadable(d, e.runId)
  }

  function ContinuationIntent(d: Disk, q: Request): Intent {
    if !SessionReadable(d, q) then Intent(DecodeError, [])
    else
      var decision := DecisionFor(d, q);
      if decision.Quiet? then Intent(CutShort, [])
      else
        CommitIntent(d, CoordinatorEvent(IndexOf(d), decision, q.eventId, q.at),
                     AuthorityIn(q.authorities, decision.run.runId))
  }

  /** The coordinator hands a continuation back only if the commit went through whole. */
  predicate Emits(d: Disk, q: Request, fuse: nat) {
    SessionReadable(d, q) && DecisionFor(d, q).Continue?
    && ContinuationIntent(d, q).outcome.Committed? && fuse >= 3
  }
}
