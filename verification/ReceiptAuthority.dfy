/** Which ledger entries still count as evidence for a run. */
module ReceiptAuthority {
  import opened Prelude
  import opened Domain

  datatype CleanupStatus = CleanupReceipts | CleanupNotApplicable

  /** The rest of a worker result: nothing here decides whether it counts, but a retry must repeat it. */
  datatype WorkDetail = WorkDetail(
    workerRole: string, actualJobId: Option<string>, artifactPaths: seq<string>, cleanupReceiptPaths: seq<string>,
    cleanupStatus: Option<CleanupStatus>, cleanupScenarioId: Option<string>, acceptedAfterReview: bool)

  /** A scoped entry of the worker-acceptance ledger; `taskId`, `role` and `semanticAttempt` are absent in
      version 1 entries. */
  datatype Acceptance = Acceptance(
    sequence: nat,
    idempotencyKey: AcceptanceKey,
    attempt: nat,
    runRevision: nat,
    ownerSessionId: string,
    ownerEpoch: nat,
    taskGeneration: nat,
    captureCommit: string,
    receiptPath: string,
    receiptHash: string,
    taskId: Option<string>,
    role: Option<string>,
    semanticAttempt: Option<nat>,
    detail: WorkDetail)

  predicate DistinctKeys(entries: seq<Acceptance>) {
    forall i, j | 0 <= i < j < |entries| :: entries[i].idempotencyKey != entries[j].idempotencyKey
  }

  datatype RejectionStatus = RetryAllowed | NeedsParentDecision

  datatype Rejection = Rejection(
    ownerEpoch: nat, taskGeneration: nat, taskId: string, count: nat, status: RejectionStatus)

  datatype Authority = Authority(taskGeneration: nat, accepted: seq<Acceptance>, rejected: seq<Rejection>)

  const EMPTY_AUTHORITY := Authority(0, [], [])

  predicate MatchesRun(run: Run, entry: Acceptance) {
    && run.version.V2?
    && run.version.expectedHead.Some?
    && entry.taskId.Some?
    && entry.ownerSessionId == run.owner.sessionId
    && entry.ownerEpoch == run.owner.epoch
    && entry.captureCommit == run.version.expectedHead.value
  }

  /** Evidence for `taskId` at the authority's generation and the run's current attempt. */
  predicate IsCurrent(run: Run, authority: Authority, taskId: string, entry: Acceptance) {
    && MatchesRun(run, entry)
    && entry.taskId == Some(taskId)
    && entry.taskGeneration == authority.taskGeneration
    && entry.attempt == run.progressRevision
  }

  function CurrentAcceptance(run: Run, authority: Authority, taskId: string): Option<Acceptance> {
    if authority.taskGeneration == 0 then None
    else LastWhere(authority.accepted, (entry: Acceptance) => IsCurrent(run, authority, taskId, entry))
  }

  /** The latest evidence for a task, whatever its generation and attempt. */
  function LatestAcceptance(run: Run, authority: Authority, taskId: string): Option<Acceptance> {
    LastWhere(authority.accepted, (entry: Acceptance) => MatchesRun(run, entry) && entry.taskId == Some(taskId))
  }

  function StartCompletionAcceptanceIds(run: Run, authority: Authority): Option<seq<AcceptanceKey>>
    requires run.payload.StartWork?
  {
    var taskIds := run.payload.plan.taskIds;
    if taskIds == [] || CurrentAcceptance(run, authority, taskIds[|taskIds| - 1]).None? then None
    else if exists t | t in taskIds :: LatestAcceptance(run, authority, t).None? then None
    else Some(seq(|taskIds|, i requires 0 <= i < |taskIds| =>
                    LatestAcceptance(run, authority, taskIds[i]).value.idempotencyKey))
  }

  /** Rejected for the third time, left to the parent, and not accepted since. */
  predicate ExhaustedEntry(run: Run, authority: Authority, entry: Rejection) {
    && entry.ownerEpoch == run.owner.epoch
    && entry.taskGeneration == authority.taskGeneration
    && entry.count == 3
    && entry.status.NeedsParentDecision?
    && CurrentAcceptance(run, authority, entry.taskId).None?
  }

  function ExhaustedTaskId(run: Run, authority: Authority): Option<string> {
    if authority.taskGeneration == 0 then None
    else
      match LastWhere(authority.rejected, (entry: Rejection) => ExhaustedEntry(run, authority, entry))
      case None => None
      case Some(entry) => Some(entry.taskId)
  }
}
