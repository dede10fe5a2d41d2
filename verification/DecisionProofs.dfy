/** When an idle session is settled, stopped, continued or left alone, said of its runs, its plan files and its
    receipts. */
module DecisionProofs {
  import opened Prelude
  import opened Domain
  import opened WorkflowControl
  import opened ReceiptAuthority
  import opened AuthorityProofs
  import opened StateTransition
  import opened TransactionStore
  import opened StoreProofs
  import opened TransitionProofs
  import opened ReducerProofs
  import opened ReplayProofs
  import opened Continuation
  import opened ContinuationProofs

  /** Two attempts have been made since the last progress. */
  ghost predicate AtBound(run: Run) {
    run.continuation.progressRevisionSeen == run.progressRevision && run.continuation.noProgressAttempts >= 2
  }

  ghost predicate Exhausted(run: Run, authority: Authority) {
    exists r :: r in authority.rejected && Exhausts(r, run, authority)
  }

  /** What is settled when a task was rejected too often: the run fails on the last such task. */
  ghost predicate FailsRun(run: Run, authority: Authority, decision: Decision) {
    exists r :: LastExhausted(r, run, authority)
                && decision == Settled(run, WorkflowTerminal(TerminalFailed, None, Some(r.taskId)), authority.taskGeneration)
  }

  ghost predicate GoesOn(run: Run, leafId: string, decision: Decision) {
    decision == if AtBound(run) then StuckNow(run, ContinuationStuck(leafId))
                else Continue(run, ContinuationAttempted(leafId, run.progressRevision))
  }

  lemma FailExhaustedIs(run: Run, authority: Authority)
    ensures ExhaustedTaskId(run, authority).Some? <==> Exhausted(run, authority)
    ensures ExhaustedTaskId(run, authority).Some? ==>
              FailsRun(run, authority, FailExhausted(run, authority, ExhaustedTaskId(run, authority).value))
  {
    ExhaustedTaskIff(run, authority);
    if ExhaustedTaskId(run, authority).Some? {
      var r :| LastExhausted(r, run, authority) && r.taskId == ExhaustedTaskId(run, authority).value;
    }
  }

  // ---------------------------------------------------------------------------
  // The loop
  // ---------------------------------------------------------------------------

  /** The goal the loop is working on: active, with cycles left, and no criterion failed three times. */
  ghost predicate OpenGoal(run: Run, goal: Goal) {
    && run.payload.UlwLoop? && run.payload.status == Active
    && goal in run.payload.goals && run.payload.activeGoalId == Some(goal.id)
    && goal.status in {GoalPending, GoalInProgress} && goal.cycleCount < 5
    && forall c | c in goal.criteria :: c.failureCount < 3
  }

  /** The first criterion that has not passed. */
  ghost predicate FirstOpen(goal: Goal, c: Criterion) {
    exists k | 0 <= k < |goal.criteria| ::
      && goal.criteria[k] == c && c.status != CriterionPass
      && forall j | 0 <= j < k :: goal.criteria[j].status == CriterionPass
  }

  ghost predicate SettlesCriterion(run: Run, goal: Goal, authority: Authority, decision: Decision) {
    exists c, a :: FirstOpen(goal, c) && LastProof(a, run, authority, c.id)
                   && decision == Settled(run, CriterionSettled(goal.id, c.id, Some(a.idempotencyKey), a.receiptPath,
                                                                a.runRevision, a.captureCommit),
                                          authority.taskGeneration)
  }

  ghost predicate CriterionProved(run: Run, goal: Goal, authority: Authority) {
    exists c :: FirstOpen(goal, c) && HasProof(run, authority, c.id)
  }

  /** The loop's answer: fail if a task is exhausted; with no open goal, nothing; settle the first open
      criterion if it is proved; otherwise go on, or stop at the bound. */
  ghost predicate LoopAnswer(run: Run, authority: Authority, leafId: string, decision: Decision) {
    if Exhausted(run, authority) then FailsRun(run, authority, decision)
    else if !exists goal :: OpenGoal(run, goal) then decision == Quiet
    else
      exists goal :: OpenGoal(run, goal) &&
        if CriterionProved(run, goal, authority) then SettlesCriterion(run, goal, authority, decision)
        else GoesOn(run, leafId, decision)
  }

  lemma PendingIsFirstOpen(goal: Goal)
    ensures PendingCriterion(goal).Some? ==> FirstOpen(goal, PendingCriterion(goal).value)
    ensures forall c :: FirstOpen(goal, c) ==> PendingCriterion(goal) == Some(c)
  {
    var found := PendingCriterion(goal);
    if found.Some? {
      var k :| 0 <= k < |goal.criteria| && goal.criteria[k] == found.value
               && forall j | 0 <= j < k :: goal.criteria[j].status.CriterionPass?;
    }
    forall c | FirstOpen(goal, c) ensures found == Some(c) {
      var k :| 0 <= k < |goal.criteria| && goal.criteria[k] == c && c.status != CriterionPass
               && forall j | 0 <= j < k :: goal.criteria[j].status == CriterionPass;
      assert c in goal.criteria;
      var i :| 0 <= i < |goal.criteria| && goal.criteria[i] == found.value
               && forall j | 0 <= j < i :: goal.criteria[j].status.CriterionPass?;
      assert i == k;
    }
  }

  /** On a decoded run the goal looked up under the active id is the one goal that has it. */
  lemma ActiveGoalFound(run: Run, goal: Goal)
    requires RunDecodes(run) && run.payload.UlwLoop?
    ensures OpenGoal(run, goal) <==>
            && EvaluateUlwContinuation(run) == Some(goal.id) && FindGoal(run.payload.goals, goal.id) == Some(goal)
            && (goal.status.GoalPending? || goal.status.GoalInProgress?)
  {
    GoalIdsDistinct(run.payload.goals);
    if OpenGoal(run, goal) {
      assert FindGoal(run.payload.goals, goal.id).Some?;
      FoundGoalUnique(run.payload.goals, goal.id, goal);
    }
  }

  lemma OpenLoop(run: Run, authority: Authority, leafId: string, goal: Goal)
    requires RunDecodes(run) && OpenGoal(run, goal) && !Exhausted(run, authority)
    ensures var decision := DecideLoop(run, authority, leafId);
            if CriterionProved(run, goal, authority) then SettlesCriterion(run, goal, authority, decision)
            else GoesOn(run, leafId, decision)
  {
    FailExhaustedIs(run, authority);
    ActiveGoalFound(run, goal);
    PendingIsFirstOpen(goal);
    var pending := PendingCriterion(goal);
    if pending.Some? {
      CurrentAcceptanceIff(run, authority, pending.value.id);
      var found := CurrentAcceptance(run, authority, pending.value.id);
      if found.Some? {
        assert FirstOpen(goal, pending.value) && LastProof(found.value, run, authority, pending.value.id);
      }
    }
  }

  lemma ClosedLoop(run: Run, authority: Authority, leafId: string)
    requires RunDecodes(run) && run.payload.UlwLoop? && !Exhausted(run, authority)
    requires !exists goal :: OpenGoal(run, goal)
    ensures DecideLoop(run, authority, leafId) == Quiet
  {
    FailExhaustedIs(run, authority);
    var goalId := EvaluateUlwContinuation(run);
    if goalId.Some? && FindGoal(run.payload.goals, goalId.value).Some? {
      ActiveGoalFound(run, FindGoal(run.payload.goals, goalId.value).value);
    }
  }

  /** The loop is decided by its fields and the ledger alone. */
  lemma LoopDecision(run: Run, authority: Authority, leafId: string)
    requires RunDecodes(run) && run.payload.UlwLoop?
    ensures LoopAnswer(run, authority, leafId, DecideLoop(run, authority, leafId))
  {
    if Exhausted(run, authority) {
      FailExhaustedIs(run, authority);
    } else if exists goal :: OpenGoal(run, goal) {
      var goal :| OpenGoal(run, goal);
      OpenLoop(run, authority, leafId, goal);
    } else {
      ClosedLoop(run, authority, leafId);
    }
  }

  // ---------------------------------------------------------------------------
  // Start-work
  // ---------------------------------------------------------------------------

  /** The plan file says what the run was started on. */
  ghost predicate PlanUnchanged(run: Run, plan: PlanSnapshot) {
    run.payload.StartWork? && plan.fingerprint == run.payload.plan.taskFingerprint && plan.taskIds == run.payload.plan.taskIds
  }

  ghost predicate PlanActive(run: Run, plan: PlanSnapshot) {
    PlanUnchanged(run, plan) && run.payload.status == Active
  }

  ghost predicate CompletesPlan(run: Run, authority: Authority, decision: Decision) {
    exists ids :: run.payload.StartWork? && CompletionNames(run, authority, ids)
                  && decision == Settled(run, WorkflowTerminal(TerminalCompleted, Some(ids), None), authority.taskGeneration)
  }

  ghost predicate SettlesTask(run: Run, authority: Authority, taskId: string, decision: Decision) {
    exists a :: LastProof(a, run, authority, taskId)
                && decision == Settled(run, TaskEvidenceAccepted(taskId, a.idempotencyKey), authority.taskGeneration)
  }

  /** The answer of a start-work run whose plan file could be read: complete a proved plan with nothing left;
      otherwise fail if a task is exhausted; with nothing left, changed or not active, no answer; settle the
      first remaining task if it is proved; otherwise go on, or stop at the bound. */
  ghost predicate StartAnswer(run: Run, plan: PlanSnapshot, authority: Authority, leafId: string, answer: Option<Decision>)
    requires run.payload.StartWork?
  {
    if PlanActive(run, plan) && plan.remainingTaskIds == [] && PlanProved(run, authority)
    then answer.Some? && CompletesPlan(run, authority, answer.value)
    else if Exhausted(run, authority) then answer.Some? && FailsRun(run, authority, answer.value)
    else if !PlanActive(run, plan) || plan.remainingTaskIds == [] then answer == None
    else
      && answer.Some?
      && if HasProof(run, authority, plan.remainingTaskIds[0])
         then SettlesTask(run, authority, plan.remainingTaskIds[0], answer.value)
         else GoesOn(run, leafId, answer.value)
  }

  lemma StartDecisionIs(run: Run, plan: PlanSnapshot, authority: Authority, leafId: string)
    requires run.payload.StartWork?
    ensures StartAnswer(run, plan, authority, leafId, DecideStart(run, plan, authority, leafId))
  {
    assert EvaluateStartWork(run, plan).PlanComplete? <==> PlanActive(run, plan) && plan.remainingTaskIds == [];
    CompletionIdsIff(run, authority);
    if PlanActive(run, plan) && plan.remainingTaskIds == [] && PlanProved(run, authority) {
      CompletionIdsNameProofs(run, authority);
    } else {
      UnfinishedPlan(run, plan, authority, leafId);
    }
  }

  lemma UnfinishedPlan(run: Run, plan: PlanSnapshot, authority: Authority, leafId: string)
    requires run.payload.StartWork?
    requires !(EvaluateStartWork(run, plan).PlanComplete? && StartCompletionAcceptanceIds(run, authority).Some?)
    ensures var answer := DecideStart(run, plan, authority, leafId);
            if Exhausted(run, authority) then answer.Some? && FailsRun(run, authority, answer.value)
            else if !PlanActive(run, plan) || plan.remainingTaskIds == [] then answer == None
            else
              && answer.Some?
              && if HasProof(run, authority, plan.remainingTaskIds[0])
                 then SettlesTask(run, authority, plan.remainingTaskIds[0], answer.value)
                 else GoesOn(run, leafId, answer.value)
  {
    FailExhaustedIs(run, authority);
    if plan.remainingTaskIds != [] {
      CurrentAcceptanceIff(run, authority, plan.remainingTaskIds[0]);
    }
  }

  // ---------------------------------------------------------------------------
  // The session
  // ---------------------------------------------------------------------------

  /** The index lists `run` as the session's run of the workflow. */
  ghost predicate Holds(d: Disk, sessionId: string, workflow: Workflow, run: Run) {
    exists e :: e in IndexOf(d).entries && e.sessionId == sessionId && e.workflow == workflow
                && e.runId in d.runs && d.runs[e.runId] == run
  }

  /** The entry agrees with the run in everything it says of it. */
  ghost predicate Agrees(e: IndexEntry, run: Run) {
    && e.workflow == run.Workflow() && e.sessionId == run.owner.sessionId && e.ownerEpoch == run.owner.epoch
    && e.runRevision == run.revision && e.transactionRevision == run.transactionRevision && HintMatches(e, run)
  }

  /** The first entry for the session's workflow. */
  ghost predicate FirstEntry(entries: seq<IndexEntry>, workflow: Workflow, sessionId: string, e: IndexEntry) {
    exists i | 0 <= i < |entries| ::
      && entries[i] == e && e.workflow == workflow && e.sessionId == sessionId
      && forall j | 0 <= j < i :: !(entries[j].workflow == workflow && entries[j].sessionId == sessionId)
  }

  lemma FirstEntryIff(entries: seq<IndexEntry>, workflow: Workflow, sessionId: string, e: IndexEntry)
    ensures FirstEntry(entries, workflow, sessionId, e) <==>
            FirstWhere(entries, (x: IndexEntry) => x.workflow == workflow && x.sessionId == sessionId) == Some(e)
  {
    var found := FirstWhere(entries, (x: IndexEntry) => x.workflow == workflow && x.sessionId == sessionId);
    if FirstEntry(entries, workflow, sessionId, e) {
      var i :| 0 <= i < |entries| && entries[i] == e && e.workflow == workflow && e.sessionId == sessionId
               && forall j | 0 <= j < i :: !(entries[j].workflow == workflow && entries[j].sessionId == sessionId);
      assert e in entries;
      var k :| 0 <= k < |entries| && entries[k] == found.value
               && forall j | 0 <= j < k :: !(entries[j].workflow == workflow && entries[j].sessionId == sessionId);
      assert i == k;
    }
  }

  ghost predicate HasAgreeing(runs: seq<Run>, e: IndexEntry) {
    exists run :: run in runs && run.runId == e.runId && Agrees(e, run)
  }

  lemma AgreeingFound(runs: seq<Run>, e: IndexEntry)
    requires forall a, b | a in runs && b in runs && a.runId == b.runId :: a == b
    ensures var run := FirstWhere(runs, (r: Run) => r.runId == e.runId);
            HasAgreeing(runs, e) <==> run.Some? && Agrees(e, run.value)
  {
  }

  /** On any store, healthy or not, a session's workflow is in conflict exactly when the first entry for it
      names a run that was not loaded or that it does not agree with. */
  lemma ResolveConflictIff(index: Index, runs: seq<Run>, workflow: Workflow, sessionId: string)
    requires forall a, b | a in runs && b in runs && a.runId == b.runId :: a == b
    ensures ResolveWorkflow(index, runs, workflow, sessionId).Conflict? <==>
            exists e :: FirstEntry(index.entries, workflow, sessionId, e) && !HasAgreeing(runs, e)
  {
    var found := FirstWhere(index.entries, (e: IndexEntry) => e.workflow == workflow && e.sessionId == sessionId);
    forall e ensures FirstEntry(index.entries, workflow, sessionId, e) <==> found == Some(e) {
      FirstEntryIff(index.entries, workflow, sessionId, e);
    }
    if found.Some? {
      AgreeingFound(runs, found.value);
    }
  }

  /** On a healthy store a session resolves to the run the index lists for it, or to nothing. */
  lemma ResolveIff(d: Disk, workflow: Workflow, sessionId: string)
    requires StoreInv(d) && !Behind(d) && IndexReadable(d)
    ensures var resolved := ResolveWorkflow(IndexOf(d), SessionRuns(d, IndexOf(d).entries, sessionId), workflow, sessionId);
            && !resolved.Conflict?
            && (resolved.Absent? <==> !exists run :: Holds(d, sessionId, workflow, run))
            && (forall run :: resolved == Found(run) <==> Holds(d, sessionId, workflow, run))
            && (resolved.Found? ==> resolved.run.Workflow() == workflow)
  {
    var entries := IndexOf(d).entries;
    var runs := SessionRuns(d, entries, sessionId);
    var resolved := ResolveWorkflow(IndexOf(d), runs, workflow, sessionId);
    ResolveNeverConflicts(d, workflow, sessionId);
    var found := FirstWhere(entries, (e: IndexEntry) => e.workflow == workflow && e.sessionId == sessionId);
    if found.None? {
      assert forall e | e in entries :: !(e.workflow == workflow && e.sessionId == sessionId);
    } else {
      ResolvedIsListed(d, workflow, sessionId, found.value);
      forall run | Holds(d, sessionId, workflow, run) ensures resolved == Found(run) {
        var e :| e in entries && e.sessionId == sessionId && e.workflow == workflow
                 && e.runId in d.runs && d.runs[e.runId] == run;
        OneEntryPerKey(entries, e, found.value);
      }
    }
  }

  lemma OneEntryPerKey(entries: seq<IndexEntry>, e: IndexEntry, f: IndexEntry)
    requires IndexValid(entries) && e in entries && f in entries && e.workflow == f.workflow && e.sessionId == f.sessionId
    ensures e == f
  {
    var i :| 0 <= i < |entries| && entries[i] == e;
    var j :| 0 <= j < |entries| && entries[j] == f;
    assert i == j;
  }

  lemma ResolvedIsListed(d: Disk, workflow: Workflow, sessionId: string, e: IndexEntry)
    requires StoreInv(d) && !Behind(d)
    requires FirstWhere(IndexOf(d).entries, (x: IndexEntry) => x.workflow == workflow && x.sessionId == sessionId) == Some(e)
    ensures e.runId in d.runs && d.runs[e.runId].Workflow() == workflow
    ensures ResolveWorkflow(IndexOf(d), SessionRuns(d, IndexOf(d).entries, sessionId), workflow, sessionId) == Found(d.runs[e.runId])
    ensures Holds(d, sessionId, workflow, d.runs[e.runId])
  {
    ResolveNeverConflicts(d, workflow, sessionId);
    SessionRunsAre(d, IndexOf(d).entries, sessionId);
    assert EntryProjects(e, d.runs[e.runId]);
    var runs := SessionRuns(d, IndexOf(d).entries, sessionId);
    var run := FirstWhere(runs, (r: Run) => r.runId == e.runId);
    assert run.Some? && run.value in runs;
  }

  /** The plan of a session's start-work run is observed exactly when its file could be read. */
  lemma PlanObserved(runs: seq<Run>, plans: map<string, PlanSnapshot>, run: Run)
    requires run in runs && run.payload.StartWork? && forall r | r in runs && r.runId == run.runId :: r == run
    ensures FirstWhere(PlansFor(runs, plans), (p: PlanObservation) => p.runId == run.runId) ==
            if run.payload.plan.displayPath in plans
            then Some(PlanObservation(run.runId, plans[run.payload.plan.displayPath])) else None
  {
    PlansForIff(runs, plans);
    var observed := PlansFor(runs, plans);
    if run.payload.plan.displayPath in plans {
      assert PlanObservation(run.runId, plans[run.payload.plan.displayPath]) in observed;
    }
    var found := FirstWhere(observed, (p: PlanObservation) => p.runId == run.runId);
    if found.Some? {
      assert found.value in observed;
    }
  }

  lemma {:induction false} PlansForIff(runs: seq<Run>, plans: map<string, PlanSnapshot>)
    ensures forall p :: p in PlansFor(runs, plans) <==>
              exists r | r in runs :: r.payload.StartWork? && r.payload.plan.displayPath in plans
                                      && p == PlanObservation(r.runId, plans[r.payload.plan.displayPath])
  {
    if runs != [] {
      var before, last := runs[..|runs| - 1], runs[|runs| - 1];
      PlansForIff(before, plans);
      assert runs == before + [last];
      forall p
        ensures p in PlansFor(runs, plans) <==>
                exists r | r in runs :: r.payload.StartWork? && r.payload.plan.displayPath in plans
                                        && p == PlanObservation(r.runId, plans[r.payload.plan.displayPath])
      {
        if p in PlansFor(before, plans) {
          var r :| r in before && r.payload.StartWork? && r.payload.plan.displayPath in plans
                   && p == PlanObservation(r.runId, plans[r.payload.plan.displayPath]);
          assert r in runs;
        } else if p in PlansFor(runs, plans) {
          assert last in runs;
        }
      }
    }
  }

  /** The start-work run has an answer of its own. */
  ghost predicate Speaks(run: Run, q: Request) {
    && run.payload.StartWork? && run.payload.plan.displayPath in q.plans
    && var plan, authority := q.plans[run.payload.plan.displayPath], AuthorityIn(q.authorities, run.runId);
    || Exhausted(run, authority)
    || (PlanActive(run, plan) && (plan.remainingTaskIds != [] || PlanProved(run, authority)))
  }

  /** A leaf the session's start-work run has answered is left alone; if that run has an answer, it is the
      answer; otherwise the session's loop answers, unless it has answered the leaf; otherwise nothing. */
  ghost predicate SessionAnswer(d: Disk, q: Request, decision: Decision) {
    if exists s :: Holds(d, q.sessionId, StartWorkKind, s) && s.continuation.lastProcessedLeafId == Some(q.leafId)
    then decision == Quiet
    else if exists s :: Holds(d, q.sessionId, StartWorkKind, s) && Speaks(s, q)
    then exists s :: Holds(d, q.sessionId, StartWorkKind, s) && Speaks(s, q)
                     && StartAnswer(s, q.plans[s.payload.plan.displayPath], AuthorityIn(q.authorities, s.runId), q.leafId, Some(decision))
    else if exists l :: Holds(d, q.sessionId, UlwLoopKind, l) && l.continuation.lastProcessedLeafId != Some(q.leafId)
    then exists l :: Holds(d, q.sessionId, UlwLoopKind, l) && LoopAnswer(l, AuthorityIn(q.authorities, l.runId), q.leafId, decision)
    else decision == Quiet
  }

  /** What the start-work branch contributes, given the session's run. */
  lemma StartPart(d: Disk, q: Request, s: Run)
    requires StoreInv(d) && !Behind(d) && SessionReadable(d, q) && Holds(d, q.sessionId, StartWorkKind, s)
    ensures var start := StartDecision(SnapshotFor(d, q), Found(s), q.leafId);
            && s.payload.StartWork?
            && (start.Some? <==> Speaks(s, q))
            && (start.Some? ==> StartAnswer(s, q.plans[s.payload.plan.displayPath], AuthorityIn(q.authorities, s.runId), q.leafId, start))
  {
    var snapshot := SnapshotFor(d, q);
    ResolveIff(d, StartWorkKind, q.sessionId);
    HeldRunIsLoaded(d, q.sessionId, StartWorkKind, s);
    PlanObserved(snapshot.runs, q.plans, s);
    AuthorityRead(d, q, s);
    if s.payload.plan.displayPath in q.plans {
      StartDecisionIs(s, q.plans[s.payload.plan.displayPath], AuthorityIn(q.authorities, s.runId), q.leafId);
    }
  }

  lemma HeldRunIsLoaded(d: Disk, sessionId: string, workflow: Workflow, run: Run)
    requires StoreInv(d) && Holds(d, sessionId, workflow, run)
    ensures run in SessionRuns(d, IndexOf(d).entries, sessionId)
    ensures forall r | r in SessionRuns(d, IndexOf(d).entries, sessionId) && r.runId == run.runId :: r == run
  {
    SessionRunsAre(d, IndexOf(d).entries, sessionId);
  }

  lemma LoopPart(d: Disk, q: Request, l: Run)
    requires StoreInv(d) && !Behind(d) && SessionReadable(d, q) && Holds(d, q.sessionId, UlwLoopKind, l)
    ensures l.payload.UlwLoop?
    ensures LoopAnswer(l, AuthorityIn(q.authorities, l.runId), q.leafId, DecideLoop(l, AuthorityOf(SnapshotFor(d, q), l), q.leafId))
  {
    ResolveIff(d, UlwLoopKind, q.sessionId);
    HeldRunIsLoaded(d, q.sessionId, UlwLoopKind, l);
    AuthorityRead(d, q, l);
    LoopDecision(l, AuthorityIn(q.authorities, l.runId), q.leafId);
  }

  /** On a healthy, readable store the decision about a session is its answer. */
  lemma DecisionIsAnswer(d: Disk, q: Request)
    requires StoreInv(d) && !Behind(d) && SessionReadable(d, q)
    ensures SessionAnswer(d, q, DecisionFor(d, q))
  {
    var snapshot, decision := SnapshotFor(d, q), DecisionFor(d, q);
    var start := ResolveWorkflow(snapshot.index, snapshot.runs, StartWorkKind, q.sessionId);
    var loop := ResolveWorkflow(snapshot.index, snapshot.runs, UlwLoopKind, q.sessionId);
    ResolveIff(d, StartWorkKind, q.sessionId);
    ResolveIff(d, UlwLoopKind, q.sessionId);
    if start.Found? {
      StartPart(d, q, start.run);
    }
    if loop.Found? {
      LoopPart(d, q, loop.run);
    }
  }

  // ---------------------------------------------------------------------------
  // Emission
  // ---------------------------------------------------------------------------

  lemma ContinueCommits(d: Disk, q: Request)
    requires StoreInv(d) && !Behind(d) && SessionReadable(d, q) && LogReadable(d.log)
    requires (forall e | e in d.log :: e.eventId != q.eventId) && DecisionFor(d, q).Continue?
    ensures ContinuationIntent(d, q).outcome.Committed?
  {
    StoreDecision(d, q);
    var decision := DecisionFor(d, q);
    var run, authority := decision.run, AuthorityIn(q.authorities, decision.run.runId);
    DecisionShape(decision, run, authority, q.leafId);
    ContinuePrepared(IndexOf(d), decision, q.leafId, q.eventId, q.at);
    CommitsIff(d, CoordinatorEvent(IndexOf(d), decision, q.eventId, q.at), authority);
  }

  lemma ContinuePrepared(index: Index, decision: Decision, leafId: string, eventId: string, at: string)
    requires decision.Continue? && decision.mutation == ContinuationAttempted(leafId, decision.run.progressRevision)
    requires RunDecodes(decision.run) && decision.run.continuation.lastProcessedLeafId != Some(leafId)
    ensures var stored := PersistedEventForIndex(index, CoordinatorEvent(index, decision, eventId, at));
            && stored.runId == decision.run.runId && !ReceiptBound(stored.mutation)
            && PrepareTransition(index, Some(decision.run), stored, None).Prepared?
  {
    var stored := PersistedEventForIndex(index, CoordinatorEvent(index, decision, eventId, at));
    AttemptIff(decision.run, stored, None);
    TransitionIff(index, decision.run, stored, None);
  }

  /** On a healthy, readable store, under a fresh event id, a continue is handed back exactly when the
      decision is to continue and its commit is not cut. */
  lemma EmitsIff(d: Disk, q: Request, fuse: nat)
    requires StoreInv(d) && !Behind(d) && SessionReadable(d, q) && LogReadable(d.log)
    requires forall e | e in d.log :: e.eventId != q.eventId
    ensures Emits(d, q, fuse) <==> DecisionFor(d, q).Continue? && fuse >= 3
  {
    if DecisionFor(d, q).Continue? {
      ContinueCommits(d, q);
    }
  }

  /** An open loop is never forgotten: on a fresh leaf, with nothing exhausted, no start-work run in the way,
      an open goal whose first open criterion is not proved and fewer than two attempts since the last
      progress, the session is continued. */
  lemma OpenLoopIsContinued(d: Disk, q: Request, fuse: nat, l: Run, goal: Goal)
    requires StoreInv(d) && !Behind(d) && SessionReadable(d, q) && LogReadable(d.log)
    requires forall e | e in d.log :: e.eventId != q.eventId
    requires Holds(d, q.sessionId, UlwLoopKind, l) && l.continuation.lastProcessedLeafId != Some(q.leafId)
    requires !exists s :: Holds(d, q.sessionId, StartWorkKind, s)
    requires var authority := AuthorityIn(q.authorities, l.runId);
             !Exhausted(l, authority) && OpenGoal(l, goal) && !CriterionProved(l, goal, authority) && !AtBound(l)
    ensures DecisionFor(d, q) == Continue(l, ContinuationAttempted(q.leafId, l.progressRevision))
    ensures Emits(d, q, fuse) <==> fuse >= 3
  {
    ResolveIff(d, StartWorkKind, q.sessionId);
    ResolveIff(d, UlwLoopKind, q.sessionId);
    HeldRunIsLoaded(d, q.sessionId, UlwLoopKind, l);
    AuthorityRead(d, q, l);
    assert RunDecodes(l);
    OpenLoop(l, AuthorityIn(q.authorities, l.runId), q.leafId, goal);
    EmitsIff(d, q, fuse);
  }

  /** The event of a decision is built on the run and the index it was decided on; it is bound to a head and a
      generation exactly when it settles something for a version 2 run. */
  lemma EventOfDecision(index: Index, decision: Decision, eventId: string, at: string)
    requires !decision.Quiet?
    ensures var e, run := CoordinatorEvent(index, decision, eventId, at), decision.run;
            && e.eventId == eventId && e.at == at && e.mutation == decision.mutation
            && e.runId == run.runId && e.workflow == run.Workflow() && e.sequence == index.revision + 1
            && e.expected == Expected(index.revision, Some(run.revision), Some(run.owner.sessionId), Some(run.owner.epoch))
            && (e.binding.Bound? <==> run.version.V2?)
            && (e.binding.Bound? ==>
                  && !e.binding.legacyHeadUnbound
                  && (decision.Settled? ==>
                        e.binding.expectedHead == run.version.expectedHead && e.binding.taskGeneration == Some(decision.taskGeneration))
                  && (!decision.Settled? ==> e.binding.expectedHead == None && e.binding.taskGeneration == None))
  {
  }
}
