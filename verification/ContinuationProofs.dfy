/** Every continuation decision is one the reducers accept, and there are boundedly many of them. */
module ContinuationProofs {
  import opened Prelude
  import opened Domain
  import opened WorkflowControl
  import opened ReceiptAuthority
  import opened StateTransition
  import opened TransactionStore
  import opened StoreProofs
  import opened TransitionProofs
  import ReducerProofs
  import opened Continuation

  // ---------------------------------------------------------------------------
  // Where a decision comes from
  // ---------------------------------------------------------------------------

  /** The decision was taken on `run`, with this authority, by the branch of its workflow. */
  ghost predicate DecidedOn(decision: Decision, run: Run, authority: Authority, leafId: string) {
    if run.payload.StartWork?
    then exists plan :: DecideStart(run, plan, authority, leafId) == Some(decision)
    else DecideLoop(run, authority, leafId) == decision
  }

  lemma ResolvedRun(index: Index, runs: seq<Run>, workflow: Workflow, sessionId: string)
    requires ResolveWorkflow(index, runs, workflow, sessionId).Found?
    ensures var run := ResolveWorkflow(index, runs, workflow, sessionId).run;
            run in runs && run.Workflow() == workflow && run.owner.sessionId == sessionId
  {
  }

  lemma StartDecisionRun(snapshot: Snapshot, start: Resolved, leafId: string)
    requires StartDecision(snapshot, start, leafId).Some?
    ensures var decision := StartDecision(snapshot, start, leafId).value;
            && start.Found? && !decision.Quiet? && decision.run == start.run && start.run.payload.StartWork?
            && DecidedOn(decision, start.run, AuthorityOf(snapshot, start.run), leafId)
  {
  }

  lemma LoopDecisionRun(run: Run, authority: Authority, leafId: string)
    requires run.payload.UlwLoop? && !DecideLoop(run, authority, leafId).Quiet?
    ensures DecideLoop(run, authority, leafId).run == run
  {
  }

  /** A decision speaks of a run the session owns, on a leaf that run has not processed yet. */
  lemma DecisionOrigin(snapshot: Snapshot, sessionId: string, leafId: string)
    requires !DecideContinuation(snapshot, sessionId, leafId).Quiet?
    ensures var decision := DecideContinuation(snapshot, sessionId, leafId);
            && decision.run in snapshot.runs
            && decision.run.owner.sessionId == sessionId
            && decision.run.continuation.lastProcessedLeafId != Some(leafId)
            && DecidedOn(decision, decision.run, AuthorityOf(snapshot, decision.run), leafId)
  {
    var start := ResolveWorkflow(snapshot.index, snapshot.runs, StartWorkKind, sessionId);
    var loop := ResolveWorkflow(snapshot.index, snapshot.runs, UlwLoopKind, sessionId);
    if StartDecision(snapshot, start, leafId).Some? {
      StartDecisionRun(snapshot, start, leafId);
      ResolvedRun(snapshot.index, snapshot.runs, StartWorkKind, sessionId);
    } else {
      ResolvedRun(snapshot.index, snapshot.runs, UlwLoopKind, sessionId);
      LoopDecisionRun(loop.run, AuthorityOf(snapshot, loop.run), leafId);
    }
  }

  // ---------------------------------------------------------------------------
  // No decision is refused
  // ---------------------------------------------------------------------------

  /** The reducer accepts what each branch of the decision proposes. */
  lemma ReducerAcceptsStart(run: Run, plan: PlanSnapshot, authority: Authority, leafId: string, event: Event)
    requires run.payload.StartWork? && run.version.V2?
    requires run.continuation.lastProcessedLeafId != Some(leafId)
    requires DecideStart(run, plan, authority, leafId).Some?
    requires var decision := DecideStart(run, plan, authority, leafId).value;
             && event.mutation == decision.mutation
             && event.binding.Bound? && !event.binding.legacyHeadUnbound
             && (decision.Settled? ==> event.binding.taskGeneration == Some(decision.taskGeneration))
    ensures ControlRun(run, event, AuthorityFor(event.mutation, Some(run), authority)).Some?
  {
  }

  /** The first criterion that has not passed is the one its id finds. */
  lemma PendingIsFound(run: Run, goal: Goal, pending: Criterion)
    requires RunDecodes(run) && run.payload.UlwLoop? && goal in run.payload.goals && pending in goal.criteria
    ensures FindCriterion(goal.criteria, pending.id) == Some(pending)
  {
    CriteriaDistinctInGoal(run.payload.goals, goal);
    var found := FindCriterion(goal.criteria, pending.id);
    assert found.Some?;
    FoundCriterionUnique(goal.criteria, pending.id, pending);
  }

  /** What the loop branch knows when it settles a criterion. */
  lemma LoopSettlement(run: Run, authority: Authority, leafId: string)
    requires run.payload.UlwLoop?
    requires DecideLoop(run, authority, leafId).Settled?
    requires DecideLoop(run, authority, leafId).mutation.CriterionSettled?
    ensures var decision := DecideLoop(run, authority, leafId);
            var m := decision.mutation;
            && FindGoal(run.payload.goals, m.goalId).Some?
            && var goal := FindGoal(run.payload.goals, m.goalId).value;
            && PendingCriterion(goal).Some? && PendingCriterion(goal).value.id == m.criterionId
            && CurrentAcceptance(run, authority, m.criterionId).Some?
            && var accepted := CurrentAcceptance(run, authority, m.criterionId).value;
            && m.acceptanceId == Some(accepted.idempotencyKey)
            && m.evidenceRef == accepted.receiptPath
            && m.captureRevision == accepted.runRevision && m.captureCommit == accepted.captureCommit
            && accepted.taskGeneration == decision.taskGeneration == authority.taskGeneration
  {
  }

  lemma ReducerAcceptsLoop(run: Run, authority: Authority, leafId: string, event: Event)
    requires run.payload.UlwLoop? && run.version.V2? && RunDecodes(run)
    requires run.continuation.lastProcessedLeafId != Some(leafId)
    requires var decision := DecideLoop(run, authority, leafId);
             && !decision.Quiet?
             && event.mutation == decision.mutation
             && event.binding.Bound? && !event.binding.legacyHeadUnbound
             && (decision.Settled? ==> event.binding.taskGeneration == Some(decision.taskGeneration))
    ensures ControlRun(run, event, AuthorityFor(event.mutation, Some(run), authority)).Some?
  {
    if event.mutation.CriterionSettled? {
      LoopSettles(run, authority, leafId, event);
    } else {
      LoopOtherwise(run, authority, leafId, event);
    }
  }

  lemma LoopSettles(run: Run, authority: Authority, leafId: string, event: Event)
    requires run.payload.UlwLoop? && RunDecodes(run) && event.mutation.CriterionSettled?
    requires var decision := DecideLoop(run, authority, leafId);
             decision.Settled? && event.mutation == decision.mutation && event.binding.Bound?
             && !event.binding.legacyHeadUnbound && event.binding.taskGeneration == Some(decision.taskGeneration)
    ensures ControlRun(run, event, Some(authority)).Some?
  {
    LoopSettlement(run, authority, leafId);
    var goal := FindGoal(run.payload.goals, event.mutation.goalId).value;
    PendingSettles(run, event, authority, goal, PendingCriterion(goal).value);
  }

  lemma PendingSettles(run: Run, event: Event, authority: Authority, goal: Goal, pending: Criterion)
    requires run.payload.UlwLoop? && RunDecodes(run) && event.mutation.CriterionSettled?
    requires event.binding.Bound? && !event.binding.legacyHeadUnbound
    requires FindGoal(run.payload.goals, event.mutation.goalId) == Some(goal)
    requires PendingCriterion(goal) == Some(pending) && pending.id == event.mutation.criterionId
    requires CurrentAcceptance(run, authority, event.mutation.criterionId).Some?
    requires var accepted := CurrentAcceptance(run, authority, event.mutation.criterionId).value;
             && event.mutation.acceptanceId == Some(accepted.idempotencyKey)
             && event.binding.taskGeneration == Some(accepted.taskGeneration)
             && event.mutation.captureRevision == accepted.runRevision
             && event.mutation.captureCommit == accepted.captureCommit
    ensures ControlRun(run, event, Some(authority)).Some?
  {
    PendingIsFound(run, goal, pending);
    SettlementAccepted(run, event, authority, goal, pending);
    ReducerProofs.SettleReduces(run, event, Some(authority));
  }

  lemma SettlementAccepted(run: Run, event: Event, authority: Authority, goal: Goal, pending: Criterion)
    requires run.payload.UlwLoop? && event.mutation.CriterionSettled?
    requires event.binding.Bound? && !event.binding.legacyHeadUnbound
    requires FindGoal(run.payload.goals, event.mutation.goalId) == Some(goal)
    requires FindCriterion(goal.criteria, event.mutation.criterionId) == Some(pending)
    requires !pending.status.CriterionPass?
    requires CurrentAcceptance(run, authority, event.mutation.criterionId).Some?
    requires var accepted := CurrentAcceptance(run, authority, event.mutation.criterionId).value;
             && event.mutation.acceptanceId == Some(accepted.idempotencyKey)
             && event.binding.taskGeneration == Some(accepted.taskGeneration)
             && event.mutation.captureRevision == accepted.runRevision
             && event.mutation.captureCommit == accepted.captureCommit
    ensures SettleCriterion(run, event, Some(authority)) == Some(SettledRun(run, event.mutation))
  {
  }

  lemma LoopOtherwise(run: Run, authority: Authority, leafId: string, event: Event)
    requires run.payload.UlwLoop?
    requires run.continuation.lastProcessedLeafId != Some(leafId)
    requires var decision := DecideLoop(run, authority, leafId);
             && !decision.Quiet? && !decision.mutation.CriterionSettled?
             && event.mutation == decision.mutation
             && event.binding.Bound? && !event.binding.legacyHeadUnbound
             && (decision.Settled? ==> event.binding.taskGeneration == Some(decision.taskGeneration))
    ensures ControlRun(run, event, AuthorityFor(event.mutation, Some(run), authority)).Some?
  {
  }

  /** The compare-and-swap checks pass for the event the coordinator builds from the run itself. */
  lemma ExpectedChecksPass(index: Index, run: Run, decision: Decision, eventId: string, at: string)
    requires !decision.Quiet? && decision.run == run
    requires run.version.V2? ==> TaskScoped(decision.mutation) == decision.Settled?
    ensures CheckExpected(run, CoordinatorEvent(index, decision, eventId, at)).None?
  {
  }

  /** Settling mutations are exactly the task-scoped ones the coordinator proposes. */
  lemma DecisionShape(decision: Decision, run: Run, authority: Authority, leafId: string)
    requires DecidedOn(decision, run, authority, leafId) && !decision.Quiet?
    ensures decision.run == run
    ensures TaskScoped(decision.mutation) == ReceiptBound(decision.mutation) == decision.Settled?
    ensures decision.Settled? ==> decision.taskGeneration == authority.taskGeneration > 0
    ensures decision.Continue? ==>
              && decision.mutation == ContinuationAttempted(leafId, run.progressRevision)
              && run.payload.status.Active? && !HasReachedNoProgressBound(run)
    ensures decision.StuckNow? ==>
              decision.mutation == ContinuationStuck(leafId) && HasReachedNoProgressBound(run)
  {
    if run.payload.StartWork? {
      var plan :| DecideStart(run, plan, authority, leafId) == Some(decision);
    }
  }

  /** Whatever a decision proposes for a version 2 run, the transition on the same index, run and
      authority accepts: settling, failing, stopping and continuing alike. */
  lemma NoDecisionRefused(
    index: Index, run: Run, authority: Authority, leafId: string, decision: Decision, eventId: string, at: string)
    requires DecidedOn(decision, run, authority, leafId) && !decision.Quiet?
    requires run.version.V2? && RunDecodes(run)
    requires run.continuation.lastProcessedLeafId != Some(leafId)
    ensures var event := CoordinatorEvent(index, decision, eventId, at);
            PrepareTransition(index, Some(run), event, AuthorityFor(event.mutation, Some(run), authority)).Prepared?
  {
    DecisionShape(decision, run, authority, leafId);
    var event := CoordinatorEvent(index, decision, eventId, at);
    ExpectedChecksPass(index, run, decision, eventId, at);
    if run.payload.StartWork? {
      var plan :| DecideStart(run, plan, authority, leafId) == Some(decision);
      ReducerAcceptsStart(run, plan, authority, leafId, event);
    } else {
      ReducerAcceptsLoop(run, authority, leafId, event);
    }
    PreparedIff(index, run, event, AuthorityFor(event.mutation, Some(run), authority));
  }

  /** A version 1 run has no current acceptances, so all a decision can settle for it is that a task was
      rejected too often. */
  lemma LegacySettlement(run: Run, authority: Authority, leafId: string, decision: Decision)
    requires DecidedOn(decision, run, authority, leafId) && run.version.V1? && decision.Settled?
    ensures ExhaustedTaskId(run, authority).Some?
    ensures decision.mutation == WorkflowTerminal(TerminalFailed, None, ExhaustedTaskId(run, authority))
  {
    if run.payload.StartWork? {
      var plan :| DecideStart(run, plan, authority, leafId) == Some(decision);
    }
  }

  /** A decision about a version 1 run is refused if and only if it settles something, unless the index has
      been migrated and the generation is 1: the event as the store keeps it then claims generation 1, and
      before migration it claims none. */
  lemma LegacyDecisionRefusedIff(
    index: Index, run: Run, authority: Authority, leafId: string, decision: Decision, eventId: string, at: string)
    requires DecidedOn(decision, run, authority, leafId) && !decision.Quiet?
    requires run.version.V1? && RunDecodes(run)
    requires run.continuation.lastProcessedLeafId != Some(leafId)
    ensures var event := PersistedEventForIndex(index, CoordinatorEvent(index, decision, eventId, at));
            PrepareTransition(index, Some(run), event, AuthorityFor(event.mutation, Some(run), authority)).Refused?
            <==> decision.Settled? && (index.migrationRevision.None? || authority.taskGeneration != 1)
  {
    DecisionShape(decision, run, authority, leafId);
    var event := PersistedEventForIndex(index, CoordinatorEvent(index, decision, eventId, at));
    LegacyEvent(index, run, decision, eventId, at);
    if decision.Settled? {
      LegacySettlement(run, authority, leafId, decision);
      LegacyEnding(run, event, authority);
    } else {
      LegacyContinuation(run, event, leafId, decision);
    }
    PreparedIff(index, run, event, AuthorityFor(event.mutation, Some(run), authority));
  }

  lemma LegacyEvent(index: Index, run: Run, decision: Decision, eventId: string, at: string)
    requires run.version.V1? && !decision.Quiet? && decision.run == run && !decision.mutation.RunCreated?
    requires TaskScoped(decision.mutation) == ReceiptBound(decision.mutation) == decision.Settled?
    ensures var event := PersistedEventForIndex(index, CoordinatorEvent(index, decision, eventId, at));
            && CheckExpected(run, event).None? && event.mutation == decision.mutation
            && event.expected.indexRevision == index.revision && event.sequence == index.revision + 1
            && event.runId == run.runId && event.workflow == run.Workflow()
            && event.binding == (if index.migrationRevision.None? then Unbound
                                 else Bound(None, if decision.Settled? then Some(1) else None, false))
  {
  }

  lemma LegacyEnding(run: Run, event: Event, authority: Authority)
    requires ExhaustedTaskId(run, authority).Some?
    requires event.mutation == WorkflowTerminal(TerminalFailed, None, ExhaustedTaskId(run, authority))
    requires event.binding.Unbound? || event.binding == Bound(None, Some(1), false)
    ensures ControlRun(run, event, Some(authority)).None? <==> event.binding.Unbound? || authority.taskGeneration != 1
  {
    assert ControlRun(run, event, Some(authority)) == TerminalRun(run, event, Some(authority));
  }

  lemma LegacyContinuation(run: Run, event: Event, leafId: string, decision: Decision)
    requires decision.Continue? || decision.StuckNow?
    requires event.mutation == decision.mutation && run.continuation.lastProcessedLeafId != Some(leafId)
    requires decision.Continue? ==> decision.mutation == ContinuationAttempted(leafId, run.progressRevision)
    requires decision.StuckNow? ==> decision.mutation == ContinuationStuck(leafId) && HasReachedNoProgressBound(run)
    ensures ControlRun(run, event, None).Some?
  {
  }

  // ---------------------------------------------------------------------------
  // What the coordinator stores decodes again
  // ---------------------------------------------------------------------------

  lemma CompletionIdsDistinct(run: Run, authority: Authority)
    requires run.payload.StartWork? && Distinct(run.payload.plan.taskIds) && DistinctKeys(authority.accepted)
    requires StartCompletionAcceptanceIds(run, authority).Some?
    ensures Distinct(StartCompletionAcceptanceIds(run, authority).value)
  {
    var taskIds := run.payload.plan.taskIds;
    var ids := StartCompletionAcceptanceIds(run, authority).value;
    forall i, j | 0 <= i < j < |ids| ensures ids[i] != ids[j] {
      var a := LatestAcceptance(run, authority, taskIds[i]).value;
      var b := LatestAcceptance(run, authority, taskIds[j]).value;
      assert a.taskId != b.taskId;
      var k :| 0 <= k < |authority.accepted| && authority.accepted[k] == a;
      var l :| 0 <= l < |authority.accepted| && authority.accepted[l] == b;
      assert k != l;
    }
  }

  /** The event the coordinator appends can be read back, so the log stays readable. */
  lemma CoordinatorEventDecodes(
    index: Index, run: Run, authority: Authority, leafId: string, decision: Decision, eventId: string, at: string)
    requires DecidedOn(decision, run, authority, leafId) && !decision.Quiet?
    requires RunDecodes(run) && DistinctKeys(authority.accepted)
    ensures EventDecodes(CoordinatorEvent(index, decision, eventId, at))
  {
    DecisionShape(decision, run, authority, leafId);
    if run.payload.StartWork? {
      var plan :| DecideStart(run, plan, authority, leafId) == Some(decision);
      if StartCompletionAcceptanceIds(run, authority).Some? {
        CompletionIdsDistinct(run, authority);
      }
    }
  }

  // ---------------------------------------------------------------------------
  // On the store
  // ---------------------------------------------------------------------------

  lemma {:induction false} SessionRunsAre(d: Disk, entries: seq<IndexEntry>, sessionId: string)
    ensures forall r | r in SessionRuns(d, entries, sessionId) ::
              exists e | e in entries :: e.sessionId == sessionId && e.runId in d.runs && r == d.runs[e.runId]
    ensures forall e | e in entries && e.sessionId == sessionId && e.runId in d.runs ::
              d.runs[e.runId] in SessionRuns(d, entries, sessionId)
  {
    if entries != [] {
      SessionRunsAre(d, entries[1..], sessionId);
      forall r | r in SessionRuns(d, entries, sessionId)
        ensures exists e | e in entries :: e.sessionId == sessionId && e.runId in d.runs && r == d.runs[e.runId]
      {
        if r in SessionRuns(d, entries[1..], sessionId) {
          var e :| e in entries[1..] && e.sessionId == sessionId && e.runId in d.runs && r == d.runs[e.runId];
          assert e in entries;
        } else {
          assert entries[0] in entries;
        }
      }
    }
  }

  lemma ProjectedEntryAgrees(e: IndexEntry, run: Run)
    requires EntryProjects(e, run)
    ensures e.workflow == run.Workflow() && run.owner == Owner(e.sessionId, e.ownerEpoch)
    ensures e.runRevision == run.revision && e.transactionRevision == run.transactionRevision && HintMatches(e, run)
  {
  }

  /** On a healthy store resolution never reports a conflict: the index says nothing about a run that
      the run itself does not say. */
  lemma ResolveNeverConflicts(d: Disk, workflow: Workflow, sessionId: string)
    requires StoreInv(d) && !Behind(d)
    ensures !ResolveWorkflow(IndexOf(d), SessionRuns(d, IndexOf(d).entries, sessionId), workflow, sessionId).Conflict?
  {
    var entries := IndexOf(d).entries;
    var runs := SessionRuns(d, entries, sessionId);
    SessionRunsAre(d, entries, sessionId);
    var found := FirstWhere(entries, (e: IndexEntry) => e.workflow == workflow && e.sessionId == sessionId);
    if found.Some? {
      var entry := found.value;
      assert entry.runId in d.runs && EntryProjects(entry, d.runs[entry.runId]);
      ProjectedEntryAgrees(entry, d.runs[entry.runId]);
      assert d.runs[entry.runId] in runs;
      forall r | r in runs && r.runId == entry.runId ensures r == d.runs[entry.runId] {
        var e :| e in entries && e.sessionId == sessionId && e.runId in d.runs && r == d.runs[e.runId];
      }
      var run := FirstWhere(runs, (r: Run) => r.runId == entry.runId);
      assert run.Some?;
    }
  }

  lemma AuthorityRead(d: Disk, q: Request, run: Run)
    requires run in SnapshotFor(d, q).runs
    ensures AuthorityOf(SnapshotFor(d, q), run) == AuthorityIn(q.authorities, run.runId)
  {
    var snapshot := SnapshotFor(d, q);
    var i :| 0 <= i < |snapshot.runs| && snapshot.runs[i] == run;
    assert snapshot.authorities[i] in snapshot.authorities;
    var found := FirstWhere(snapshot.authorities, (a: AuthorityObservation) => a.runId == run.runId);
    assert found.Some?;
    var k :| 0 <= k < |snapshot.authorities| && snapshot.authorities[k] == found.value;
    assert snapshot.authorities[k] == AuthorityObservation(snapshot.runs[k].runId, AuthorityIn(q.authorities, snapshot.runs[k].runId));
  }

  /** A decision on the store is about the stored run, with the authority read for it. */
  lemma StoreDecision(d: Disk, q: Request)
    requires StoreInv(d) && SessionReadable(d, q) && !DecisionFor(d, q).Quiet?
    ensures var decision := DecisionFor(d, q);
            && RunOf(d, decision.run.runId) == Some(decision.run)
            && decision.run.owner.sessionId == q.sessionId
            && RunDecodes(decision.run)
            && decision.run.continuation.lastProcessedLeafId != Some(q.leafId)
            && DecidedOn(decision, decision.run, AuthorityIn(q.authorities, decision.run.runId), q.leafId)
  {
    var decision := DecisionFor(d, q);
    DecisionOrigin(SnapshotFor(d, q), q.sessionId, q.leafId);
    SessionRunsAre(d, IndexOf(d).entries, q.sessionId);
    AuthorityRead(d, q, decision.run);
  }

  /** On a healthy, readable store every decision about a version 2 run, under a fresh event id, commits. */
  lemma HealthyStoreCommitsDecisions(d: Disk, q: Request)
    requires StoreInv(d) && !Behind(d)
    requires SessionReadable(d, q) && LogReadable(d.log)
    requires forall e | e in d.log :: e.eventId != q.eventId
    requires !DecisionFor(d, q).Quiet? && DecisionFor(d, q).run.version.V2?
    ensures ContinuationIntent(d, q).outcome.Committed?
  {
    StoreDecision(d, q);
    var decision := DecisionFor(d, q);
    var authority := AuthorityIn(q.authorities, decision.run.runId);
    NoDecisionRefused(IndexOf(d), decision.run, authority, q.leafId, decision, q.eventId, q.at);
    var event := CoordinatorEvent(IndexOf(d), decision, q.eventId, q.at);
    FreshEventCommits(d, event, authority);
  }

  lemma FreshEventCommits(d: Disk, event: Event, receipts: Authority)
    requires IndexReadable(d) && LogReadable(d.log) && RunReadable(d, event.runId)
    requires |d.log| == IndexOf(d).revision && event.binding.Bound?
    requires forall e | e in d.log :: e.eventId != event.eventId
    requires PrepareOn(d, event, receipts).Prepared?
    ensures CommitIntent(d, event, receipts).outcome.Committed?
  {
    assert FirstWhere(d.log, (e: Event) => e.eventId == event.eventId).None?;
  }
}
