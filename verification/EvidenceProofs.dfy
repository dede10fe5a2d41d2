/** No completion without evidence: what a passed criterion and a completed run prove about the ledger. */
module EvidenceProofs {
  import opened Prelude
  import opened Domain
  import opened WorkflowControl
  import opened ReceiptAuthority
  import opened AuthorityProofs
  import opened StateTransition

  /** The ledger holds an acceptance for this criterion at the captured revision and commit. */
  ghost predicate Evidenced(ledger: set<Acceptance>, c: Criterion) {
    exists a | a in ledger ::
      a.taskId == Some(c.id) && c.captureRevision == Some(a.runRevision) && c.captureCommit == Some(a.captureCommit)
  }

  ghost predicate PassesEvidenced(ledger: set<Acceptance>, criteria: seq<Criterion>) {
    forall c | c in criteria && c.status.CriterionPass? :: Evidenced(ledger, c)
  }

  ghost predicate RunEvidenced(ledger: set<Acceptance>, run: Run) {
    run.payload.UlwLoop? ==> forall g | g in run.payload.goals :: PassesEvidenced(ledger, g.criteria)
  }

  ghost predicate ReadFrom(authority: Option<Authority>, ledger: set<Acceptance>) {
    authority.Some? ==> forall a | a in authority.value.accepted :: a in ledger
  }

  lemma SettleKeepsEvidence(run: Run, event: Event, authority: Option<Authority>, ledger: set<Acceptance>)
    requires event.mutation.CriterionSettled? && SettleCriterion(run, event, authority).Some?
    requires RunEvidenced(ledger, run) && ReadFrom(authority, ledger)
    ensures RunEvidenced(ledger, SettleCriterion(run, event, authority).value)
  {
    var m, next := event.mutation, SettleCriterion(run, event, authority).value;
    if next != run {
      var accepted := CurrentAcceptance(run, authority.value, m.criterionId).value;
      assert accepted in ledger && accepted.taskId == Some(m.criterionId);
      SettledEvidence(run.payload.goals, m, accepted, ledger);
    }
  }

  lemma SettledEvidence(goals: seq<Goal>, m: Mutation, accepted: Acceptance, ledger: set<Acceptance>)
    requires m.CriterionSettled? && accepted in ledger
    requires accepted.taskId == Some(m.criterionId)
    requires accepted.runRevision == m.captureRevision && accepted.captureCommit == m.captureCommit
    requires forall g | g in goals :: PassesEvidenced(ledger, g.criteria)
    ensures forall g | g in SettledGoals(goals, m) :: PassesEvidenced(ledger, g.criteria)
  {
    var after := SettledGoals(goals, m);
    forall g, c | g in after && c in g.criteria && c.status.CriterionPass? ensures Evidenced(ledger, c) {
      var i :| 0 <= i < |after| && after[i] == g;
      var k :| 0 <= k < |g.criteria| && g.criteria[k] == c;
      var prior := goals[i].criteria[k];
      assert goals[i] in goals && prior in goals[i].criteria;
      assert PassesEvidenced(ledger, goals[i].criteria);
    }
  }

  lemma SteerKeepsEvidence(goals: seq<Goal>, active: string, m: Mutation, ledger: set<Acceptance>)
    requires m.WorkflowSteered?
    requires forall g | g in goals :: PassesEvidenced(ledger, g.criteria)
    ensures forall g | g in SteeredGoals(goals, active, m) :: PassesEvidenced(ledger, g.criteria)
  {
    var after := SteeredGoals(goals, active, m);
    forall g | g in after ensures PassesEvidenced(ledger, g.criteria) {
      var i :| 0 <= i < |after| && after[i] == g;
      assert PassesEvidenced(ledger, goals[i].criteria);
      assert forall c | c in g.criteria && c.status.CriterionPass? :: c in goals[i].criteria;
    }
  }

  lemma CycleKeepsEvidence(run: Run, goalId: string, ledger: set<Acceptance>)
    requires run.payload.UlwLoop? && StartGoalCycle(run, goalId).Some? && RunEvidenced(ledger, run)
    ensures RunEvidenced(ledger, StartGoalCycle(run, goalId).value)
  {
    var after := StartGoalCycle(run, goalId).value.payload.goals;
    forall g | g in after ensures PassesEvidenced(ledger, g.criteria) {
      var i :| 0 <= i < |after| && after[i] == g;
      assert g.criteria == run.payload.goals[i].criteria;
    }
  }

  lemma FailureKeepsEvidence(
    run: Run, goalId: string, criterionId: string, fingerprint: string, ledger: set<Acceptance>)
    requires run.payload.UlwLoop? && RunEvidenced(ledger, run)
    requires RecordCriterionFailure(run, goalId, criterionId, fingerprint).Some?
    ensures RunEvidenced(ledger, RecordCriterionFailure(run, goalId, criterionId, fingerprint).value)
  {
    var goals := run.payload.goals;
    var after := RecordCriterionFailure(run, goalId, criterionId, fingerprint).value.payload.goals;
    var goal := FindGoal(goals, goalId).value;
    var repeated := FindCriterion(goal.criteria, criterionId).value.failureFingerprint == Some(fingerprint);
    var failed := FailCriteria(goal.criteria, criterionId, fingerprint, repeated);
    assert PassesEvidenced(ledger, goal.criteria);
    assert PassesEvidenced(ledger, failed) by {
      forall c | c in failed && c.status.CriterionPass? ensures c in goal.criteria {
        var k :| 0 <= k < |failed| && failed[k] == c;
        assert c == goal.criteria[k];
      }
    }
    forall g | g in after ensures PassesEvidenced(ledger, g.criteria) {
      var i :| 0 <= i < |after| && after[i] == g;
      assert g.criteria == failed || g == goals[i];
    }
  }

  /** No reducer, legacy events included, marks a criterion passed without an acceptance in the ledger. */
  lemma ControlKeepsEvidence(run: Run, event: Event, authority: Option<Authority>, ledger: set<Acceptance>)
    requires ControlRun(run, event, authority).Some?
    requires RunEvidenced(ledger, run) && ReadFrom(authority, ledger)
    ensures RunEvidenced(ledger, ControlRun(run, event, authority).value)
  {
    var legacy := event.binding.Bound? && event.binding.legacyHeadUnbound;
    match event.mutation
    case CriterionSettled(_, _, _, _, _, _) => SettleKeepsEvidence(run, event, authority, ledger);
    case WorkflowSteered(_, _) =>
      SteerKeepsEvidence(run.payload.goals, run.payload.activeGoalId.value, event.mutation, ledger);
    case GoalCycleStarted(goalId) =>
      if !legacy {
        CycleKeepsEvidence(run, goalId, ledger);
      }
    case CriterionFailureRecorded(goalId, criterionId, fingerprint) =>
      if !legacy {
        FailureKeepsEvidence(run, goalId, criterionId, fingerprint, ledger);
      }
    case _ =>
  }

  // ---------------------------------------------------------------------------
  // Whole histories
  // ---------------------------------------------------------------------------

  datatype Move = Move(event: Event, authority: Option<Authority>)

  /** The run after every move was accepted in turn, or None if one was refused. */
  function Play(run: Run, moves: seq<Move>): Option<Run> {
    if moves == [] then Some(run)
    else
      match Play(run, moves[..|moves| - 1])
      case None => None
      case Some(prior) => ControlRun(prior, moves[|moves| - 1].event, moves[|moves| - 1].authority)
  }

  /** Over any accepted history from a run without unproved passes, with receipts read from an
      append-only ledger, every passed criterion has its acceptance in that ledger. */
  lemma {:induction false} EveryPassIsEvidenced(run: Run, moves: seq<Move>, ledger: set<Acceptance>)
    requires RunEvidenced(ledger, run)
    requires forall m | m in moves :: ReadFrom(m.authority, ledger)
    requires Play(run, moves).Some?
    ensures RunEvidenced(ledger, Play(run, moves).value)
  {
    if moves != [] {
      EveryPassIsEvidenced(run, moves[..|moves| - 1], ledger);
      var last := moves[|moves| - 1];
      ControlKeepsEvidence(Play(run, moves[..|moves| - 1]).value, last.event, last.authority, ledger);
    }
  }

  // ---------------------------------------------------------------------------
  // The completing step
  // ---------------------------------------------------------------------------

  /** A step that completes a start-work run has, for each plan task, such an acceptance, and the one
      for the last task is of the current generation and attempt; a step that completes a loop leaves
      every criterion passed. */
  lemma CompletionNeedsEvidence(run: Run, event: Event, authority: Option<Authority>)
    requires ControlRun(run, event, authority).Some?
    requires !run.payload.status.Completed?
    requires ControlRun(run, event, authority).value.payload.status.Completed?
    ensures authority.Some?
    ensures run.payload.StartWork? ==>
              && run.payload.plan.taskIds != []
              && (forall t | t in run.payload.plan.taskIds ::
                    exists a | a in authority.value.accepted :: Proves(a, run, t))
              && (exists a | a in authority.value.accepted ::
                    && Proves(a, run, run.payload.plan.taskIds[|run.payload.plan.taskIds| - 1])
                    && a.taskGeneration == authority.value.taskGeneration && a.attempt == run.progressRevision)
    ensures run.payload.UlwLoop? ==>
              forall g | g in ControlRun(run, event, authority).value.payload.goals :: AllPass(g)
  {
    if run.payload.StartWork? {
      var taskIds := run.payload.plan.taskIds;
      assert event.mutation.WorkflowTerminal?;
      var last := CurrentAcceptance(run, authority.value, taskIds[|taskIds| - 1]).value;
      assert last in authority.value.accepted && Proves(last, run, taskIds[|taskIds| - 1]);
      forall t | t in taskIds ensures exists a | a in authority.value.accepted :: Proves(a, run, t) {
        var a := LatestAcceptance(run, authority.value, t).value;
        assert a in authority.value.accepted && Proves(a, run, t);
      }
    }
  }
}
