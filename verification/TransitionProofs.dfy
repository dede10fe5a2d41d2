/** What an accepted transition does to decodability, to terminal runs and to the keys of the index. */
module TransitionProofs {
  import opened Prelude
  import opened Domain
  import opened WorkflowControl
  import opened ReceiptAuthority
  import opened StateTransition
  import opened TransactionStore
  import opened StoreProofs

  // ---------------------------------------------------------------------------
  // Terminal runs
  // ---------------------------------------------------------------------------

  /** A run keeps its id and workflow; only an adoption changes its owner; and a terminal run stays
      terminal exactly under events other than a stuck report. */
  ghost predicate StatusStep(run: Run, next: Run, m: Mutation) {
    && next.payload.StartWork? == run.payload.StartWork?
    && next.runId == run.runId
    && (!m.OwnerAdopted? ==> next.owner == run.owner)
    && (run.payload.status.Terminal() ==> next.payload.status.Terminal() != m.ContinuationStuck?)
  }

  lemma OwnerCommandStatus(run: Run, command: Command, m: Mutation)
    requires RunDecodes(run) && ReduceWorkflowControl(run, command).Some?
    requires !m.ContinuationStuck? && m.OwnerAdopted? == command.AdoptRun?
    ensures StatusStep(run, ReduceWorkflowControl(run, command).value, m)
  {
  }

  lemma SteerStatus(run: Run, m: Mutation)
    requires m.WorkflowSteered? && Steer(run, m).Some?
    ensures StatusStep(run, Steer(run, m).value, m)
  {
  }

  lemma SettleStatus(run: Run, event: Event, authority: Option<Authority>)
    requires event.mutation.CriterionSettled? && SettleCriterion(run, event, authority).Some?
    ensures StatusStep(run, SettleCriterion(run, event, authority).value, event.mutation)
  {
  }

  lemma EvidenceStatus(run: Run, event: Event, authority: Option<Authority>)
    requires event.mutation.TaskEvidenceAccepted? && AcceptTaskEvidence(run, event, authority).Some?
    ensures StatusStep(run, AcceptTaskEvidence(run, event, authority).value, event.mutation)
  {
  }

  lemma EndingStatus(run: Run, event: Event, authority: Option<Authority>)
    requires event.mutation.WorkflowTerminal? && TerminalRun(run, event, authority).Some?
    ensures StatusStep(run, TerminalRun(run, event, authority).value, event.mutation)
  {
  }

  lemma ContinuationStatus(run: Run, m: Mutation)
    ensures m.ContinuationAttempted? && AttemptContinuation(run, m).Some? ==>
              StatusStep(run, AttemptContinuation(run, m).value, m)
    ensures m.ContinuationStuck? && StopContinuation(run, m).Some? ==>
              StatusStep(run, StopContinuation(run, m).value, m)
  {
  }

  lemma CycleStatus(run: Run, m: Mutation)
    requires m.GoalCycleStarted? && run.payload.UlwLoop? && StartGoalCycle(run, m.goalId).Some?
    ensures StatusStep(run, StartGoalCycle(run, m.goalId).value, m)
  {
  }

  lemma FailureStatus(run: Run, m: Mutation)
    requires m.CriterionFailureRecorded? && run.payload.UlwLoop?
    requires RecordCriterionFailure(run, m.goalId, m.criterionId, m.fingerprint).Some?
    ensures StatusStep(run, RecordCriterionFailure(run, m.goalId, m.criterionId, m.fingerprint).value, m)
  {
  }

  /** The command behind an owner's event. */
  function CommandOf(run: Run, m: Mutation): Command
    requires m.WorkflowControlled? || m.OwnerAdopted? || m.PlanReconciled?
  {
    var session, epoch := run.owner.sessionId, run.owner.epoch;
    match m
    case WorkflowControlled(Pause) => PauseRun(session, epoch)
    case WorkflowControlled(Resume) => ResumeRun(session, epoch)
    case WorkflowControlled(Cancel) => CancelRun(session, epoch)
    case OwnerAdopted(sessionId) => AdoptRun(sessionId, epoch)
    case PlanReconciled(taskIds, fingerprint) => ReconcilePlan(session, epoch, taskIds, fingerprint)
  }

  /** The status changes a reducer can make. */
  lemma StatusAfter(run: Run, event: Event, authority: Option<Authority>)
    requires RunDecodes(run) && ControlRun(run, event, authority).Some?
    ensures StatusStep(run, ControlRun(run, event, authority).value, event.mutation)
  {
    var m := event.mutation;
    match m
    case WorkflowControlled(_) => OwnerCommandStatus(run, CommandOf(run, m), m);
    case OwnerAdopted(_) => OwnerCommandStatus(run, CommandOf(run, m), m);
    case PlanReconciled(_, _) => OwnerCommandStatus(run, CommandOf(run, m), m);
    case WorkflowSteered(_, _) => SteerStatus(run, m);
    case CriterionSettled(_, _, _, _, _, _) => SettleStatus(run, event, authority);
    case TaskEvidenceAccepted(_, _) => EvidenceStatus(run, event, authority);
    case WorkflowTerminal(_, _, _) => EndingStatus(run, event, authority);
    case ContinuationAttempted(_, _) => ContinuationStatus(run, m);
    case ContinuationStuck(_) => ContinuationStatus(run, m);
    case GoalCycleStarted(_) =>
      if !(event.binding.Bound? && event.binding.legacyHeadUnbound) {
        CycleStatus(run, m);
      }
    case CriterionFailureRecorded(_, _, _) =>
      if !(event.binding.Bound? && event.binding.legacyHeadUnbound) {
        FailureStatus(run, m);
      }
    case RunCreated(_) =>
  }

  /** A terminal run stays terminal under every event but one: a stuck report revives it. */
  lemma TerminalRevivedIff(index: Index, current: Run, event: Event, authority: Option<Authority>)
    requires RunDecodes(current) && current.payload.status.Terminal()
    requires PrepareTransition(index, Some(current), event, authority).Prepared?
    ensures !PrepareTransition(index, Some(current), event, authority).run.payload.status.Terminal()
            <==> event.mutation.ContinuationStuck?
  {
    StatusAfter(current, event, authority);
  }

  // ---------------------------------------------------------------------------
  // Keys of the index
  // ---------------------------------------------------------------------------

  predicate HoldsKey(e: IndexEntry, run: Run) {
    e.workflow == run.Workflow() && e.sessionId == run.owner.sessionId
  }

  lemma {:induction false} RetainedKeepsValid(entries: seq<IndexEntry>, runId: string)
    requires IndexValid(entries)
    ensures IndexValid(Retained(entries, runId))
  {
    if entries != [] {
      var tail := Retained(entries[1..], runId);
      RetainedKeepsValid(entries[1..], runId);
      forall e | e in tail ensures
          && e.runId != entries[0].runId
          && (e.workflow != entries[0].workflow || e.sessionId != entries[0].sessionId)
      {
        assert e in entries[1..];
      }
      RetainedStep(entries, runId);
    }
  }

  /** The index written by a transition is readable again exactly when no other run holds the
      (workflow, session) of the published run, or that run left the index. */
  lemma KeysStayUniqueIff(index: Index, current: Option<Run>, event: Event, authority: Option<Authority>)
    requires IndexValid(index.entries)
    requires PrepareTransition(index, current, event, authority).Prepared?
    ensures var t := PrepareTransition(index, current, event, authority);
            IndexValid(t.index.entries) <==>
            (StatusHint(t.run).None? ||
             forall e | e in index.entries && e.runId != t.run.runId :: !HoldsKey(e, t.run))
  {
    var t := PrepareTransition(index, current, event, authority);
    PreparedShape(index, current, event, authority);
    var retained := Retained(index.entries, t.run.runId);
    RetainedKeepsValid(index.entries, t.run.runId);
    if StatusHint(t.run).Some? {
      var entry := EntryFor(t.run, StatusHint(t.run).value, event.sequence);
      assert t.index.entries == retained + [entry];
      if IndexValid(t.index.entries) {
        forall e | e in index.entries && e.runId != t.run.runId ensures !HoldsKey(e, t.run) {
          assert e in retained;
          var i :| 0 <= i < |retained| && retained[i] == e;
          assert t.index.entries[i] == e && t.index.entries[|retained|] == entry;
        }
      }
      if forall e | e in index.entries && e.runId != t.run.runId :: !HoldsKey(e, t.run) {
        assert forall i | 0 <= i < |retained| :: retained[i] in retained;
      }
    }
  }

  /** An event that passes the compare-and-swap checks is prepared exactly when its reducer accepts it. */
  lemma PreparedIff(index: Index, current: Run, event: Event, authority: Option<Authority>)
    requires RunDecodes(current) && !event.mutation.RunCreated?
    requires event.expected.indexRevision == index.revision && event.sequence == index.revision + 1
    requires event.runId == current.runId && event.workflow == current.Workflow()
    requires CheckExpected(current, event).None?
    ensures PrepareTransition(index, Some(current), event, authority).Prepared?
            <==> ControlRun(current, event, authority).Some?
  {
    if ControlRun(current, event, authority).Some? {
      StatusAfter(current, event, authority);
    }
  }

  /** What an event other than a creation leaves of the run it publishes. */
  lemma PublishedFrom(index: Index, current: Run, event: Event, authority: Option<Authority>)
    requires RunDecodes(current) && !event.mutation.RunCreated?
    requires PrepareTransition(index, Some(current), event, authority).Prepared?
    ensures StatusStep(current, PrepareTransition(index, Some(current), event, authority).run, event.mutation)
  {
    StatusAfter(current, event, authority);
  }

  /** A run with an entry of its own shares its key with nobody. */
  lemma IndexedRunOwnsItsKey(entries: seq<IndexEntry>, runs: map<string, Run>, id: string, e: IndexEntry)
    requires IndexValid(entries) && Projection(entries, runs, {})
    requires id in runs && runs[id].runId == id && StatusHint(runs[id]).Some?
    requires e in entries && e.runId != id
    ensures !HoldsKey(e, runs[id])
  {
    assert Listed(entries, id);
    var i :| 0 <= i < |entries| && entries[i].runId == id;
    assert entries[i] in entries && EntryProjects(entries[i], runs[id]);
    var j :| 0 <= j < |entries| && entries[j] == e;
    assert i != j;
  }

  /** Another run's entry holds this (workflow, session). */
  ghost predicate HeldByOther(entries: seq<IndexEntry>, runId: string, workflow: Workflow, sessionId: string) {
    exists e :: e in entries && e.runId != runId && e.workflow == workflow && e.sessionId == sessionId
  }

  /** The three ways to put a key into the index twice: creating a run that stays listed, adopting a run
      into a session, and reporting a terminal run stuck, when another run holds that key. */
  ghost predicate Clashes(entries: seq<IndexEntry>, current: Option<Run>, event: Event) {
    match event.mutation
    case RunCreated(run) =>
      !run.payload.status.Terminal() && HeldByOther(entries, event.runId, run.Workflow(), run.owner.sessionId)
    case OwnerAdopted(sessionId) =>
      current.Some? && HeldByOther(entries, event.runId, current.value.Workflow(), sessionId)
    case ContinuationStuck(_) =>
      && current.Some? && current.value.payload.status.Terminal()
      && HeldByOther(entries, event.runId, current.value.Workflow(), current.value.owner.sessionId)
    case _ => false
  }

  lemma IndexBreaksIff(index: Index, current: Option<Run>, event: Event, authority: Option<Authority>)
    requires IndexValid(index.entries) && PrepareTransition(index, current, event, authority).Prepared?
    ensures var published := PrepareTransition(index, current, event, authority).run;
            && published.runId == event.runId
            && (!IndexValid(PrepareTransition(index, current, event, authority).index.entries) <==>
                  !published.payload.status.Terminal()
                  && HeldByOther(index.entries, event.runId, published.Workflow(), published.owner.sessionId))
  {
    PreparedShape(index, current, event, authority);
    KeysStayUniqueIff(index, current, event, authority);
  }

  lemma CreatedRun(index: Index, current: Option<Run>, event: Event, authority: Option<Authority>)
    requires event.mutation.RunCreated? && PrepareTransition(index, current, event, authority).Prepared?
    ensures PrepareTransition(index, current, event, authority).run
         == event.mutation.run.(transactionRevision := event.sequence)
  {
  }

  lemma AdoptedRun(index: Index, current: Option<Run>, event: Event, authority: Option<Authority>)
    requires event.mutation.OwnerAdopted? && PrepareTransition(index, current, event, authority).Prepared?
    ensures var run := PrepareTransition(index, current, event, authority).run;
            && current.Some? && run.Workflow() == current.value.Workflow()
            && run.owner.sessionId == event.mutation.sessionId && run.payload.status.Active?
  {
  }

  /** On a store whose index projects its runs, a transition writes an index that no longer validates if
      and only if its event is one of the three clashes. */
  lemma KeyClashIff(
    index: Index, runs: map<string, Run>, current: Option<Run>, event: Event, authority: Option<Authority>)
    requires IndexValid(index.entries) && Projection(index.entries, runs, {})
    requires current == if event.runId in runs then Some(runs[event.runId]) else None
    requires current.Some? ==> RunDecodes(current.value) && current.value.runId == event.runId
    requires PrepareTransition(index, current, event, authority).Prepared?
    ensures !IndexValid(PrepareTransition(index, current, event, authority).index.entries)
            <==> Clashes(index.entries, current, event)
  {
    IndexBreaksIff(index, current, event, authority);
    if event.mutation.RunCreated? {
      CreatedRun(index, current, event, authority);
    } else if event.mutation.OwnerAdopted? {
      AdoptedRun(index, current, event, authority);
    } else {
      OnlyCreationNeedsNoRun(index, current, event, authority);
      PublishedFrom(index, current.value, event, authority);
      ListedRunKeepsKey(index, runs, current.value, event.runId);
      if event.mutation.ContinuationStuck? {
        StuckRun(index, current.value, event, authority);
      }
    }
  }

  lemma StuckRun(index: Index, current: Run, event: Event, authority: Option<Authority>)
    requires event.mutation.ContinuationStuck? && PrepareTransition(index, Some(current), event, authority).Prepared?
    ensures PrepareTransition(index, Some(current), event, authority).run.payload.status.Stuck?
  {
  }

  lemma OnlyCreationNeedsNoRun(index: Index, current: Option<Run>, event: Event, authority: Option<Authority>)
    requires PrepareTransition(index, current, event, authority).Prepared?
    ensures event.mutation.RunCreated? == current.None?
  {
  }

  /** A listed run shares its key with nobody. */
  lemma ListedRunKeepsKey(index: Index, runs: map<string, Run>, current: Run, runId: string)
    requires IndexValid(index.entries) && Projection(index.entries, runs, {})
    requires runId in runs && runs[runId] == current && current.runId == runId
    ensures !current.payload.status.Terminal() ==>
              !HeldByOther(index.entries, runId, current.Workflow(), current.owner.sessionId)
  {
    if !current.payload.status.Terminal()
       && HeldByOther(index.entries, runId, current.Workflow(), current.owner.sessionId) {
      var e :| e in index.entries && e.runId != runId && e.workflow == current.Workflow()
               && e.sessionId == current.owner.sessionId;
      IndexedRunOwnsItsKey(index.entries, runs, runId, e);
      assert false;
    }
  }

  // ---------------------------------------------------------------------------
  // Decodability of the published run
  // ---------------------------------------------------------------------------

  lemma {:induction false} CriterionIdsPointwise(a: seq<Goal>, b: seq<Goal>)
    requires |a| == |b|
    requires forall i | 0 <= i < |a| ::
               |a[i].criteria| == |b[i].criteria| &&
               forall k | 0 <= k < |a[i].criteria| :: a[i].criteria[k].id == b[i].criteria[k].id
    ensures CriterionIds(a) == CriterionIds(b)
  {
    if a != [] {
      assert Ids(a[0].criteria) == Ids(b[0].criteria);
      CriterionIdsPointwise(a[1..], b[1..]);
    }
  }

  lemma {:induction false} InProgressPointwise(a: seq<Goal>, b: seq<Goal>)
    requires |a| == |b|
    requires forall i | 0 <= i < |a| :: a[i].id == b[i].id && a[i].status == b[i].status
    ensures InProgressIds(a) == InProgressIds(b)
  {
    if a != [] {
      InProgressPointwise(a[1..], b[1..]);
    }
  }

  /** Goal ids are distinct, said about the goals themselves. */
  ghost predicate DistinctGoals(goals: seq<Goal>) {
    forall i, j | 0 <= i < j < |goals| :: goals[i].id != goals[j].id
  }

  lemma GoalIdsDistinct(goals: seq<Goal>)
    ensures Distinct(Map(goals, (g: Goal) => g.id)) <==> DistinctGoals(goals)
  {
    var ids := Map(goals, (g: Goal) => g.id);
    assert forall i | 0 <= i < |goals| :: ids[i] == goals[i].id;
  }

  /** `FindGoal` is the only goal with that id. */
  lemma FoundGoalUnique(goals: seq<Goal>, id: string, g: Goal)
    requires DistinctGoals(goals) && FindGoal(goals, id).Some? && g in goals && g.id == id
    ensures g == FindGoal(goals, id).value
  {
  }

  function Without(ids: seq<string>, id: string): seq<string> {
    Filter(ids, (x: string) => x != id)
  }

  /** Settling removes the goal from those in progress exactly when it completes the goal. */
  lemma {:induction false} SettleInProgress(goals: seq<Goal>, m: Mutation, done: bool)
    requires m.CriterionSettled?
    requires forall g | g in goals && g.id == m.goalId :: AllPass(SettleGoal(g, m)) == done
    ensures InProgressIds(SettledGoals(goals, m)) ==
            if done then Without(InProgressIds(goals), m.goalId) else InProgressIds(goals)
  {
    var settled := SettledGoals(goals, m);
    if goals != [] {
      SettleInProgress(goals[1..], m, done);
      assert settled[1..] == SettledGoals(goals[1..], m);
      var head := if goals[0].status.GoalInProgress? then [goals[0].id] else [];
      FilterAppend(head, InProgressIds(goals[1..]), (x: string) => x != m.goalId);
    }
  }

  /** What a caller can check before settling: finishing the whole loop must not leave another goal
      in progress, and finishing the active goal must finish the whole loop. */
  ghost predicate SettleLeavesDecodable(run: Run, m: Mutation)
    requires run.payload.UlwLoop? && m.CriterionSettled?
  {
    var finishesGoal := forall g | g in run.payload.goals && g.id == m.goalId ::
                          forall c | c in g.criteria :: c.status.CriterionPass? || c.id == m.criterionId;
    var finishesLoop := forall g | g in run.payload.goals ::
                          forall c | c in g.criteria ::
                            c.status.CriterionPass? || (g.id == m.goalId && c.id == m.criterionId);
    var active := run.payload.activeGoalId;
    if finishesLoop then active.None? || active == Some(m.goalId)
    else finishesGoal ==> active != Some(m.goalId)
  }

  lemma SettledGoalPasses(g: Goal, m: Mutation)
    requires m.CriterionSettled?
    ensures AllPass(SettleGoal(g, m)) <==>
            forall c | c in g.criteria :: c.status.CriterionPass? || c.id == m.criterionId
  {
    var settled := SettleGoal(g, m);
    assert |settled.criteria| == |g.criteria|;
    forall i | 0 <= i < |g.criteria|
      ensures settled.criteria[i].status.CriterionPass? <==>
              (g.criteria[i].status.CriterionPass? || g.criteria[i].id == m.criterionId)
    {
    }
    if AllPass(settled) {
      forall c | c in g.criteria ensures c.status.CriterionPass? || c.id == m.criterionId {
        var i :| 0 <= i < |g.criteria| && g.criteria[i] == c;
        assert settled.criteria[i] in settled.criteria;
      }
    }
    if forall c | c in g.criteria :: c.status.CriterionPass? || c.id == m.criterionId {
      forall c | c in settled.criteria ensures c.status.CriterionPass? {
        var i :| 0 <= i < |settled.criteria| && settled.criteria[i] == c;
        assert g.criteria[i] in g.criteria;
      }
    }
  }

  /** Settling leaves ids, counts and the number of goals alone. */
  lemma SettledShape(goals: seq<Goal>, m: Mutation)
    requires m.CriterionSettled?
    ensures var after := SettledGoals(goals, m);
            && |after| == |goals|
            && CriterionIds(after) == CriterionIds(goals)
            && (forall i | 0 <= i < |goals| :: after[i].id == goals[i].id)
            && ((forall g | g in goals :: GoalDecodes(g)) ==> (forall g | g in after :: GoalDecodes(g)))
  {
    CriterionIdsPointwise(SettledGoals(goals, m), goals);
    if forall g | g in goals :: GoalDecodes(g) {
      SettledGoalsDecode(goals, m);
    }
  }

  lemma SettledGoalsDecode(goals: seq<Goal>, m: Mutation)
    requires m.CriterionSettled? && forall g | g in goals :: GoalDecodes(g)
    ensures forall g | g in SettledGoals(goals, m) :: GoalDecodes(g)
  {
    var after := SettledGoals(goals, m);
    forall g | g in after ensures GoalDecodes(g) {
      var i :| 0 <= i < |after| && after[i] == g;
      assert GoalDecodes(goals[i]);
      forall c | c in g.criteria ensures c.failureCount <= 3 {
        var k :| 0 <= k < |g.criteria| && g.criteria[k] == c;
        assert goals[i].criteria[k] in goals[i].criteria;
      }
    }
  }

  lemma LoopFinished(goals: seq<Goal>, m: Mutation)
    requires m.CriterionSettled?
    ensures (forall g | g in SettledGoals(goals, m) :: AllPass(g)) <==>
            forall g | g in goals ::
              forall c | c in g.criteria ::
                c.status.CriterionPass? || (g.id == m.goalId && c.id == m.criterionId)
  {
    var after := SettledGoals(goals, m);
    forall i | 0 <= i < |goals|
      ensures AllPass(after[i]) <==>
              forall c | c in goals[i].criteria ::
                c.status.CriterionPass? || (goals[i].id == m.goalId && c.id == m.criterionId)
    {
      SettledGoalPasses(goals[i], m);
    }
    if forall g | g in after :: AllPass(g) {
      forall g | g in goals ensures
          forall c | c in g.criteria :: c.status.CriterionPass? || (g.id == m.goalId && c.id == m.criterionId)
      {
        var i :| 0 <= i < |goals| && goals[i] == g;
        assert after[i] in after;
      }
    }
    if forall g | g in goals ::
        forall c | c in g.criteria :: c.status.CriterionPass? || (g.id == m.goalId && c.id == m.criterionId)
    {
      forall g | g in after ensures AllPass(g) {
        var i :| 0 <= i < |after| && after[i] == g;
        assert goals[i] in goals;
      }
    }
  }

  /** Whether the settled goals still match the active goal the settled run names. */
  lemma SettledActiveIff(run: Run, m: Mutation, goal: Goal)
    requires run.payload.UlwLoop? && m.CriterionSettled?
    requires DistinctGoals(run.payload.goals)
    requires ActiveGoalMatches(run.payload.goals, run.payload.activeGoalId)
    requires FindGoal(run.payload.goals, m.goalId) == Some(goal)
    ensures var p := SettledRun(run, m).payload;
            ActiveGoalMatches(p.goals, p.activeGoalId) <==> SettleLeavesDecodable(run, m)
  {
    var goals, active := run.payload.goals, run.payload.activeGoalId;
    forall g | g in goals && g.id == m.goalId ensures g == goal {
      FoundGoalUnique(goals, m.goalId, g);
    }
    SettledGoalPasses(goal, m);
    LoopFinished(goals, m);
    SettleInProgress(goals, m, AllPass(SettleGoal(goal, m)));
    WithoutActive(active, m.goalId);
  }

  lemma WithoutActive(active: Option<string>, id: string)
    ensures Without(AsList(active), id) == if active == Some(id) then [] else AsList(active)
  {
    if active.Some? {
      assert AsList(active)[1..] == [];
      assert Without([], id) == [];
    }
  }

  /** The run a settlement publishes decodes exactly under the condition above. */
  lemma SettleDecodesIff(run: Run, m: Mutation)
    requires RunDecodes(run) && run.payload.UlwLoop? && m.CriterionSettled?
    requires FindGoal(run.payload.goals, m.goalId).Some?
    ensures RunDecodes(SettledRun(run, m)) <==> SettleLeavesDecodable(run, m)
  {
    var goals := run.payload.goals;
    GoalIdsDistinct(goals);
    GoalIdsDistinct(SettledGoals(goals, m));
    SettledShape(goals, m);
    SettledActiveIff(run, m, FindGoal(goals, m.goalId).value);
  }

  /** A loop with a single goal never runs into it. */
  lemma SingleGoalSettles(run: Run, m: Mutation)
    requires RunDecodes(run) && run.payload.UlwLoop? && |run.payload.goals| == 1
    requires m.CriterionSettled? && run.payload.goals[0].id == m.goalId
    ensures SettleLeavesDecodable(run, m)
  {
    var goals := run.payload.goals;
    assert InProgressIds(goals) == (if goals[0].status.GoalInProgress? then [goals[0].id] else []) + InProgressIds(goals[1..]);
    assert InProgressIds(goals[1..]) == [];
    assert goals[0] in goals;
    if run.payload.activeGoalId.Some? {
      assert AsList(run.payload.activeGoalId)[0] == run.payload.activeGoalId.value;
    }
  }

  // ---------------------------------------------------------------------------
  // Steering, goal cycles and failures
  // ---------------------------------------------------------------------------

  function NewIds(m: Mutation): seq<string>
    requires m.WorkflowSteered?
  {
    Map(m.criteria, (n: NewCriterion) => n.id)
  }

  ghost predicate HasGoal(goals: seq<Goal>, id: string) {
    exists g | g in goals :: g.id == id
  }

  lemma HasGoalStep(goals: seq<Goal>, id: string)
    requires goals != []
    ensures HasGoal(goals, id) <==> goals[0].id == id || HasGoal(goals[1..], id)
    ensures DistinctGoals(goals) && goals[0].id == id ==> !HasGoal(goals[1..], id)
  {
    assert goals[0] in goals;
  }

  lemma SteeredHead(goals: seq<Goal>, active: string, m: Mutation)
    requires m.WorkflowSteered? && goals != []
    ensures var after := SteeredGoals(goals, active, m);
            && after[1..] == SteeredGoals(goals[1..], active, m)
            && Ids(after[0].criteria) == Ids(goals[0].criteria) + if goals[0].id == active then NewIds(m) else []
  {
  }

  /** Steering adds the new ids once when some goal carries the active id. */
  lemma {:induction false} SteeredIds(goals: seq<Goal>, active: string, m: Mutation)
    requires m.WorkflowSteered? && DistinctGoals(goals)
    ensures multiset(CriterionIds(SteeredGoals(goals, active, m))) ==
            multiset(CriterionIds(goals)) + multiset(if HasGoal(goals, active) then NewIds(m) else [])
  {
    if goals == [] {
      assert SteeredGoals(goals, active, m) == [];
      assert multiset(CriterionIds([])) == multiset{};
    } else {
      var after := SteeredGoals(goals, active, m);
      SteeredHead(goals, active, m);
      HasGoalStep(goals, active);
      SteeredIds(goals[1..], active, m);
      assert CriterionIds(after) == Ids(after[0].criteria) + CriterionIds(after[1..]);
      assert CriterionIds(goals) == Ids(goals[0].criteria) + CriterionIds(goals[1..]);
    }
  }

  lemma {:induction false} InProgressMembers(goals: seq<Goal>, id: string)
    requires id in InProgressIds(goals)
    ensures HasGoal(goals, id)
  {
    HasGoalStep(goals, id);
    if !(goals[0].status.GoalInProgress? && goals[0].id == id) {
      InProgressMembers(goals[1..], id);
    }
  }

  // ---------------------------------------------------------------------------
  // The decoder
  // ---------------------------------------------------------------------------

  lemma {:induction false} InProgressIff(goals: seq<Goal>, id: string)
    ensures id in InProgressIds(goals) <==> exists g :: g in goals && g.status == GoalInProgress && g.id == id
  {
    if goals != [] {
      InProgressIff(goals[1..], id);
      assert goals == [goals[0]] + goals[1..];
    }
  }

  lemma {:induction false} InProgressDistinct(goals: seq<Goal>)
    requires DistinctGoals(goals)
    ensures Distinct(InProgressIds(goals))
  {
    if goals != [] {
      var rest := goals[1..];
      assert DistinctGoals(rest);
      InProgressDistinct(rest);
      InProgressIff(rest, goals[0].id);
      forall g | g in rest ensures g.id != goals[0].id {
        var i :| 0 <= i < |rest| && rest[i] == g;
        assert goals[i + 1] == g;
      }
      assert goals[0].id !in InProgressIds(rest);
    }
  }

  /** The goal in progress is the active one, there is one if there is an active one, and no other. */
  ghost predicate ActiveIsInProgress(goals: seq<Goal>, activeGoalId: Option<string>) {
    && (forall g | g in goals :: g.status == GoalInProgress ==> Some(g.id) == activeGoalId)
    && (activeGoalId.Some? ==> exists g :: g in goals && g.status == GoalInProgress && g.id == activeGoalId.value)
  }

  lemma ActiveIff(goals: seq<Goal>, activeGoalId: Option<string>)
    requires DistinctGoals(goals)
    ensures ActiveGoalMatches(goals, activeGoalId) <==> ActiveIsInProgress(goals, activeGoalId)
  {
    var ids := InProgressIds(goals);
    InProgressDistinct(goals);
    forall id ensures id in ids <==> exists g :: g in goals && g.status == GoalInProgress && g.id == id {
      InProgressIff(goals, id);
    }
    if ActiveIsInProgress(goals, activeGoalId) {
      OnlyMember(ids, activeGoalId);
    }
    if ActiveGoalMatches(goals, activeGoalId) {
      forall g | g in goals && g.status == GoalInProgress ensures Some(g.id) == activeGoalId {
        assert g.id in ids;
      }
      if activeGoalId.Some? {
        assert activeGoalId.value in ids;
      }
    }
  }

  /** A list without repetition whose members are all one thing is that thing alone. */
  lemma OnlyMember(ids: seq<string>, id: Option<string>)
    requires Distinct(ids) && (forall x | x in ids :: Some(x) == id) && (id.Some? ==> id.value in ids)
    ensures ids == AsList(id)
  {
    forall i | 0 <= i < |ids| ensures Some(ids[i]) == id && i == 0 {
      assert ids[i] in ids && ids[0] in ids;
    }
    if id.Some? {
      var last := |ids| - 1;
      assert Some(ids[last]) == id && last == 0;
      assert ids == [id.value];
    } else {
      HeadIsMember(ids);
    }
  }

  lemma HeadIsMember(ids: seq<string>)
    ensures ids == [] || ids[0] in ids
  {
  }

  /** What the decoder demands of a run. */
  ghost predicate Decodable(run: Run) {
    match run.payload
    case StartWork(_, plan) => forall i, j | 0 <= i < j < |plan.taskIds| :: plan.taskIds[i] != plan.taskIds[j]
    case UlwLoop(status, annotation, activeGoalId, goals) =>
      && status != Abandoned && (annotation.Some? ==> |annotation.value| <= 512)
      && DistinctGoals(goals) && Distinct(CriterionIds(goals))
      && (forall g | g in goals :: g.cycleCount <= 5 && forall c | c in g.criteria :: c.failureCount <= 3)
      && ActiveIsInProgress(goals, activeGoalId)
  }

  /** A run decodes exactly when ids are unique, counts within their caps, and the active goal is the one in
      progress. */
  lemma DecodesIff(run: Run)
    ensures RunDecodes(run) <==> Decodable(run)
  {
    if run.payload.UlwLoop? {
      GoalIdsDistinct(run.payload.goals);
      if DistinctGoals(run.payload.goals) {
        ActiveIff(run.payload.goals, run.payload.activeGoalId);
      }
    }
  }

  /** A steered run decodes exactly when the new criteria do not repeat an id among themselves. */
  lemma SteerDecodesIff(run: Run, m: Mutation)
    requires RunDecodes(run) && m.WorkflowSteered? && MutationDecodes(m) && Steer(run, m).Some?
    ensures RunDecodes(Steer(run, m).value) <==> Distinct(NewIds(m))
  {
    var goals, active := run.payload.goals, run.payload.activeGoalId.value;
    var after := SteeredGoals(goals, active, m);
    GoalIdsDistinct(goals);
    GoalIdsDistinct(after);
    InProgressPointwise(after, goals);
    assert active in InProgressIds(goals) by { assert AsList(run.payload.activeGoalId)[0] == active; }
    InProgressMembers(goals, active);
    SteeredIds(goals, active, m);
    SteeredGoalsDecode(goals, active, m);
    SteeredDistinct(CriterionIds(goals), NewIds(m), CriterionIds(after), m);
  }

  lemma SteeredGoalsDecode(goals: seq<Goal>, active: string, m: Mutation)
    requires m.WorkflowSteered? && forall g | g in goals :: GoalDecodes(g)
    ensures forall g | g in SteeredGoals(goals, active, m) :: GoalDecodes(g)
  {
    var after := SteeredGoals(goals, active, m);
    forall g | g in after ensures GoalDecodes(g) {
      var i :| 0 <= i < |after| && after[i] == g;
      assert GoalDecodes(goals[i]);
    }
  }

  lemma SteeredDistinct(before: seq<string>, added: seq<string>, after: seq<string>, m: Mutation)
    requires m.WorkflowSteered? && added == NewIds(m)
    requires Distinct(before) && forall n | n in m.criteria :: n.id !in before
    requires multiset(after) == multiset(before) + multiset(added)
    ensures Distinct(after) <==> Distinct(added)
  {
    DistinctByCount(before);
    DistinctByCount(added);
    DistinctByCount(after);
    forall x | x in added ensures x !in before {
      var i :| 0 <= i < |added| && added[i] == x;
      assert m.criteria[i] in m.criteria;
    }
    forall x ensures x in after <==> x in before || x in added {
      assert x in after <==> x in multiset(after);
      assert x in before <==> x in multiset(before);
      assert x in added <==> x in multiset(added);
    }
  }

  lemma CycleDecodes(run: Run, goalId: string)
    requires RunDecodes(run) && run.payload.UlwLoop? && StartGoalCycle(run, goalId).Some?
    ensures RunDecodes(StartGoalCycle(run, goalId).value)
  {
    var goals, after := run.payload.goals, StartGoalCycle(run, goalId).value.payload.goals;
    GoalIdsDistinct(goals);
    GoalIdsDistinct(after);
    CriterionIdsPointwise(after, goals);
    InProgressPointwise(after, goals);
    forall g | g in after ensures GoalDecodes(g) {
      var i :| 0 <= i < |after| && after[i] == g;
      assert goals[i] in goals;
      if goals[i].id == goalId {
        FoundGoalUnique(goals, goalId, goals[i]);
      }
    }
  }

  lemma {:induction false} CriteriaDistinctInGoal(goals: seq<Goal>, g: Goal)
    requires g in goals && Distinct(CriterionIds(goals))
    ensures Distinct(Ids(g.criteria))
  {
    var heads, tails := Ids(goals[0].criteria), CriterionIds(goals[1..]);
    assert CriterionIds(goals) == heads + tails;
    if g == goals[0] {
      assert forall i | 0 <= i < |heads| :: (heads + tails)[i] == heads[i];
    } else {
      assert forall i | 0 <= i < |tails| :: (heads + tails)[i + |heads|] == tails[i];
      CriteriaDistinctInGoal(goals[1..], g);
    }
  }

  lemma FoundCriterionUnique(criteria: seq<Criterion>, id: string, c: Criterion)
    requires Distinct(Ids(criteria)) && FindCriterion(criteria, id).Some? && c in criteria && c.id == id
    ensures c == FindCriterion(criteria, id).value
  {
    var found := FindCriterion(criteria, id).value;
    var i :| 0 <= i < |criteria| && criteria[i] == c;
    var j :| 0 <= j < |criteria| && criteria[j] == found;
    assert Ids(criteria)[i] == Ids(criteria)[j];
  }

  lemma FailedCriteriaBounded(criteria: seq<Criterion>, id: string, fingerprint: string, repeated: bool)
    requires Distinct(Ids(criteria)) && forall c | c in criteria :: c.failureCount <= 3
    requires FindCriterion(criteria, id).Some?
    requires repeated ==> FindCriterion(criteria, id).value.failureCount < 3
    ensures forall c | c in FailCriteria(criteria, id, fingerprint, repeated) :: c.failureCount <= 3
  {
    var after := FailCriteria(criteria, id, fingerprint, repeated);
    forall c | c in after ensures c.failureCount <= 3 {
      var k :| 0 <= k < |after| && after[k] == c;
      assert criteria[k] in criteria;
      if criteria[k].id == id {
        FoundCriterionUnique(criteria, id, criteria[k]);
      }
    }
  }

  /** Replacing the criteria of one goal by criteria with the same ids and bounded counts. */
  lemma ReplacedCriteriaDecode(goals: seq<Goal>, goal: Goal, criteria: seq<Criterion>, after: seq<Goal>)
    requires DistinctGoals(goals) && (forall g | g in goals :: GoalDecodes(g)) && goal in goals
    requires Ids(criteria) == Ids(goal.criteria) && forall c | c in criteria :: c.failureCount <= 3
    requires |after| == |goals|
    requires forall i | 0 <= i < |goals| ::
               after[i] == if goals[i].id == goal.id then goals[i].(criteria := criteria) else goals[i]
    ensures CriterionIds(after) == CriterionIds(goals) && InProgressIds(after) == InProgressIds(goals)
    ensures DistinctGoals(after) && forall g | g in after :: GoalDecodes(g)
  {
    assert forall i | 0 <= i < |criteria| :: criteria[i].id == Ids(criteria)[i];
    assert forall i | 0 <= i < |goals| && goals[i].id == goal.id :: goals[i] == goal;
    CriterionIdsPointwise(after, goals);
    InProgressPointwise(after, goals);
  }

  lemma FailureDecodes(run: Run, goalId: string, criterionId: string, fingerprint: string)
    requires RunDecodes(run) && run.payload.UlwLoop?
    requires RecordCriterionFailure(run, goalId, criterionId, fingerprint).Some?
    ensures RunDecodes(RecordCriterionFailure(run, goalId, criterionId, fingerprint).value)
  {
    var goals := run.payload.goals;
    var after := RecordCriterionFailure(run, goalId, criterionId, fingerprint).value.payload.goals;
    var goal := FindGoal(goals, goalId).value;
    var repeated := FindCriterion(goal.criteria, criterionId).value.failureFingerprint == Some(fingerprint);
    var criteria := FailCriteria(goal.criteria, criterionId, fingerprint, repeated);
    CriteriaDistinctInGoal(goals, goal);
    assert GoalDecodes(goal);
    FailedCriteriaBounded(goal.criteria, criterionId, fingerprint, repeated);
    GoalIdsDistinct(goals);
    GoalIdsDistinct(after);
    assert Ids(criteria) == Ids(goal.criteria);
    ReplacedCriteriaDecode(goals, goal, criteria, after);
  }

  // ---------------------------------------------------------------------------
  // Every mutation together
  // ---------------------------------------------------------------------------

  /** The two kinds of event that can publish a run the decoder refuses, and when they do not. */
  ghost predicate LeavesDecodable(run: Run, event: Event) {
    match event.mutation
    case WorkflowSteered(_, _) => Distinct(NewIds(event.mutation))
    case CriterionSettled(_, _, _, _, _, _) =>
      (event.binding.Bound? && event.binding.legacyHeadUnbound)
      || (run.payload.UlwLoop? && SettleLeavesDecodable(run, event.mutation))
    case _ => true
  }

  lemma ControlDecodesIff(run: Run, event: Event, authority: Option<Authority>)
    requires RunDecodes(run) && EventDecodes(event)
    requires ControlRun(run, event, authority).Some?
    ensures RunDecodes(ControlRun(run, event, authority).value) <==> LeavesDecodable(run, event)
  {
    var legacy := event.binding.Bound? && event.binding.legacyHeadUnbound;
    match event.mutation
    case WorkflowSteered(_, _) => SteerDecodesIff(run, event.mutation);
    case CriterionSettled(_, _, _, _, _, _) =>
      if !legacy {
        SettleDecodesIff(run, event.mutation);
      }
    case GoalCycleStarted(goalId) =>
      if !legacy {
        CycleDecodes(run, goalId);
      }
    case CriterionFailureRecorded(goalId, criterionId, fingerprint) =>
      if !legacy {
        FailureDecodes(run, goalId, criterionId, fingerprint);
      }
    case _ =>
  }

  /** A transition from a decodable run publishes a decodable run exactly when the event leaves it so;
      a created run always decodes, because its event did. */
  lemma PublishedDecodesIff(index: Index, current: Option<Run>, event: Event, authority: Option<Authority>)
    requires current.Some? ==> RunDecodes(current.value)
    requires EventDecodes(event)
    requires PrepareTransition(index, current, event, authority).Prepared?
    ensures RunDecodes(PrepareTransition(index, current, event, authority).run) <==>
            (current.None? || LeavesDecodable(current.value, event))
  {
    OnlyCreationNeedsNoRun(index, current, event, authority);
    if current.Some? {
      ControlDecodesIff(current.value, event, authority);
      PublishedIsControlled(index, current.value, event, authority);
    }
  }

  lemma PublishedIsControlled(index: Index, current: Run, event: Event, authority: Option<Authority>)
    requires PrepareTransition(index, Some(current), event, authority).Prepared?
    ensures var t := PrepareTransition(index, Some(current), event, authority);
            ControlRun(current, event, authority).Some? &&
            t.run == ControlRun(current, event, authority).value.(transactionRevision := event.sequence)
  {
  }

  /** Exactly when a cut commit can be repaired, in terms of what was submitted: the event as stored must
      decode, and once the run has been replaced the event must be one that leaves a run decodable. */
  lemma CutCommitRepairableIff(d: Disk, event: Event, receipts: Authority, cut: nat)
    requires StoreInv(d) && CommitIntent(d, event, receipts).outcome.Committed?
    requires cut == 1 || cut == 2
    ensures var e := PersistedEventForIndex(IndexOf(d), event);
            RepairIntent(CutAt(d, CommitIntent(d, event, receipts), cut), receipts).outcome.Repaired? <==>
            EventDecodes(e) && (cut == 2 && e.runId in d.runs ==> LeavesDecodable(d.runs[e.runId], e))
  {
    var e := PersistedEventForIndex(IndexOf(d), event);
    RepairableIff(d, event, receipts, cut);
    CommitShape(d, event, receipts);
    if EventDecodes(e) {
      var current := RunOf(d, e.runId);
      PublishedDecodesIff(IndexOf(d), current, e, AuthorityFor(e.mutation, current, receipts));
    }
  }
}
