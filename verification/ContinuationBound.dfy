/** Continuation is bounded: how many times a session can be told to go on. */
module ContinuationBound {
  import opened Prelude
  import opened Domain
  import opened ReceiptAuthority
  import opened StateTransition
  import opened TransactionStore
  import opened StoreProofs
  import opened TransitionProofs
  import opened Continuation
  import opened ContinuationProofs

  // ---------------------------------------------------------------------------
  // What is left to spend
  // ---------------------------------------------------------------------------

  function OpenCriteria(criteria: seq<Criterion>): nat {
    if criteria == [] then 0
    else (if criteria[0].status.CriterionPass? then 0 else 1) + OpenCriteria(criteria[1..])
  }

  /** The number of criteria, over all goals, that have not passed. */
  function Unsettled(goals: seq<Goal>): nat {
    if goals == [] then 0 else OpenCriteria(goals[0].criteria) + Unsettled(goals[1..])
  }

  /** How many more continuations the no-progress bound allows at the current progress revision. */
  function Remaining(run: Run): nat {
    if run.continuation.progressRevisionSeen != run.progressRevision then 2
    else if run.continuation.noProgressAttempts >= 2 then 0
    else 2 - run.continuation.noProgressAttempts
  }

  function Potential(run: Run): nat
    requires run.payload.UlwLoop?
  {
    2 * Unsettled(run.payload.goals) + Remaining(run)
  }

  predicate CoordinatorKind(m: Mutation) {
    ReceiptBound(m) || m.ContinuationAttempted? || m.ContinuationStuck?
  }

  // ---------------------------------------------------------------------------
  // Settling spends a criterion
  // ---------------------------------------------------------------------------

  lemma {:induction false} SettleCountsGoal(g: Goal, m: Mutation)
    requires m.CriterionSettled?
    ensures OpenCriteria(SettleGoal(g, m).criteria) <= OpenCriteria(g.criteria)
    ensures (exists c | c in g.criteria :: c.id == m.criterionId && !c.status.CriterionPass?) ==>
              OpenCriteria(SettleGoal(g, m).criteria) < OpenCriteria(g.criteria)
    decreases |g.criteria|
  {
    if g.criteria != [] {
      var tail := g.(criteria := g.criteria[1..]);
      SettleCountsGoal(tail, m);
      assert SettleGoal(g, m).criteria[1..] == SettleGoal(tail, m).criteria;
      if c :| c in g.criteria && c.id == m.criterionId && !c.status.CriterionPass? {
        assert c == g.criteria[0] || c in g.criteria[1..];
      }
    }
  }

  lemma {:induction false} SettleCounts(goals: seq<Goal>, m: Mutation)
    requires m.CriterionSettled?
    ensures Unsettled(SettledGoals(goals, m)) <= Unsettled(goals)
    ensures (exists g | g in goals :: g.id == m.goalId &&
               exists c | c in g.criteria :: c.id == m.criterionId && !c.status.CriterionPass?) ==>
              Unsettled(SettledGoals(goals, m)) < Unsettled(goals)
  {
    if goals != [] {
      SettleCounts(goals[1..], m);
      SettleCountsGoal(goals[0], m);
      assert SettledGoals(goals, m)[1..] == SettledGoals(goals[1..], m);
    }
  }

  lemma AcceptedSettlementSpends(run: Run, event: Event, authority: Option<Authority>)
    requires event.mutation.CriterionSettled? && SettleCriterion(run, event, authority).Some?
    ensures var next := SettleCriterion(run, event, authority).value;
            && next.payload.UlwLoop?
            && (next == run || (next == SettledRun(run, event.mutation)
                                && Unsettled(next.payload.goals) < Unsettled(run.payload.goals)))
  {
    if SettleCriterion(run, event, authority).value != run {
      SettleCounts(run.payload.goals, event.mutation);
    }
  }

  /** A coordinator event never raises what is left to spend, and an attempt below the bound lowers it. */
  lemma PotentialStep(run: Run, event: Event, authority: Option<Authority>)
    requires run.payload.UlwLoop? && CoordinatorKind(event.mutation)
    requires ControlRun(run, event, authority).Some?
    ensures var next := ControlRun(run, event, authority).value;
            && next.payload.UlwLoop?
            && Potential(next) <= Potential(run)
            && (event.mutation.ContinuationAttempted? && !HasReachedNoProgressBound(run) ==>
                  Potential(next) < Potential(run))
  {
    if event.mutation.CriterionSettled? {
      AcceptedSettlementSpends(run, event, authority);
    }
  }

  /** The same for one progress revision of either workflow. */
  lemma RemainingStep(run: Run, event: Event, authority: Option<Authority>)
    requires CoordinatorKind(event.mutation)
    requires ControlRun(run, event, authority).Some?
    requires ControlRun(run, event, authority).value.progressRevision == run.progressRevision
    ensures var next := ControlRun(run, event, authority).value;
            && Remaining(next) <= Remaining(run)
            && (event.mutation.ContinuationAttempted? && !HasReachedNoProgressBound(run) ==>
                  Remaining(next) < Remaining(run))
  {
  }

  // ---------------------------------------------------------------------------
  // Whole runs of the coordinator
  // ---------------------------------------------------------------------------

  /** The coordinator answers a notification, or a repair runs; either may be cut. */
  datatype Tick = Notify(q: Request, cut: nat) | Mend(receipts: Authority, cut: nat)

  function TickStep(d: Disk, t: Tick): Disk {
    match t
    case Notify(q, cut) => CutAt(d, ContinuationIntent(d, q), cut)
    case Mend(receipts, cut) => CutAt(d, RepairIntent(d, receipts), cut)
  }

  predicate EmitsFor(d: Disk, t: Tick, runId: string) {
    t.Notify? && Emits(d, t.q, t.cut) && DecisionFor(d, t.q).run.runId == runId
  }

  /** How many continuations of `runId` are handed out along the way. */
  function Emissions(d: Disk, ticks: seq<Tick>, runId: string): nat
    decreases |ticks|
  {
    if ticks == [] then 0
    else (if EmitsFor(d, ticks[0], runId) then 1 else 0) + Emissions(TickStep(d, ticks[0]), ticks[1..], runId)
  }

  /** An event still waiting for repair came from the coordinator. */
  ghost predicate CoordinatorOnly(d: Disk) {
    StoreInv(d) && (Behind(d) ==> CoordinatorKind(d.log[|d.log| - 1].mutation))
  }

  ghost predicate EvolvesBy(
    before: Run, after: Run, emitted: bool, event: Event, authority: Option<Authority>, sequence: nat)
  {
    && CoordinatorKind(event.mutation)
    && ControlRun(before, event, authority).Some?
    && after == ControlRun(before, event, authority).value.(transactionRevision := sequence)
    && (emitted ==> event.mutation.ContinuationAttempted? && !HasReachedNoProgressBound(before))
  }

  /** How one tick changes a given run: not at all, or by one accepted coordinator event. */
  ghost predicate Evolves(before: Run, after: Run, emitted: bool) {
    || (after == before && !emitted)
    || exists event: Event, authority: Option<Authority>, sequence: nat ::
         EvolvesBy(before, after, emitted, event, authority, sequence)
  }

  lemma PublicationEvolves(
    d: Disk, event: Event, receipts: Authority, run: Run, index: Index, runId: string, emitted: bool)
    requires PrepareOn(d, event, receipts) == Prepared(run, index)
    requires CoordinatorKind(event.mutation) && runId in d.runs
    requires run.runId == event.runId
    requires emitted ==> && event.mutation.ContinuationAttempted? && event.runId == runId
                         && !HasReachedNoProgressBound(d.runs[runId])
    ensures runId in d.runs[run.runId := run]
    ensures Evolves(d.runs[runId], d.runs[run.runId := run][runId], emitted)
  {
    if run.runId == runId {
      var authority := AuthorityFor(event.mutation, Some(d.runs[runId]), receipts);
      PublishedIsControlled(IndexOf(d), d.runs[runId], event, authority);
      assert EvolvesBy(d.runs[runId], run, emitted, event, authority, event.sequence);
    }
  }

  lemma CommitEvolves(d: Disk, event: Event, receipts: Authority, cut: nat, runId: string, emitted: bool)
    requires CoordinatorOnly(d) && runId in d.runs && CoordinatorKind(event.mutation)
    requires emitted ==>
               && CommitIntent(d, event, receipts).outcome.Committed? && cut >= 3
               && event.mutation.ContinuationAttempted? && event.runId == runId
               && !HasReachedNoProgressBound(d.runs[runId])
    ensures var after := CutAt(d, CommitIntent(d, event, receipts), cut);
            && CoordinatorOnly(after) && runId in after.runs
            && Evolves(d.runs[runId], after.runs[runId], emitted)
  {
    var intent := CommitIntent(d, event, receipts);
    CommitKeepsInv(d, event, receipts, cut);
    if intent.outcome.Committed? {
      AcceptedCommits(d, event, receipts);
      var e := PersistedEventForIndex(IndexOf(d), event);
      assert e.mutation == event.mutation && e.runId == event.runId;
      PublicationTicks(d, e, receipts, intent.outcome.run, intent.outcome.index, cut, runId, emitted);
    } else {
      CommitShape(d, event, receipts);
      assert Take(intent.writes, cut) == [];
    }
  }

  lemma PublicationTicks(
    d: Disk, e: Event, receipts: Authority, run: Run, index: Index, cut: nat, runId: string, emitted: bool)
    requires CoordinatorOnly(d) && runId in d.runs && CoordinatorKind(e.mutation)
    requires Commits(d, e, receipts, run, index)
    requires emitted ==> && cut >= 3 && e.mutation.ContinuationAttempted? && e.runId == runId
                         && !HasReachedNoProgressBound(d.runs[runId])
    requires StoreInv(ApplyAll(d, Take([AppendEvent(e), ReplaceRun(run), ReplaceIndex(index)], cut)))
    ensures var after := ApplyAll(d, Take([AppendEvent(e), ReplaceRun(run), ReplaceIndex(index)], cut));
            && CoordinatorOnly(after) && runId in after.runs
            && Evolves(d.runs[runId], after.runs[runId], emitted)
  {
    var after := ApplyAll(d, Take([AppendEvent(e), ReplaceRun(run), ReplaceIndex(index)], cut));
    PublicationCut(d, e, run, index, cut);
    assert CoordinatorOnly(after) by {
      if cut > 0 {
        assert after.log[|after.log| - 1] == e;
      }
    }
    if cut >= 2 {
      PublicationEvolves(d, e, receipts, run, index, runId, emitted);
    }
  }

  lemma PublicationCut(d: Disk, e: Event, run: Run, index: Index, cut: nat)
    ensures var after := ApplyAll(d, Take([AppendEvent(e), ReplaceRun(run), ReplaceIndex(index)], cut));
            && after.log == (if cut == 0 then d.log else d.log + [e])
            && after.runs == (if cut < 2 then d.runs else d.runs[run.runId := run])
            && (cut == 0 ==> after == d)
  {
    ApplyPrefixes3(d, [AppendEvent(e), ReplaceRun(run), ReplaceIndex(index)]);
  }

  lemma NotifyEvolves(d: Disk, q: Request, cut: nat, runId: string)
    requires CoordinatorOnly(d) && runId in d.runs
    ensures var after := TickStep(d, Notify(q, cut));
            && CoordinatorOnly(after) && runId in after.runs
            && Evolves(d.runs[runId], after.runs[runId], EmitsFor(d, Notify(q, cut), runId))
  {
    if !SessionReadable(d, q) || DecisionFor(d, q).Quiet? {
      assert Take(ContinuationIntent(d, q).writes, cut) == [];
    } else {
      var decision := DecisionFor(d, q);
      StoreDecision(d, q);
      var authority := AuthorityIn(q.authorities, decision.run.runId);
      DecisionShape(decision, decision.run, authority, q.leafId);
      var event := CoordinatorEvent(IndexOf(d), decision, q.eventId, q.at);
      CommitEvolves(d, event, authority, cut, runId, EmitsFor(d, Notify(q, cut), runId));
    }
  }

  lemma MendEvolves(d: Disk, receipts: Authority, cut: nat, runId: string)
    requires CoordinatorOnly(d) && runId in d.runs
    ensures var after := TickStep(d, Mend(receipts, cut));
            CoordinatorOnly(after) && runId in after.runs && Evolves(d.runs[runId], after.runs[runId], false)
  {
    var intent := RepairIntent(d, receipts);
    RepairKeepsInv(d, receipts, cut);
    RepairShape(d, receipts);
    if intent.writes == [] {
      assert Take(intent.writes, cut) == [];
    } else {
      RepairCut(d, receipts, cut);
      if |intent.writes| == 2 && cut > 0 {
        var e := d.log[|d.log| - 1];
        PublicationEvolves(d, e, receipts, intent.outcome.run, PrepareOn(d, e, receipts).index, runId, false);
      }
    }
  }

  lemma RepairCut(d: Disk, receipts: Authority, cut: nat)
    requires RepairIntent(d, receipts).writes != []
    ensures var intent := RepairIntent(d, receipts);
            var after := CutAt(d, intent, cut);
            && after.log == d.log
            && after.runs == (if |intent.writes| == 2 && cut > 0 then d.runs[intent.outcome.run.runId := intent.outcome.run]
                              else d.runs)
  {
    RepairShape(d, receipts);
    ApplyPrefixes2(d, RepairIntent(d, receipts).writes);
  }

  lemma TickEvolves(d: Disk, t: Tick, runId: string)
    requires CoordinatorOnly(d) && runId in d.runs
    ensures var after := TickStep(d, t);
            && CoordinatorOnly(after) && runId in after.runs
            && Evolves(d.runs[runId], after.runs[runId], EmitsFor(d, t, runId))
  {
    match t
    case Notify(q, cut) => NotifyEvolves(d, q, cut, runId);
    case Mend(receipts, cut) => MendEvolves(d, receipts, cut, runId);
  }

  lemma EvolvingSpends(before: Run, after: Run, emitted: bool)
    requires Evolves(before, after, emitted) && before.payload.UlwLoop?
    ensures after.payload.UlwLoop? && Potential(after) + (if emitted then 1 else 0) <= Potential(before)
  {
    if after != before || emitted {
      var event: Event, authority: Option<Authority>, sequence: nat :|
        EvolvesBy(before, after, emitted, event, authority, sequence);
      PotentialStep(before, event, authority);
    }
  }

  lemma SteadySpends(before: Run, after: Run, emitted: bool)
    requires Evolves(before, after, emitted) && after.progressRevision == before.progressRevision
    ensures Remaining(after) + (if emitted then 1 else 0) <= Remaining(before)
  {
    if after != before || emitted {
      var event: Event, authority: Option<Authority>, sequence: nat :|
        EvolvesBy(before, after, emitted, event, authority, sequence);
      RemainingStep(before, event, authority);
    }
  }

  /** With only coordinator events, cuts and repairs, a loop with N unsettled criteria is continued at
      most 2(N+1) times, whatever leaves, sessions, plans and receipts the notifications bring. */
  lemma {:induction false} LoopContinuesBounded(d: Disk, ticks: seq<Tick>, runId: string)
    requires CoordinatorOnly(d) && runId in d.runs && d.runs[runId].payload.UlwLoop?
    ensures Emissions(d, ticks, runId) <= Potential(d.runs[runId])
    ensures Emissions(d, ticks, runId) <= 2 * (Unsettled(d.runs[runId].payload.goals) + 1)
    decreases |ticks|
  {
    if ticks != [] {
      TickEvolves(d, ticks[0], runId);
      var after := TickStep(d, ticks[0]);
      EvolvingSpends(d.runs[runId], after.runs[runId], EmitsFor(d, ticks[0], runId));
      LoopContinuesBounded(after, ticks[1..], runId);
    }
  }

  /** The run keeps its progress revision along the way. */
  ghost predicate Steady(d: Disk, ticks: seq<Tick>, runId: string, progress: nat)
    decreases |ticks|
  {
    && runId in d.runs && d.runs[runId].progressRevision == progress
    && (ticks != [] ==> Steady(TickStep(d, ticks[0]), ticks[1..], runId, progress))
  }

  /** Without progress a run of either workflow is continued at most twice. */
  lemma {:induction false} TwoContinuesWithoutProgress(d: Disk, ticks: seq<Tick>, runId: string)
    requires CoordinatorOnly(d) && runId in d.runs
    requires Steady(d, ticks, runId, d.runs[runId].progressRevision)
    ensures Emissions(d, ticks, runId) <= Remaining(d.runs[runId]) <= 2
    decreases |ticks|
  {
    if ticks != [] {
      TickEvolves(d, ticks[0], runId);
      var after := TickStep(d, ticks[0]);
      SteadySpends(d.runs[runId], after.runs[runId], EmitsFor(d, ticks[0], runId));
      TwoContinuesWithoutProgress(after, ticks[1..], runId);
    }
  }

  /** After the second one, the next decision on a fresh leaf is to stop or to settle. */
  lemma BoundStopsContinuing(snapshot: Snapshot, sessionId: string, leafId: string)
    ensures var decision := DecideContinuation(snapshot, sessionId, leafId);
            !decision.Quiet? && HasReachedNoProgressBound(decision.run) ==> decision.StuckNow? || decision.Settled?
  {
    var decision := DecideContinuation(snapshot, sessionId, leafId);
    if !decision.Quiet? {
      DecisionOrigin(snapshot, sessionId, leafId);
      DecisionShape(decision, decision.run, AuthorityOf(snapshot, decision.run), leafId);
    }
  }
}
