/** Inputs on which a property one might expect of the reducers fails; the exact conditions are proved
    beside the reducers' other properties. */
module Findings {
  import opened Prelude
  import opened Domain
  import opened WorkflowControl
  import opened ReceiptAuthority
  import opened StateTransition
  import opened TransactionStore
  import opened StoreProofs
  import opened TransitionProofs

  function SampleCriterion(id: string): Criterion {
    Criterion(id, None, CriterionPending, None, 0, None, None, None)
  }

  function SampleRun(id: string, payload: Payload): Run {
    Run(V2(None, Some("head")), id, 0, 0, Owner("session", 0), 0, Continuation(None, 0, 2, false), payload)
  }

  /** A loop with an open goal beside the active one. */
  function TwoGoals(): seq<Goal> {
    [Goal("G1", GoalInProgress, 0, [SampleCriterion("C1")]), Goal("G2", GoalPending, 0, [SampleCriterion("C2")])]
  }

  function SampleLoop(): Run { SampleRun("R", UlwLoop(Active, None, Some("G1"), TwoGoals())) }

  lemma SampleLoopDecodes()
    ensures RunDecodes(SampleLoop()) && CriterionIds(TwoGoals()) == ["C1", "C2"] && DistinctGoals(TwoGoals())
  {
    var goals := TwoGoals();
    assert goals[1..] == [goals[1]] && goals[1..][1..] == [];
    assert CriterionIds(goals) == ["C1", "C2"] by {
      assert CriterionIds([goals[1]]) == Ids(goals[1].criteria) + CriterionIds([]);
      assert CriterionIds(goals) == Ids(goals[0].criteria) + CriterionIds([goals[1]]);
    }
    assert InProgressIds(goals) == ["G1"] by {
      assert InProgressIds([goals[1]]) == [] + InProgressIds([]);
    }
    assert Distinct(CriterionIds(goals)) by { assert "C1"[1] != "C2"[1]; }
    assert DistinctGoals(goals) by { assert "G1"[1] != "G2"[1]; }
    GoalIdsDistinct(goals);
  }

  /** The event that follows the creation of the sample loop. */
  function Second(m: Mutation, generation: Option<nat>): Event {
    Event("E2", 2, "R", UlwLoopKind, Expected(1, Some(0), Some("session"), Some(0)), m, "now",
          Bound(None, generation, false))
  }

  function SampleIndex(): Index { Index(None, 1, [EntryFor(SampleLoop(), HintActive, 1)]) }

  function SampleKey(): AcceptanceKey { AcceptanceKey("R", 0, "agent", "hash") }

  function SampleDetail(): WorkDetail { WorkDetail("worker", None, ["artifact"], [], None, None, false) }

  function SampleAuthority(): Authority {
    Authority(1, [Acceptance(1, SampleKey(), 0, 0, "session", 0, 1, "head", "path", "hash", Some("C1"), Some("worker"), Some(1), SampleDetail())], [])
  }

  function SampleSettlement(): Event {
    Second(CriterionSettled("G1", "C1", Some(SampleKey()), "ref", 0, "head"), Some(1))
  }

  /** An accepted settlement of the only criterion of the active goal, while another goal is open,
      publishes a run the decoder refuses. */
  lemma MultiGoalSettlementUndecodable()
    ensures RunDecodes(SampleLoop()) && EventDecodes(SampleSettlement()) && IndexValid(SampleIndex().entries)
    ensures var t := PrepareTransition(SampleIndex(), Some(SampleLoop()), SampleSettlement(), Some(SampleAuthority()));
            t.Prepared? && !RunDecodes(t.run)
  {
    var run, event, authority := SampleLoop(), SampleSettlement(), Some(SampleAuthority());
    assert RunDecodes(run) by { SampleLoopDecodes(); }
    assert ControlRun(run, event, authority).Some? by { SampleSettles(event); }
    PreparedIff(SampleIndex(), run, event, authority);
    SampleSettlementFails(run, event);
    PublishedDecodesIff(SampleIndex(), Some(run), event, authority);
  }

  lemma SampleSettles(event: Event)
    requires event == SampleSettlement()
    ensures ControlRun(SampleLoop(), event, Some(SampleAuthority())).Some?
  {
    SampleAcceptanceIsCurrent();
    assert SettleCriterion(SampleLoop(), event, Some(SampleAuthority())).Some?;
  }

  lemma SampleAcceptanceIsCurrent()
    ensures CurrentAcceptance(SampleLoop(), SampleAuthority(), "C1") == Some(SampleAuthority().accepted[0])
  {
    assert IsCurrent(SampleLoop(), SampleAuthority(), "C1", SampleAuthority().accepted[0]);
  }

  lemma SampleSettlementFails(run: Run, event: Event)
    requires run == SampleLoop() && event == SampleSettlement()
    ensures !LeavesDecodable(run, event)
  {
    var goals := TwoGoals();
    assert goals[0] in goals && goals[1] in goals && SampleCriterion("C2") in goals[1].criteria;
    assert "G1"[1] != "G2"[1];
    assert !SettleLeavesDecodable(run, event.mutation);
  }

  function TwiceTheSame(): Mutation {
    var n := NewCriterion("C3", CriterionText("scenario", "observable", "evidence"));
    WorkflowSteered([n, n], None)
  }

  lemma SampleSteeringAccepted()
    ensures Steer(SampleLoop(), TwiceTheSame()).Some? && !Distinct(NewIds(TwiceTheSame()))
  {
    SampleLoopDecodes();
    assert "C3"[1] != "C1"[1] && "C3"[1] != "C2"[1];
    var ids := NewIds(TwiceTheSame());
    assert ids[0] == ids[1];
  }

  function SampleSteering(): Event { Second(TwiceTheSame(), Some(1)) }

  /** An accepted steering event that names one new criterion twice publishes such a run too. */
  lemma DuplicateSteeringUndecodable()
    ensures RunDecodes(SampleLoop()) && EventDecodes(SampleSteering())
    ensures var t := PrepareTransition(SampleIndex(), Some(SampleLoop()), SampleSteering(), None);
            t.Prepared? && !RunDecodes(t.run)
  {
    var run, event := SampleLoop(), SampleSteering();
    assert RunDecodes(run) by { SampleLoopDecodes(); }
    SampleSteeringAccepted();
    PreparedIff(SampleIndex(), run, event, None);
    PublishedDecodesIff(SampleIndex(), Some(run), event, None);
  }

  // ---------------------------------------------------------------------------
  // A store with the sample loop, one event later
  // ---------------------------------------------------------------------------

  const NewStore := Disk([], map[], None)

  function Creation(): Event {
    Event("E1", 1, "R", UlwLoopKind, Expected(0, None, None, None), RunCreated(SampleLoop()), "now", Bound(None, None, false))
  }

  function Created(): Disk {
    Disk([Creation()], map["R" := SampleLoop().(transactionRevision := 1)], Some(SampleIndex()))
  }

  lemma CreationPrepared()
    ensures PrepareTransition(Index(None, 0, []), None, Creation(), None)
         == Prepared(SampleLoop().(transactionRevision := 1), SampleIndex())
  {
    assert Retained([], "R") == [];
  }

  lemma CreationIntent()
    ensures var run, index := SampleLoop().(transactionRevision := 1), SampleIndex();
            CommitIntent(NewStore, Creation(), EMPTY_AUTHORITY) ==
            Intent(Committed(run, index), [AppendEvent(Creation()), ReplaceRun(run), ReplaceIndex(index)])
  {
    CreationPrepared();
  }

  lemma CreationCommits()
    ensures RunOps(NewStore, First()) == Created()
  {
    CreationIntent();
    ApplyPrefixes3(NewStore, CommitIntent(NewStore, Creation(), EMPTY_AUTHORITY).writes);
    OneOp(NewStore, DoCommit(Creation(), EMPTY_AUTHORITY, 3));
  }

  function First(): seq<Op> { [DoCommit(Creation(), EMPTY_AUTHORITY, 3)] }

  lemma OneOp(d: Disk, op: Op)
    ensures RunOps(d, [op]) == Step(d, op)
  {
    assert [op][..0] == [];
  }

  lemma NextOp(d: Disk, ops: seq<Op>, op: Op)
    ensures RunOps(d, ops + [op]) == Step(RunOps(d, ops), op)
  {
    assert (ops + [op])[..|ops|] == ops;
  }

  lemma SecondCommits(m: Mutation, generation: Option<nat>)
    requires m.WorkflowSteered? || m.ContinuationAttempted?
    requires TaskScoped(m) == generation.Some? && ControlRun(Created().runs["R"], Second(m, generation), None).Some?
    ensures CommitIntent(Created(), Second(m, generation), EMPTY_AUTHORITY).outcome.Committed?
  {
    SampleLoopDecodes();
    var event, run := Second(m, generation), Created().runs["R"];
    assert "E1"[1] != "E2"[1];
    assert CheckExpected(run, event).None?;
    PreparedIff(SampleIndex(), run, event, None);
    assert PrepareOn(Created(), event, EMPTY_AUTHORITY).Prepared?;
  }

  lemma SteeringOnCreated()
    ensures var run, event := Created().runs["R"], SampleSteering();
            ControlRun(run, event, None).Some? && !RunDecodes(ControlRun(run, event, None).value)
  {
    var run, m := Created().runs["R"], TwiceTheSame();
    SampleLoopDecodes();
    SampleSteeringAccepted();
    assert Steer(run, m).Some?;
    SteerDecodesIff(run, m);
  }

  /** The store after the creation and a cut second commit. */
  lemma SecondCut(event: Event, cut: nat)
    requires CommitIntent(Created(), event, EMPTY_AUTHORITY).outcome.Committed? && event.binding.Bound?
    requires 0 < cut < 3
    ensures var logged := Apply(Created(), AppendEvent(event));
            RunOps(NewStore, First() + [DoCommit(event, EMPTY_AUTHORITY, cut)]) ==
            if cut == 1 then logged
            else Apply(logged, ReplaceRun(CommitIntent(Created(), event, EMPTY_AUTHORITY).outcome.run))
  {
    CreatedInv();
    CommitShape(Created(), event, EMPTY_AUTHORITY);
    ApplyPrefixes3(Created(), CommitIntent(Created(), event, EMPTY_AUTHORITY).writes);
    CreationCommits();
    NextOp(NewStore, First(), DoCommit(event, EMPTY_AUTHORITY, cut));
  }

  function CutSteering(): seq<Op> {
    First() + [DoCommit(SampleSteering(), EMPTY_AUTHORITY, 2)]
  }

  lemma CreatedInv()
    ensures StoreInv(Created())
  {
    CreationCommits();
    EveryRunKeepsInv(NewStore, First());
  }

  /** The accepted steering event, cut after its run was replaced, is beyond repair whatever the receipts. */
  lemma CutCommitBeyondRepair(receipts: Authority)
    ensures var cut := RunOps(NewStore, CutSteering());
            Behind(cut) && IndexReadable(cut) && LogReadable(cut.log) && RepairIntent(cut, receipts) == Intent(DecodeError, [])
  {
    CutSteeringDisk();
    UnreadableRunStopsRepair(RunOps(NewStore, CutSteering()), SampleSteering(), receipts);
  }

  lemma CutSteeringDisk()
    ensures var cut := RunOps(NewStore, CutSteering());
            cut.log == [Creation(), SampleSteering()] && IndexOf(cut) == SampleIndex() && !RunReadable(cut, "R")
  {
    assert CommitIntent(Created(), SampleSteering(), EMPTY_AUTHORITY).outcome.Committed? by {
      SteeringOnCreated();
      SecondCommits(TwiceTheSame(), Some(1));
    }
    SecondCut(SampleSteering(), 2);
    SteeringPublished();
  }

  lemma SteeringPublished()
    requires CommitIntent(Created(), SampleSteering(), EMPTY_AUTHORITY).outcome.Committed?
    ensures var run := CommitIntent(Created(), SampleSteering(), EMPTY_AUTHORITY).outcome.run;
            run.runId == "R" && !RunDecodes(run)
  {
    assert !RunDecodes(ControlRun(Created().runs["R"], SampleSteering(), None).value) by { SteeringOnCreated(); }
    CommitShape(Created(), SampleSteering(), EMPTY_AUTHORITY) by { CreatedInv(); }
    PublishedIsControlled(SampleIndex(), Created().runs["R"], SampleSteering(), None);
  }

  lemma UnreadableRunStopsRepair(d: Disk, event: Event, receipts: Authority)
    requires d.log == [Creation(), event] && event.sequence == 2 && event.expected.indexRevision == 1
    requires EventDecodes(event) && IndexOf(d) == SampleIndex() && !RunReadable(d, event.runId)
    ensures Behind(d) && IndexReadable(d) && LogReadable(d.log) && RepairIntent(d, receipts) == Intent(DecodeError, [])
  {
    SampleLoopDecodes();
  }

  function CutAttempt(): seq<Op> {
    First() + [DoCommit(Second(ContinuationAttempted("leaf", 0), None), EMPTY_AUTHORITY, 1)]
  }

  lemma AttemptCommits()
    ensures CommitIntent(Created(), Second(ContinuationAttempted("leaf", 0), None), EMPTY_AUTHORITY).outcome.Committed?
  {
    assert AttemptContinuation(Created().runs["R"], ContinuationAttempted("leaf", 0)).Some?;
    SecondCommits(ContinuationAttempted("leaf", 0), None);
  }

  /** A commit cut after its append: resubmitting the event is answered as a replay with an index that does
      not include it yet. */
  lemma CutCommitReplayedStale(receipts: Authority)
    ensures var event, end := Second(ContinuationAttempted("leaf", 0), None), RunOps(NewStore, CutAttempt());
            var answer := CommitIntent(end, event, receipts).outcome;
            event in end.log && answer.Replayed? && answer.index.revision < event.sequence
  {
    var event := Second(ContinuationAttempted("leaf", 0), None);
    AttemptCommits();
    SecondCut(event, 1);
    assert RunDecodes(Created().runs["R"]) by { SampleLoopDecodes(); }
    AheadIsReplayed(RunOps(NewStore, CutAttempt()), event, receipts);
  }

  lemma AheadIsReplayed(d: Disk, event: Event, receipts: Authority)
    requires d.log == [Creation(), event] && event.sequence == 2 && event.eventId == "E2" && event.runId == "R"
    requires EventDecodes(event) && IndexOf(d) == SampleIndex() && "R" in d.runs && RunDecodes(d.runs["R"])
    ensures event in d.log
    ensures CommitIntent(d, event, receipts).outcome == Replayed(d.runs["R"], SampleIndex())
  {
    SampleLoopDecodes();
    assert "E1"[1] != "E2"[1];
    assert d.log[1] == event;
    assert forall x | x in d.log :: x == Creation() || x == event;
    assert Creation().eventId == "E1" && event in d.log;
  }

  function SamplePlanRun(id: string, status: Status): Run { SampleRun(id, StartWork(status, Plan("plan", "print", []))) }

  /** The index lists run B; run A, of the same session and workflow, has completed. */
  function OtherHolds(): Index { Index(Some(1), 1, [EntryFor(SamplePlanRun("B", Active), HintActive, 1)]) }

  function LateStuckReport(): Event {
    Event("E", 2, "A", StartWorkKind, Expected(1, Some(0), Some("session"), Some(0)), ContinuationStuck("leaf"), "now",
          Bound(None, None, false))
  }

  /** A stuck report on a completed run brings it back into the index; if its session has started
      another run of the same workflow meanwhile, the written index no longer decodes. */
  lemma StuckReportOnTerminalRunBreaksIndex()
    ensures IndexValid(OtherHolds().entries) && RunDecodes(SamplePlanRun("A", Completed))
    ensures var t := PrepareTransition(OtherHolds(), Some(SamplePlanRun("A", Completed)), LateStuckReport(), None);
            t.Prepared? && !IndexValid(t.index.entries)
  {
    var current, event := SamplePlanRun("A", Completed), LateStuckReport();
    assert ControlRun(current, event, None) == StopContinuation(current, event.mutation);
    PreparedIff(OtherHolds(), current, event, None);
    assert OtherHolds().entries[0] in OtherHolds().entries && "A"[0] != "B"[0];
    PublishedFrom(OtherHolds(), current, event, None);
    IndexBreaksIff(OtherHolds(), Some(current), event, None);
  }

  /** A version 1 steering event can never reach a migrated index: the rewrite gives it no task
      generation, and the transition then refuses it as out of scope. */
  lemma LegacySteeringAlwaysRefused(index: Index, current: Option<Run>, event: Event, authority: Option<Authority>)
    requires index.migrationRevision.Some? && event.binding.Unbound? && event.mutation.WorkflowSteered?
    ensures PrepareTransition(index, current, PersistedEventForIndex(index, event), authority).Refused?
  {
  }
}
