/** The durable coordinator: one idle notification against the store. */
module Coordinator {
  import opened Prelude
  import opened Domain
  import opened ReceiptAuthority
  import opened StateTransition
  import opened TransactionStore
  import opened StoreProofs
  import opened Continuation
  import opened ContinuationProofs

  /** A committed continuation passes every check the coordinator makes on the commit's answer. */
  lemma CommittedContinue(d: Disk, q: Request)
    requires StoreInv(d) && SessionReadable(d, q) && !DecisionFor(d, q).Quiet?
    ensures var decision, intent := DecisionFor(d, q), ContinuationIntent(d, q);
            var event := CoordinatorEvent(IndexOf(d), decision, q.eventId, q.at);
            && (intent.outcome.Replayed? ==> intent.outcome.index.revision != event.sequence)
            && (intent.outcome.Committed? ==> |intent.writes| == 3)
            && (!intent.outcome.Committed? ==> intent.writes == [])
            && (decision.Continue? && intent.outcome.Committed? ==>
                  && intent.outcome.index.revision == event.sequence
                  && intent.outcome.run.transactionRevision == event.sequence
                  && intent.outcome.run.owner == decision.run.owner
                  && intent.outcome.run.owner.sessionId == q.sessionId
                  && var entry := FirstWhere(intent.outcome.index.entries, (e: IndexEntry) => e.runId == event.runId);
                  entry.Some? && entry.value.transactionRevision == event.sequence)
  {
    var decision := DecisionFor(d, q);
    StoreDecision(d, q);
    var authority := AuthorityIn(q.authorities, decision.run.runId);
    var event := CoordinatorEvent(IndexOf(d), decision, q.eventId, q.at);
    AnswerShape(d, event, authority);
    if decision.Continue? && CommitIntent(d, event, authority).outcome.Committed? {
      DecisionShape(decision, decision.run, authority, q.leafId);
      CommittedAttempt(d, event, authority);
    }
  }

  /** A commit writes three times or not at all, and a replay's index is behind the event. */
  lemma AnswerShape(d: Disk, event: Event, receipts: Authority)
    requires StoreInv(d) && event.sequence == IndexOf(d).revision + 1
    ensures var intent := CommitIntent(d, event, receipts);
            && (intent.outcome.Replayed? ==> intent.outcome.index.revision != event.sequence)
            && (intent.outcome.Committed? ==> |intent.writes| == 3)
            && (!intent.outcome.Committed? ==> intent.writes == [])
  {
    CommitShape(d, event, receipts);
  }

  /** What a committed continuation attempt on an active run publishes. */
  lemma CommittedAttempt(d: Disk, event: Event, receipts: Authority)
    requires StoreInv(d) && event.mutation.ContinuationAttempted? && event.runId in d.runs
    requires d.runs[event.runId].payload.status.Active?
    requires CommitIntent(d, event, receipts).outcome.Committed?
    requires PersistedEventForIndex(IndexOf(d), event).sequence == event.sequence
    ensures var o := CommitIntent(d, event, receipts).outcome;
            && o.index.revision == event.sequence && o.run.transactionRevision == event.sequence
            && o.run.owner == d.runs[event.runId].owner
            && var entry := FirstWhere(o.index.entries, (e: IndexEntry) => e.runId == event.runId);
            entry.Some? && entry.value.transactionRevision == event.sequence
  {
    AcceptedCommits(d, event, receipts);
    ContinuedRun(d, event, receipts);
    EntryFound(IndexOf(d), CommitIntent(d, event, receipts).outcome.run, event.sequence);
  }

  lemma ContinuedRun(d: Disk, event: Event, receipts: Authority)
    requires event.mutation.ContinuationAttempted? && event.runId in d.runs
    requires CommitIntent(d, event, receipts).outcome.Committed?
    ensures var run := CommitIntent(d, event, receipts).outcome.run;
            run.owner == d.runs[event.runId].owner && run.payload == d.runs[event.runId].payload
  {
  }

  lemma EntryFound(index: Index, run: Run, sequence: nat)
    requires StatusHint(run).Some?
    ensures var entry := FirstWhere(DeriveIndex(index, run, sequence).entries, (e: IndexEntry) => e.runId == run.runId);
            entry.Some? && entry.value.transactionRevision == sequence
  {
    var entries := DeriveIndex(index, run, sequence).entries;
    assert entries[|entries| - 1] in entries;
    var retained := Retained(index.entries, run.runId);
    assert forall e | e in entries :: e in retained || e == EntryFor(run, StatusHint(run).value, sequence);
  }

  datatype CoordinatorResult = StayQuiet | EmitContinue(runId: string) | Raise

  /** What one notification does to the store and answers, when the session's fence expires after
      `fence` of five checks: before reading, after the index, after the runs, before the commit, and
      after it. */
  ghost predicate Handled(d: Disk, q: Request, fuse: nat, fence: nat, after: Disk, result: CoordinatorResult) {
    && after == (if fence >= 4 then CutAt(d, ContinuationIntent(d, q), fuse) else d)
    && (result.EmitContinue? <==> fence >= 5 && Emits(d, q, fuse))
    && (result.EmitContinue? ==> result.runId == DecisionFor(d, q).run.runId)
    && (result.Raise? <==>
          || (fence >= 1 && !IndexReadable(d))
          || (fence >= 2 && !SessionReadable(d, q))
          || (fence >= 4 && ContinuationIntent(d, q).outcome.DecodeError?))
  }

  method Handle(store: Store, q: Request, fence: nat) returns (result: CoordinatorResult)
    requires StoreInv(store.State())
    modifies store
    ensures StoreInv(store.State())
    ensures Handled(old(store.State()), q, old(store.fuse), fence, store.State(), result)
  {
    var d := store.State();
    if fence < 1 {
      return StayQuiet;
    }
    if !IndexReadable(d) {
      assert Take(ContinuationIntent(d, q).writes, store.fuse) == [];
      return Raise;
    }
    if fence < 2 {
      return StayQuiet;
    }
    if !SessionReadable(d, q) {
      assert Take(ContinuationIntent(d, q).writes, store.fuse) == [];
      return Raise;
    }
    if fence < 3 {
      return StayQuiet;
    }
    var index := IndexOf(d);
    var runs := SessionRuns(d, index.entries, q.sessionId);
    var authorities := Map(runs, (r: Run) => AuthorityObservation(r.runId, AuthorityIn(q.authorities, r.runId)));
    var plans := ObservePlans(runs, q.plans);
    var decision := DecideContinuation(Snapshot(index, runs, plans, authorities), q.sessionId, q.leafId);
    assert decision == DecisionFor(d, q);
    if decision.Quiet? || fence < 4 {
      assert decision.Quiet? ==> Take(ContinuationIntent(d, q).writes, store.fuse) == [];
      return StayQuiet;
    }
    result := CommitDecision(store, q, decision, fence);
  }

  /** Reads the plan file of every start-work run, skipping those that are missing. */
  method ObservePlans(runs: seq<Run>, files: map<string, PlanSnapshot>) returns (plans: seq<PlanObservation>)
    ensures plans == PlansFor(runs, files)
  {
    plans := [];
    for i := 0 to |runs|
      invariant plans == PlansFor(runs[..i], files)
    {
      assert runs[..i + 1][..i] == runs[..i];
      if runs[i].payload.StartWork? && runs[i].payload.plan.displayPath in files {
        plans := plans + [PlanObservation(runs[i].runId, files[runs[i].payload.plan.displayPath])];
      }
    }
    assert runs[..|runs|] == runs;
  }

  /** Commits the decision's event and checks the answer before handing back a continuation. */
  method CommitDecision(store: Store, q: Request, decision: Decision, fence: nat) returns (result: CoordinatorResult)
    requires StoreInv(store.State()) && SessionReadable(store.State(), q) && fence >= 4
    requires !decision.Quiet? && decision == DecisionFor(store.State(), q)
    modifies store
    ensures StoreInv(store.State())
    ensures Handled(old(store.State()), q, old(store.fuse), fence, store.State(), result)
  {
    var event := CoordinatorEvent(IndexOf(store.State()), decision, q.eventId, q.at);
    var receipts := AuthorityIn(q.authorities, decision.run.runId);
    CommitKeepsInv(store.State(), event, receipts, store.fuse);
    CommittedContinue(store.State(), q);
    var outcome := store.Commit(event, receipts);
    if outcome.DecodeError? {
      return Raise;
    }
    if (!outcome.Committed? && !outcome.Replayed?) || fence < 5 {
      return StayQuiet;
    }
    if || outcome.index.revision != event.sequence
       || outcome.run.transactionRevision != event.sequence
       || outcome.run.owner.sessionId != q.sessionId
       || Some(outcome.run.owner.epoch) != event.expected.ownerEpoch {
      return StayQuiet;
    }
    var entry := FirstWhere(outcome.index.entries, (e: IndexEntry) => e.runId == event.runId);
    if decision.Continue? && (entry.None? || entry.value.transactionRevision != event.sequence) {
      return StayQuiet;
    }
    return if decision.Continue? then EmitContinue(decision.run.runId) else StayQuiet;
  }
}
