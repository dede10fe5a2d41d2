/** Resubmitting events that are already in the log, over whole runs of the store. */
module ReplayProofs {
  import opened Prelude
  import opened Domain
  import opened ReceiptAuthority
  import opened StateTransition
  import opened TransactionStore
  import opened StoreProofs

  /** No event id is logged twice, and the run of every indexed event has been published at its sequence
      or later. */
  ghost predicate ReplayInv(d: Disk) {
    && (forall i, j | 0 <= i < j < |d.log| :: d.log[i].eventId != d.log[j].eventId)
    && forall i | 0 <= i < Min(|d.log|, IndexOf(d).revision) ::
         d.log[i].runId in d.runs && d.runs[d.log[i].runId].transactionRevision >= i + 1
  }

  lemma AppendKeepsReplay(d: Disk, e: Event)
    requires StoreInv(d) && !Behind(d) && ReplayInv(d)
    requires forall x | x in d.log :: x.eventId != e.eventId
    ensures ReplayInv(Apply(d, AppendEvent(e)))
  {
    var after := Apply(d, AppendEvent(e));
    forall i, j | 0 <= i < j < |after.log| ensures after.log[i].eventId != after.log[j].eventId {
      assert d.log[i] in d.log;
    }
  }

  /** Publishing the run, then the index, of the one event ahead. */
  lemma PublishKeepsReplay(d: Disk, run: Run, index: Index)
    requires StoreInv(d) && Behind(d) && ReplayInv(d)
    requires run.runId == d.log[|d.log| - 1].runId && run.transactionRevision == |d.log|
    requires index.revision == |d.log|
    ensures var d2 := Apply(d, ReplaceRun(run)); ReplayInv(d2) && ReplayInv(Apply(d2, ReplaceIndex(index)))
  {
  }

  lemma CommitKeepsReplay(d: Disk, event: Event, receipts: Authority, cut: nat)
    requires StoreInv(d) && ReplayInv(d)
    ensures ReplayInv(CutAt(d, CommitIntent(d, event, receipts), cut))
  {
    var intent := CommitIntent(d, event, receipts);
    CommitShape(d, event, receipts);
    if intent.writes == [] {
      assert Take(intent.writes, cut) == [];
    } else {
      CommitPublishes(d, event, receipts);
      NovelEvent(d, event, receipts);
      PublicationKeepsReplay(d, intent.writes[0].event, intent.outcome.run, intent.outcome.index);
      ApplyPrefixes3(d, intent.writes);
    }
  }

  lemma PublicationKeepsReplay(d: Disk, e: Event, run: Run, index: Index)
    requires StoreInv(d) && !Behind(d) && ReplayInv(d)
    requires forall x | x in d.log :: x.eventId != e.eventId
    requires e.sequence == IndexOf(d).revision + 1 && e.expected.indexRevision == IndexOf(d).revision
    requires run.runId == e.runId && run.transactionRevision == e.sequence
    requires index == DeriveIndex(IndexOf(d), run, e.sequence)
    ensures var d1 := Apply(d, AppendEvent(e));
            var d2 := Apply(d1, ReplaceRun(run));
            ReplayInv(d1) && ReplayInv(d2) && ReplayInv(Apply(d2, ReplaceIndex(index)))
  {
    PublicationKeepsInv(d, e, run, index);
    AppendKeepsReplay(d, e);
    PublishKeepsReplay(Apply(d, AppendEvent(e)), run, index);
  }

  lemma RepairKeepsReplay(d: Disk, receipts: Authority, cut: nat)
    requires StoreInv(d) && ReplayInv(d)
    ensures ReplayInv(CutAt(d, RepairIntent(d, receipts), cut))
  {
    var intent := RepairIntent(d, receipts);
    RepairShape(d, receipts);
    if intent.writes == [] {
      assert Take(intent.writes, cut) == [];
    } else {
      var run, index := intent.outcome.run, intent.outcome.index;
      PublishKeepsReplay(d, run, index);
      ApplyPrefixes2(d, intent.writes);
      if |intent.writes| == 1 {
        assert d.runs[run.runId := run] == d.runs;
        assert Apply(d, ReplaceRun(run)) == d;
      }
    }
  }

  lemma {:induction false} EveryRunKeepsReplay(d: Disk, ops: seq<Op>)
    requires Empty(d)
    ensures StoreInv(RunOps(d, ops)) && ReplayInv(RunOps(d, ops))
  {
    EveryRunKeepsInv(d, ops);
    if ops != [] {
      var prior := RunOps(d, ops[..|ops| - 1]);
      EveryRunKeepsReplay(d, ops[..|ops| - 1]);
      match ops[|ops| - 1]
      case DoCommit(event, receipts, cut) => CommitKeepsReplay(prior, event, receipts, cut);
      case DoRepair(receipts, cut) => RepairKeepsReplay(prior, receipts, cut);
    }
  }

  /** The lookup by event id finds the one logged event. */
  lemma LoggedFound(d: Disk, i: nat, id: string)
    requires ReplayInv(d) && i < |d.log| && id == d.log[i].eventId
    ensures FirstWhere(d.log, (e: Event) => e.eventId == id) == Some(d.log[i])
  {
    var found := FirstWhere(d.log, (e: Event) => e.eventId == id);
    assert d.log[i] in d.log;
    var j :| 0 <= j < |d.log| && d.log[j] == found.value;
    assert i == j;
  }

  /** Submitting anything under the id of a logged event, however many commits, cuts and repairs later,
      writes nothing. It is a replay if it says what the logged event says, unless that event is the cut
      creation of a run not there yet; otherwise it is an idempotency conflict. */
  lemma ResubmitChangesNothing(d: Disk, ops: seq<Op>, i: nat, event: Event, receipts: Authority)
    requires Empty(d) && i < |RunOps(d, ops).log| && event.eventId == RunOps(d, ops).log[i].eventId
    requires var end := RunOps(d, ops);
             IndexReadable(end) && LogReadable(end.log) && RunReadable(end, end.log[i].runId)
    ensures var end := RunOps(d, ops);
            var logged := end.log[i];
            var again := CommitIntent(end, event, receipts);
            && again.writes == []
            && again.outcome ==
               (if event.(sequence := logged.sequence, at := logged.at) != logged then Rejected(IdempotencyConflict)
                else if logged.runId in end.runs then Replayed(end.runs[logged.runId], IndexOf(end))
                else Rejected(StateDiverged))
            && (logged.runId in end.runs || (Behind(end) && i == |end.log| - 1))
  {
    var end := RunOps(d, ops);
    EveryRunKeepsReplay(d, ops);
    LoggedFound(end, i, event.eventId);
    SemanticsIff(event, end.log[i]);
  }

  /** Two events under one id say the same exactly when they differ in nothing but sequence and time. */
  lemma SemanticsIff(a: Event, b: Event)
    requires a.eventId == b.eventId
    ensures EventSemantics(a) == EventSemantics(b) <==> a.(sequence := b.sequence, at := b.at) == b
  {
    var s, t := EventSemantics(a), EventSemantics(b);
    if s == t {
      assert s.runId == t.runId && s.workflow == t.workflow && s.expected == t.expected;
      assert s.mutation == t.mutation && s.binding == t.binding;
    }
  }

  /** An event that storing rewrote is a conflict when it is submitted again, even unchanged; one that
      storing left alone is not. */
  lemma RewrittenIsConflict(d: Disk, ops: seq<Op>, i: nat, event: Event, index: Index, receipts: Authority)
    requires Empty(d) && i < |RunOps(d, ops).log| && RunOps(d, ops).log[i] == PersistedEventForIndex(index, event)
    requires var end := RunOps(d, ops);
             IndexReadable(end) && LogReadable(end.log) && RunReadable(end, end.log[i].runId)
    ensures CommitIntent(RunOps(d, ops), event, receipts).outcome == Rejected(IdempotencyConflict) <==>
            index.migrationRevision.Some? && event.binding.Unbound?
  {
    ResubmitChangesNothing(d, ops, i, event, receipts);
  }

  /** On a healthy store resubmitting any logged event as it was logged is answered as a replay, with the
      current run and the current index. */
  lemma HealthyResubmitIsReplayed(d: Disk, ops: seq<Op>, i: nat, receipts: Authority)
    requires Empty(d) && i < |RunOps(d, ops).log| && InspectRecovery(RunOps(d, ops)).Healthy?
    requires RunReadable(RunOps(d, ops), RunOps(d, ops).log[i].runId)
    ensures var end := RunOps(d, ops);
            && end.log[i].runId in end.runs
            && CommitIntent(end, end.log[i], receipts) == Intent(Replayed(end.runs[end.log[i].runId], IndexOf(end)), [])
  {
    ResubmitChangesNothing(d, ops, i, RunOps(d, ops).log[i], receipts);
  }

  /** Exactly when the answer to a resubmission is current: its index includes the event unless the event
      is the one ahead of the index, and its run does unless moreover the run was not replaced yet. */
  lemma ReplayIsCurrentIff(d: Disk, ops: seq<Op>, i: nat, event: Event, receipts: Authority)
    requires Empty(d) && i < |RunOps(d, ops).log| && event.eventId == RunOps(d, ops).log[i].eventId
    requires CommitIntent(RunOps(d, ops), event, receipts).outcome.Replayed?
    ensures var end := RunOps(d, ops);
            var sequence := end.log[i].sequence;
            var answer := CommitIntent(end, event, receipts).outcome;
            && (answer.index.revision >= sequence <==> !(Behind(end) && i == |end.log| - 1))
            && (answer.run.transactionRevision >= sequence <==>
                  !(Behind(end) && i == |end.log| - 1 && !RunPublished(end)))
  {
    var end := RunOps(d, ops);
    EveryRunKeepsReplay(d, ops);
    LoggedFound(end, i, event.eventId);
    assert EventSemantics(event).runId == EventSemantics(end.log[i]).runId;
    assert end.log[i].sequence == i + 1;
  }

  /** A commit goes through exactly on a readable store that is not behind, for an event id not logged yet,
      when the transition accepts the event as stored. */
  lemma CommitsIff(d: Disk, event: Event, receipts: Authority)
    ensures CommitIntent(d, event, receipts).outcome.Committed? <==>
            && IndexReadable(d) && LogReadable(d.log) && RunReadable(d, event.runId)
            && |d.log| == IndexOf(d).revision && (forall e | e in d.log :: e.eventId != event.eventId)
            && PrepareOn(d, PersistedEventForIndex(IndexOf(d), event), receipts).Prepared?
  {
    var found := FirstWhere(d.log, (e: Event) => e.eventId == event.eventId);
  }

  /** A store that is behind takes no new event until it is repaired. */
  lemma BehindRefuses(d: Disk, event: Event, receipts: Authority)
    requires IndexReadable(d) && LogReadable(d.log) && |d.log| != IndexOf(d).revision
    requires forall e | e in d.log :: e.eventId != event.eventId
    ensures CommitIntent(d, event, receipts) == Intent(Rejected(StateDiverged), [])
  {
    assert FirstWhere(d.log, (e: Event) => e.eventId == event.eventId).None?;
  }

  /** What inspection reports: corrupt exactly if something does not decode; otherwise by how far the log is
      ahead of the index. */
  lemma InspectionIff(d: Disk)
    ensures InspectRecovery(d) == Corrupt <==> !(IndexReadable(d) && LogReadable(d.log))
    ensures IndexReadable(d) && LogReadable(d.log) ==>
              var ahead := |d.log| - IndexOf(d).revision;
              && (ahead == 0 <==> InspectRecovery(d) == Healthy(|d.log|))
              && (ahead == 1 <==> InspectRecovery(d) == Repairable(|d.log|))
              && (ahead >= 2 <==> InspectRecovery(d) == MultipleEventsAhead)
              && (ahead < 0 <==> InspectRecovery(d) == IndexAhead)
  {
  }
}
