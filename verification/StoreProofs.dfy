/** What every run of the transaction store keeps, and why repair equals commit. */
module StoreProofs {
  import opened Prelude
  import opened Domain
  import opened ReceiptAuthority
  import opened StateTransition
  import opened TransactionStore

  // ---------------------------------------------------------------------------
  // The index as a projection of the runs
  // ---------------------------------------------------------------------------

  ghost predicate EntryProjects(e: IndexEntry, run: Run) {
    StatusHint(run).Some? && e == EntryFor(run, StatusHint(run).value, run.transactionRevision)
  }

  ghost predicate DistinctRuns(entries: seq<IndexEntry>) {
    forall i, j | 0 <= i < j < |entries| :: entries[i].runId != entries[j].runId
  }

  ghost predicate Listed(entries: seq<IndexEntry>, id: string) {
    exists i | 0 <= i < |entries| :: entries[i].runId == id
  }

  /** One entry per non-terminal run, carrying that run's owner, epoch, revisions and status hint;
      runs in `except` are exempt. */
  ghost predicate Projection(entries: seq<IndexEntry>, runs: map<string, Run>, except: set<string>) {
    && DistinctRuns(entries)
    && (forall e | e in entries && e.runId !in except :: e.runId in runs && EntryProjects(e, runs[e.runId]))
    && (forall id | id in runs && id !in except && StatusHint(runs[id]).Some? :: Listed(entries, id))
  }

  lemma {:induction false} RetainedKeepsDistinctRuns(entries: seq<IndexEntry>, runId: string)
    requires DistinctRuns(entries)
    ensures DistinctRuns(Retained(entries, runId))
  {
    if entries != [] {
      var tail := Retained(entries[1..], runId);
      RetainedKeepsDistinctRuns(entries[1..], runId);
      forall e | e in tail ensures e.runId != entries[0].runId {
        assert e in entries[1..];
      }
      RetainedStep(entries, runId);
    }
  }

  lemma RetainedStep(entries: seq<IndexEntry>, runId: string)
    requires entries != []
    ensures Retained(entries, runId) ==
            (if entries[0].runId != runId then [entries[0]] else []) + Retained(entries[1..], runId)
  {
  }

  /** Deriving the index from a freshly published run restores the projection, whatever the index
      said about that run before. */
  lemma DeriveRestoresProjection(index: Index, runs: map<string, Run>, run: Run, sequence: nat)
    requires Projection(index.entries, runs, {run.runId})
    requires run.transactionRevision == sequence
    ensures Projection(DeriveIndex(index, run, sequence).entries, runs[run.runId := run], {})
  {
    var retained := Retained(index.entries, run.runId);
    var entries := DeriveIndex(index, run, sequence).entries;
    RetainedKeepsDistinctRuns(index.entries, run.runId);
    assert forall e | e in retained :: e in index.entries && e.runId != run.runId;
    assert forall i | 0 <= i < |retained| :: retained[i] in retained;
    assert DistinctRuns(entries);
    var next := runs[run.runId := run];
    forall e | e in entries ensures e.runId in next && EntryProjects(e, next[e.runId]) {
      assert e in retained || (StatusHint(run).Some? && e == EntryFor(run, StatusHint(run).value, sequence));
    }
    forall id | id in next && StatusHint(next[id]).Some?
      ensures Listed(entries, id)
    {
      if id == run.runId {
        assert entries[|entries| - 1].runId == id;
      } else {
        var i :| 0 <= i < |index.entries| && index.entries[i].runId == id;
        assert index.entries[i] in retained;
        var k :| 0 <= k < |retained| && retained[k] == index.entries[i];
        assert entries[k].runId == id;
      }
    }
  }

  // ---------------------------------------------------------------------------
  // The store invariant
  // ---------------------------------------------------------------------------

  /** Events are numbered 1..n and the i-th was built on index revision i-1. */
  ghost predicate Numbered(log: seq<Event>) {
    forall i | 0 <= i < |log| :: log[i].sequence == i + 1 && log[i].expected.indexRevision == i
  }

  /** The newest event is logged but the index has not caught up. */
  ghost predicate Behind(d: Disk) {
    |d.log| == IndexOf(d).revision + 1
  }

  ghost predicate RunPublished(d: Disk)
    requires Behind(d)
  {
    var event := d.log[|d.log| - 1];
    event.runId in d.runs && d.runs[event.runId].transactionRevision == |d.log|
  }

  ghost predicate StoreInv(d: Disk) {
    && Numbered(d.log)
    && IndexOf(d).revision <= |d.log| <= IndexOf(d).revision + 1
    && (forall id | id in d.runs :: d.runs[id].runId == id)
    && (forall id | id in d.runs ::
          d.runs[id].transactionRevision <= IndexOf(d).revision
          || (Behind(d) && id == d.log[|d.log| - 1].runId && d.runs[id].transactionRevision == |d.log|))
    && (if Behind(d) && RunPublished(d)
        then Projection(IndexOf(d).entries, d.runs, {d.log[|d.log| - 1].runId})
        else Projection(IndexOf(d).entries, d.runs, {}))
  }

  lemma PreparedShape(index: Index, current: Option<Run>, event: Event, authority: Option<Authority>)
    requires PrepareTransition(index, current, event, authority).Prepared?
    ensures var t := PrepareTransition(index, current, event, authority);
            && t.run.runId == event.runId
            && t.run.transactionRevision == event.sequence == index.revision + 1
            && event.expected.indexRevision == index.revision
            && t.index == DeriveIndex(index, t.run, event.sequence)
            && t.index.revision == index.revision + 1
  {
  }

  lemma WeakenProjection(entries: seq<IndexEntry>, runs: map<string, Run>, id: string, run: Run)
    requires Projection(entries, runs, {}) || Projection(entries, runs, {id})
    ensures Projection(entries, runs, {id})
    ensures Projection(entries, runs[id := run], {id})
  {
  }

  /** The three states a publication passes through: logged, run replaced, index replaced. */
  lemma PublicationKeepsInv(d: Disk, e: Event, run: Run, index: Index)
    requires StoreInv(d) && !Behind(d)
    requires e.sequence == IndexOf(d).revision + 1 && e.expected.indexRevision == IndexOf(d).revision
    requires run.runId == e.runId && run.transactionRevision == e.sequence
    requires index == DeriveIndex(IndexOf(d), run, e.sequence)
    ensures var d1 := Apply(d, AppendEvent(e));
            var d2 := Apply(d1, ReplaceRun(run));
            StoreInv(d1) && StoreInv(d2) && StoreInv(Apply(d2, ReplaceIndex(index)))
  {
    var d1 := Apply(d, AppendEvent(e));
    assert d1.log[|d1.log| - 1] == e;
    RunPublicationKeepsInv(d1, run, index);
  }

  lemma RunPublicationKeepsInv(d: Disk, run: Run, index: Index)
    requires StoreInv(d) && Behind(d)
    requires run.runId == d.log[|d.log| - 1].runId && run.transactionRevision == |d.log|
    requires index == DeriveIndex(IndexOf(d), run, |d.log|)
    ensures var d2 := Apply(d, ReplaceRun(run));
            StoreInv(d2) && StoreInv(Apply(d2, ReplaceIndex(index)))
  {
    WeakenProjection(IndexOf(d).entries, d.runs, run.runId, run);
    DeriveRestoresProjection(IndexOf(d), d.runs, run, |d.log|);
  }

  /** What a commit intends: nothing, or the three writes of one publication. */
  lemma CommitShape(d: Disk, event: Event, receipts: Authority)
    requires Numbered(d.log)
    ensures var intent := CommitIntent(d, event, receipts);
            || (intent.writes == [] && !intent.outcome.Committed?)
            || exists e, run, index ::
                 && intent == Intent(Committed(run, index), [AppendEvent(e), ReplaceRun(run), ReplaceIndex(index)])
                 && !Behind(d)
                 && e == PersistedEventForIndex(IndexOf(d), event)
                 && PrepareOn(d, e, receipts) == Prepared(run, index)
                 && RunReadable(d, e.runId) && IndexReadable(d) && LogReadable(d.log)
  {
  }

  /** A commit cut after any number of its writes leaves the invariant standing. */
  lemma CommitKeepsInv(d: Disk, event: Event, receipts: Authority, cut: nat)
    requires StoreInv(d)
    ensures StoreInv(CutAt(d, CommitIntent(d, event, receipts), cut))
  {
    var intent := CommitIntent(d, event, receipts);
    CommitShape(d, event, receipts);
    if intent.writes == [] {
      assert Take(intent.writes, cut) == [];
    } else {
      CommitPublishes(d, event, receipts);
      CutPublicationKeepsInv(d, intent.writes[0].event, intent.outcome.run, intent.outcome.index, cut);
    }
  }

  lemma CutPublicationKeepsInv(d: Disk, e: Event, run: Run, index: Index, cut: nat)
    requires StoreInv(d) && !Behind(d)
    requires e.sequence == IndexOf(d).revision + 1 && e.expected.indexRevision == IndexOf(d).revision
    requires run.runId == e.runId && run.transactionRevision == e.sequence
    requires index == DeriveIndex(IndexOf(d), run, e.sequence)
    ensures StoreInv(ApplyAll(d, Take([AppendEvent(e), ReplaceRun(run), ReplaceIndex(index)], cut)))
  {
    var ws := [AppendEvent(e), ReplaceRun(run), ReplaceIndex(index)];
    var d1 := Apply(d, AppendEvent(e));
    var d2 := Apply(d1, ReplaceRun(run));
    assert StoreInv(d1) && StoreInv(d2) && StoreInv(Apply(d2, ReplaceIndex(index))) by {
      PublicationKeepsInv(d, e, run, index);
    }
    ApplyPrefixes3(d, ws);
    assert ApplyAll(d, Take(ws, cut)) in {d, d1, d2, Apply(d2, ReplaceIndex(index))};
  }

  /** The event, run and index a commit publishes fit together. */
  lemma CommitPublishes(d: Disk, event: Event, receipts: Authority)
    requires Numbered(d.log) && CommitIntent(d, event, receipts).writes != []
    ensures var intent := CommitIntent(d, event, receipts);
            && |intent.writes| == 3 && intent.writes[0].AppendEvent? && intent.outcome.Committed? && !Behind(d)
            && var e, run, index := intent.writes[0].event, intent.outcome.run, intent.outcome.index;
            && intent.writes == [AppendEvent(e), ReplaceRun(run), ReplaceIndex(index)]
            && e == PersistedEventForIndex(IndexOf(d), event)
            && e.sequence == IndexOf(d).revision + 1 && e.expected.indexRevision == IndexOf(d).revision
            && run.runId == e.runId && run.transactionRevision == e.sequence
            && index == DeriveIndex(IndexOf(d), run, e.sequence)
  {
    CommitShape(d, event, receipts);
    var e := CommitIntent(d, event, receipts).writes[0].event;
    var current := RunOf(d, e.runId);
    PreparedShape(IndexOf(d), current, e, AuthorityFor(e.mutation, current, receipts));
  }

  /** What a repair intends: nothing, the index alone, or the run and the index. */
  lemma RepairShape(d: Disk, receipts: Authority)
    ensures var intent := RepairIntent(d, receipts);
            if intent.writes == [] then !intent.outcome.Repaired?
            else
              && Behind(d) && LogReadable(d.log) && IndexReadable(d)
              && intent.outcome.Repaired?
              && var e, run, index := d.log[|d.log| - 1], intent.outcome.run, intent.outcome.index;
              && run.runId == e.runId && run.transactionRevision == |d.log|
              && RunReadable(d, e.runId)
              && index == DeriveIndex(IndexOf(d), run, |d.log|)
              && (|| (RunOf(d, e.runId) == Some(run) && intent.writes == [ReplaceIndex(index)])
                  || (&& !RunPublished(d)
                      && PrepareOn(d, e, receipts).Prepared? && PrepareOn(d, e, receipts).run == run
                      && intent.writes == [ReplaceRun(run), ReplaceIndex(index)]))
  {
    var intent := RepairIntent(d, receipts);
    if intent.writes != [] {
      var e := d.log[|d.log| - 1];
      var current := RunOf(d, e.runId);
      if |intent.writes| == 2 {
        PreparedShape(IndexOf(d), current, e, AuthorityFor(e.mutation, current, receipts));
      }
    }
  }

  /** So does a repair, with any receipts. */
  lemma RepairKeepsInv(d: Disk, receipts: Authority, cut: nat)
    requires StoreInv(d)
    ensures StoreInv(CutAt(d, RepairIntent(d, receipts), cut))
  {
    var intent := RepairIntent(d, receipts);
    RepairShape(d, receipts);
    if intent.writes == [] {
      assert Take(intent.writes, cut) == [];
    } else {
      var run, index := intent.outcome.run, intent.outcome.index;
      RunPublicationKeepsInv(d, run, index);
      ApplyPrefixes2(d, intent.writes);
      if |intent.writes| == 1 {
        assert d.runs[run.runId := run] == d.runs;
        assert Apply(d, ReplaceRun(run)) == d;
      }
    }
  }

  // ---------------------------------------------------------------------------
  // Whole runs of the store
  // ---------------------------------------------------------------------------

  datatype Op =
    | DoCommit(event: Event, receipts: Authority, cut: nat)
    | DoRepair(receipts: Authority, cut: nat)

  function Step(d: Disk, op: Op): Disk {
    match op
    case DoCommit(event, receipts, cut) => CutAt(d, CommitIntent(d, event, receipts), cut)
    case DoRepair(receipts, cut) => CutAt(d, RepairIntent(d, receipts), cut)
  }

  function RunOps(d: Disk, ops: seq<Op>): Disk {
    if ops == [] then d else Step(RunOps(d, ops[..|ops| - 1]), ops[|ops| - 1])
  }

  /** A new state directory: no index file, or the empty version 2 index that initialization writes. */
  ghost predicate Empty(d: Disk) {
    d.log == [] && d.runs == map[] && (d.index.None? || d.index == Some(Index(Some(1), 0, [])))
  }

  /** Over every sequence of commits and repairs, each cut anywhere, with any receipts: events are
      numbered without gaps, at most one is ahead of the index, and the index projects the runs. */
  lemma {:induction false} EveryRunKeepsInv(d: Disk, ops: seq<Op>)
    requires Empty(d)
    ensures StoreInv(RunOps(d, ops))
  {
    if ops != [] {
      EveryRunKeepsInv(d, ops[..|ops| - 1]);
      var prior := RunOps(d, ops[..|ops| - 1]);
      match ops[|ops| - 1]
      case DoCommit(event, receipts, cut) => CommitKeepsInv(prior, event, receipts, cut);
      case DoRepair(receipts, cut) => RepairKeepsInv(prior, receipts, cut);
    }
  }

  /** At most one event is ever ahead of the index: the store is healthy, repairable or undecodable. */
  lemma LogNeverOutrunsRepair(d: Disk, ops: seq<Op>)
    requires Empty(d)
    ensures var end := RunOps(d, ops);
            && Numbered(end.log)
            && |end.log| - IndexOf(end).revision in {0, 1}
            && !InspectRecovery(end).MultipleEventsAhead? && !InspectRecovery(end).IndexAhead?
  {
    EveryRunKeepsInv(d, ops);
  }

  // ---------------------------------------------------------------------------
  // Repair equals commit
  // ---------------------------------------------------------------------------

  /** Repair started again and again, each time cut after the given number of writes. */
  function RepairMany(d: Disk, receipts: Authority, cuts: seq<nat>): Disk {
    if cuts == [] then d
    else
      var prior := RepairMany(d, receipts, cuts[..|cuts| - 1]);
      CutAt(prior, RepairIntent(prior, receipts), cuts[|cuts| - 1])
  }

  ghost predicate Commits(d: Disk, e: Event, receipts: Authority, run: Run, index: Index) {
    && StoreInv(d) && !Behind(d)
    && IndexReadable(d) && LogReadable(d.log) && RunReadable(d, e.runId)
    && PrepareOn(d, e, receipts) == Prepared(run, index)
    && run.runId == e.runId && run.Workflow() == e.workflow
    && run.transactionRevision == e.sequence == IndexOf(d).revision + 1
    && e.expected.indexRevision == IndexOf(d).revision
    && index == DeriveIndex(IndexOf(d), run, e.sequence)
  }

  lemma AcceptedCommits(d: Disk, event: Event, receipts: Authority)
    requires StoreInv(d)
    requires CommitIntent(d, event, receipts).outcome.Committed?
    ensures var commit := CommitIntent(d, event, receipts);
            var e, run, index := PersistedEventForIndex(IndexOf(d), event), commit.outcome.run, commit.outcome.index;
            && commit.writes == [AppendEvent(e), ReplaceRun(run), ReplaceIndex(index)]
            && Commits(d, e, receipts, run, index)
  {
    CommitShape(d, event, receipts);
    var e := PersistedEventForIndex(IndexOf(d), event);
    var current := RunOf(d, e.runId);
    PreparedShape(IndexOf(d), current, e, AuthorityFor(e.mutation, current, receipts));
    PreparedWorkflow(IndexOf(d), current, e, AuthorityFor(e.mutation, current, receipts));
  }

  lemma LoggedReadable(d: Disk, e: Event)
    requires LogReadable(d.log) && e.sequence == |d.log| + 1
    ensures LogReadable(d.log + [e]) <==> EventDecodes(e)
  {
    assert (d.log + [e])[|d.log|] == e;
  }

  lemma RepairAfterAppend(d: Disk, e: Event, receipts: Authority, run: Run, index: Index)
    requires Commits(d, e, receipts, run, index)
    ensures RepairIntent(Apply(d, AppendEvent(e)), receipts) ==
            if EventDecodes(e) then Intent(Repaired(run, index), [ReplaceRun(run), ReplaceIndex(index)])
            else Intent(DecodeError, [])
  {
    var logged := Apply(d, AppendEvent(e));
    assert logged.log[|logged.log| - 1] == e;
    LoggedReadable(d, e);
    assert PrepareOn(logged, e, receipts) == PrepareOn(d, e, receipts);
  }

  lemma RepairAfterRun(d: Disk, e: Event, receipts: Authority, run: Run, index: Index)
    requires Commits(d, e, receipts, run, index)
    ensures RepairIntent(Apply(Apply(d, AppendEvent(e)), ReplaceRun(run)), receipts) ==
            if EventDecodes(e) && RunDecodes(run) then Intent(Repaired(run, index), [ReplaceIndex(index)])
            else Intent(DecodeError, [])
  {
    var published := Apply(Apply(d, AppendEvent(e)), ReplaceRun(run));
    assert published.log[|published.log| - 1] == e;
    LoggedReadable(d, e);
    assert RunOf(published, e.runId) == Some(run);
  }

  /** The states between the writes of an accepted commit, and what repair intends in each. */
  lemma RepairAtEachCut(d: Disk, event: Event, receipts: Authority)
    requires StoreInv(d)
    requires CommitIntent(d, event, receipts).outcome.Committed?
    ensures var commit := CommitIntent(d, event, receipts);
            var e, run, index := PersistedEventForIndex(IndexOf(d), event), commit.outcome.run, commit.outcome.index;
            var logged := Apply(d, AppendEvent(e));
            var published := Apply(logged, ReplaceRun(run));
            var full := Apply(published, ReplaceIndex(index));
            && commit.writes == [AppendEvent(e), ReplaceRun(run), ReplaceIndex(index)]
            && RepairIntent(logged, receipts) ==
               (if EventDecodes(e) then Intent(Repaired(run, index), [ReplaceRun(run), ReplaceIndex(index)])
                else Intent(DecodeError, []))
            && RepairIntent(published, receipts) ==
               (if EventDecodes(e) && RunDecodes(run) then Intent(Repaired(run, index), [ReplaceIndex(index)])
                else Intent(DecodeError, []))
            && RepairIntent(full, receipts).writes == []
  {
    AcceptedCommits(d, event, receipts);
    var commit := CommitIntent(d, event, receipts);
    var e, run, index := PersistedEventForIndex(IndexOf(d), event), commit.outcome.run, commit.outcome.index;
    RepairAfterAppend(d, e, receipts, run, index);
    RepairAfterRun(d, e, receipts, run, index);
    RepairShape(Apply(Apply(Apply(d, AppendEvent(e)), ReplaceRun(run)), ReplaceIndex(index)), receipts);
  }

  lemma PreparedWorkflow(index: Index, current: Option<Run>, event: Event, authority: Option<Authority>)
    requires PrepareTransition(index, current, event, authority).Prepared?
    ensures PrepareTransition(index, current, event, authority).run.Workflow() == event.workflow
  {
  }

  /** Cut an accepted commit after any write, then repair it, with the repair itself cut and rerun
      any number of times: one uninterrupted repair ends on exactly the disk of the uncut commit.
      A cut before the append leaves the disk as it was. */
  lemma RepairEqualsCommit(d: Disk, event: Event, receipts: Authority, cut: nat, cuts: seq<nat>)
    requires StoreInv(d)
    requires CommitIntent(d, event, receipts).outcome.Committed?
    requires EventDecodes(PersistedEventForIndex(IndexOf(d), event))
    requires RunDecodes(CommitIntent(d, event, receipts).outcome.run)
    ensures CutAt(d, CommitIntent(d, event, receipts), 0) == d
    ensures cut > 0 ==>
              var commit := CommitIntent(d, event, receipts);
              var full := ApplyAll(d, commit.writes);
              var retried := RepairMany(CutAt(d, commit, cut), receipts, cuts);
              var repair := RepairIntent(retried, receipts);
              && ApplyAll(retried, repair.writes) == full
              && (retried == full || repair.outcome == Repaired(commit.outcome.run, commit.outcome.index))
  {
    var commit := CommitIntent(d, event, receipts);
    RepairAtEachCut(d, event, receipts);
    ApplyPrefixes3(d, commit.writes);
    assert Take(commit.writes, 3) == commit.writes;
    if cut > 0 {
      RepairManyStays(d, event, receipts, CutAt(d, commit, cut), cuts);
      var retried := RepairMany(CutAt(d, commit, cut), receipts, cuts);
      var repair := RepairIntent(retried, receipts);
      ApplyPrefixes2(retried, repair.writes);
      assert Take(repair.writes, 2) == repair.writes;
    }
  }

  /** A cut repair of a cut commit lands on one of the three later states of that commit. */
  lemma {:induction false} RepairManyStays(d: Disk, event: Event, receipts: Authority, start: Disk, cuts: seq<nat>)
    requires StoreInv(d)
    requires CommitIntent(d, event, receipts).outcome.Committed?
    requires EventDecodes(PersistedEventForIndex(IndexOf(d), event))
    requires RunDecodes(CommitIntent(d, event, receipts).outcome.run)
    requires var ws := CommitIntent(d, event, receipts).writes;
             |ws| == 3 && start in {Apply(d, ws[0]), Apply(Apply(d, ws[0]), ws[1]), Apply(Apply(Apply(d, ws[0]), ws[1]), ws[2])}
    ensures var ws := CommitIntent(d, event, receipts).writes;
            RepairMany(start, receipts, cuts) in
              {Apply(d, ws[0]), Apply(Apply(d, ws[0]), ws[1]), Apply(Apply(Apply(d, ws[0]), ws[1]), ws[2])}
  {
    if cuts != [] {
      RepairManyStays(d, event, receipts, start, cuts[..|cuts| - 1]);
      var prior := RepairMany(start, receipts, cuts[..|cuts| - 1]);
      RepairAtEachCut(d, event, receipts);
      ApplyPrefixes2(prior, RepairIntent(prior, receipts).writes);
    }
  }

  /** Exactly when a cut commit can be repaired: the stored event must decode, and once the run has
      been replaced the stored run must decode too. Otherwise repair stops without writing. */
  lemma RepairableIff(d: Disk, event: Event, receipts: Authority, cut: nat)
    requires StoreInv(d)
    requires CommitIntent(d, event, receipts).outcome.Committed?
    requires cut == 1 || cut == 2
    ensures var commit := CommitIntent(d, event, receipts);
            var e := PersistedEventForIndex(IndexOf(d), event);
            var repair := RepairIntent(CutAt(d, commit, cut), receipts);
            && (repair.outcome.Repaired? <==> EventDecodes(e) && (cut == 2 ==> RunDecodes(commit.outcome.run)))
            && (!repair.outcome.Repaired? ==> repair == Intent(DecodeError, []))
  {
    RepairAtEachCut(d, event, receipts);
    ApplyPrefixes3(d, CommitIntent(d, event, receipts).writes);
  }

  // ---------------------------------------------------------------------------
  // Resubmission
  // ---------------------------------------------------------------------------

  /** An event that commits was not in the log. */
  lemma NovelEvent(d: Disk, event: Event, receipts: Authority)
    requires CommitIntent(d, event, receipts).outcome.Committed?
    ensures forall x | x in d.log :: x.eventId != event.eventId
  {
  }
}
