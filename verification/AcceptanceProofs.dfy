/** What an accepted worker result leaves in the ledger, field by field, and what the receipt authority then
    makes of it. */
module AcceptanceProofs {
  import opened Prelude
  import opened Domain
  import opened ReceiptAuthority
  import opened AuthorityProofs
  import opened ReducerProofs
  import opened AcceptanceLedger

  /** The entry records the result: who, for which attempt and revision, at which commit, with which receipt
      and detail; version 2 entries also for which task, in which role and at which semantic attempt. */
  ghost predicate Records(e: Acceptance, s: Submission, v2: bool) {
    && e.idempotencyKey.runId == s.runId && e.idempotencyKey.attempt == s.attempt
    && e.idempotencyKey.agentId == s.agentId && e.idempotencyKey.artifactHash == s.artifactHash
    && e.attempt == s.attempt && e.runRevision == s.runRevision
    && e.ownerSessionId == s.ownerSessionId && e.ownerEpoch == s.ownerEpoch && e.taskGeneration == s.taskGeneration
    && e.captureCommit == s.captureCommit && e.receiptPath == s.receiptPath && e.receiptHash == s.receiptHash
    && e.detail == s.detail
    && e.taskId == (if v2 then Some(s.taskId) else None) && e.role == (if v2 then Some(s.role) else None)
    && e.semanticAttempt == (if v2 then Some(s.semanticAttempt) else None)
  }

  lemma CandidateIff(format: Format, s: Submission, sequence: nat, e: Acceptance)
    ensures e == Candidate(format, s, sequence) <==> Records(e, s, format.v2) && e.sequence == sequence
  {
  }

  /** The result is one the entry schema takes. */
  ghost predicate Presentable(s: Submission, v2: bool) {
    && s.taskGeneration >= 1 && (v2 ==> s.semanticAttempt >= 1)
    && |s.detail.artifactPaths| >= 1 && |s.detail.cleanupReceiptPaths| <= 32
    && match s.detail.cleanupStatus
       case None => s.detail.cleanupScenarioId.None?
       case Some(CleanupReceipts) => s.detail.cleanupScenarioId.None? && |s.detail.cleanupReceiptPaths| >= 1
       case Some(CleanupNotApplicable) => s.detail.cleanupScenarioId.Some? && s.detail.cleanupReceiptPaths == []
  }

  ghost predicate KeyUsed(wal: seq<Acceptance>, s: Submission) {
    exists e :: e in wal && e.idempotencyKey == AcceptanceKey(s.runId, s.attempt, s.agentId, s.artifactHash)
  }

  /** There is room for one more entry in the log: at most a thousand, in at most four mebibytes. */
  ghost predicate Room(format: Format, wal: seq<Acceptance>, e: Acceptance) {
    |wal| + 1 <= 1000 && WalBytes(format, wal) + format.lineBytes(e) <= 4194304
  }

  lemma RoomIff(format: Format, wal: seq<Acceptance>, e: Acceptance)
    ensures WalFits(format, wal + [e]) <==> Room(format, wal, e)
  {
    assert (wal + [e])[..|wal|] == wal;
  }

  /** A result is accepted exactly when it is presentable, its key is new and the log has room; it is replayed
      exactly when its key's entry records just this result. */
  lemma AcceptIff(format: Format, f: Files, s: Submission)
    requires LedgerInv(format, f) && s.runId == format.runId
    ensures var outcome := AcceptIntent(format, f, s).outcome;
            && (outcome == Accepted <==>
                  Presentable(s, format.v2) && !KeyUsed(f.wal, s) && Room(format, f.wal, Candidate(format, s, |f.wal| + 1)))
            && (outcome == Replayed <==> Presentable(s, format.v2) && exists e :: e in f.wal && Records(e, s, format.v2))
            && (outcome == DuplicateReceipt <==>
                  Presentable(s, format.v2) && KeyUsed(f.wal, s) && !exists e :: e in f.wal && Records(e, s, format.v2))
  {
    AcceptShape(format, f, s);
    PresentableIff(format, s);
    RoomIff(format, f.wal, Candidate(format, s, |f.wal| + 1));
    KeyedEntry(format, f.wal, s);
  }

  /** Under distinct keys the lookup decides whether the key is used and whether its entry records the result. */
  lemma KeyedEntry(format: Format, wal: seq<Acceptance>, s: Submission)
    requires DistinctKeys(wal)
    ensures var found := FindKey(wal, KeyOf(s));
            && (found.Some? <==> KeyUsed(wal, s))
            && ((exists e :: e in wal && Records(e, s, format.v2)) <==>
                  found.Some? && found.value == Candidate(format, s, found.value.sequence))
  {
    var found := FindKey(wal, KeyOf(s));
    if found.Some? {
      CandidateIff(format, s, found.value.sequence, found.value);
      forall e | e in wal && e.idempotencyKey == KeyOf(s) ensures e == found.value {
        var i :| 0 <= i < |wal| && wal[i] == e;
        var j :| 0 <= j < |wal| && wal[j] == found.value;
        assert i == j;
      }
    }
  }

  /** Once its log write is made, cut or not, a read ends in an entry that records the result. */
  lemma AcceptedIsRead(format: Format, f: Files, s: Submission, cut: nat)
    requires LedgerInv(format, f) && s.runId == format.runId
    requires AcceptIntent(format, f, s).outcome.Accepted? && cut > 0
    ensures exists e :: ReadLedger(format, CutAt(f, AcceptIntent(format, f, s), cut)) == Read(f.wal + [e])
                        && Records(e, s, format.v2) && e.sequence == |f.wal| + 1
  {
    AcceptedAppends(format, f, s, cut);
    ReadReturnsLog(format, CutAt(f, AcceptIntent(format, f, s), cut));
    CandidateIff(format, s, |f.wal| + 1, Candidate(format, s, |f.wal| + 1));
  }

  /** The result was captured for this run as it stands. */
  ghost predicate For(s: Submission, run: Run) {
    && Owner(s.ownerSessionId, s.ownerEpoch) == run.owner && s.attempt == run.progressRevision
    && run.version.V2? && run.version.expectedHead == Some(s.captureCommit)
  }

  /** Accepting and settling join: a version 2 result accepted for a run's owner, epoch, head and attempt is
      what the receipt authority of its generation returns for its task. */
  lemma AcceptedIsCurrent(format: Format, f: Files, s: Submission, cut: nat, run: Run, rejected: seq<Rejection>)
    requires LedgerInv(format, f) && s.runId == format.runId && format.v2 && For(s, run)
    requires AcceptIntent(format, f, s).outcome.Accepted? && cut > 0
    ensures var read := ReadLedger(format, CutAt(f, AcceptIntent(format, f, s), cut));
            && read.Read?
            && var current := CurrentAcceptance(run, Authority(s.taskGeneration, read.entries, rejected), s.taskId);
            current.Some? && Records(current.value, s, true) && current.value == read.entries[|read.entries| - 1]
  {
    AcceptIff(format, f, s);
    AcceptedIsRead(format, f, s, cut);
    var e :| ReadLedger(format, CutAt(f, AcceptIntent(format, f, s), cut)) == Read(f.wal + [e])
             && Records(e, s, format.v2) && e.sequence == |f.wal| + 1;
    var entries := f.wal + [e];
    var authority := Authority(s.taskGeneration, entries, rejected);
    assert entries[|f.wal|] == e && ProvesNow(e, run, s.taskGeneration, s.taskId);
    assert LastProof(e, run, authority, s.taskId);
    CurrentIsLastProof(run, authority, s.taskId, e);
  }

  /** A retry after the log write is a replay exactly when it repeats every recorded field. */
  lemma RetryRepeatsIff(format: Format, f: Files, s: Submission, cut: nat, again: Submission)
    requires LedgerInv(format, f) && s.runId == format.runId
    requires AcceptIntent(format, f, s).outcome.Accepted? && cut > 0 && KeyOf(again) == KeyOf(s)
    ensures var retry := AcceptIntent(format, CutAt(f, AcceptIntent(format, f, s), cut), again);
            && retry.writes == []
            && (retry.outcome == Replayed <==>
                  if format.v2 then again == s
                  else again == s.(taskId := again.taskId, role := again.role, semanticAttempt := again.semanticAttempt))
  {
    RetryIsReplayed(format, f, s, cut, again);
    AcceptIff(format, f, s);
    SameRecordIff(format, s, again);
    PresentableIff(format, again);
    PresentableIff(format, s);
  }

  lemma PresentableIff(format: Format, s: Submission)
    ensures SubmissionValid(format, s) <==> Presentable(s, format.v2)
  {
  }

  lemma SameRecordIff(format: Format, s: Submission, again: Submission)
    requires KeyOf(again) == KeyOf(s)
    ensures Candidate(format, again, 0) == Candidate(format, s, 0) <==>
            if format.v2 then again == s
            else again == s.(taskId := again.taskId, role := again.role, semanticAttempt := again.semanticAttempt)
  {
    CandidateIff(format, again, 0, Candidate(format, s, 0));
    CandidateIff(format, s, 0, Candidate(format, s, 0));
    assert KeyOf(again).runId == KeyOf(s).runId && KeyOf(again).agentId == KeyOf(s).agentId;
    assert KeyOf(again).artifactHash == KeyOf(s).artifactHash && KeyOf(again).attempt == KeyOf(s).attempt;
  }

  // ---------------------------------------------------------------------------
  // Merging
  // ---------------------------------------------------------------------------

  ghost predicate Disagree(entries: seq<Acceptance>, wal: seq<Acceptance>) {
    exists i :: 0 <= i < |entries| && i < |wal| && entries[i] != wal[i]
  }

  /** A snapshot and a numbered log diverge exactly when they disagree where they overlap; otherwise the longer
      one is the ledger. */
  lemma {:induction false} MergeIff(entries: seq<Acceptance>, wal: seq<Acceptance>)
    requires Numbered(wal)
    ensures MergeWal(entries, wal) ==
            if Disagree(entries, wal) then None else Some(if |wal| <= |entries| then entries else wal)
  {
    if wal != [] {
      var before := wal[..|wal| - 1];
      MergeIff(entries, before);
      DisagreeStep(entries, wal);
      if !Disagree(entries, before) && |before| == |entries| {
        AgreeingIsEqual(entries, before);
      }
      MergeStep(entries, wal, if |wal| <= |entries| then entries else before);
    }
  }

  lemma MergeStep(entries: seq<Acceptance>, wal: seq<Acceptance>, merged: seq<Acceptance>)
    requires wal != [] && wal[|wal| - 1].sequence == |wal| && |merged| >= |wal| - 1
    requires |merged| == |wal| - 1 ==> merged == wal[..|wal| - 1]
    ensures MergeWal(entries, wal[..|wal| - 1]) == Some(merged) ==>
              MergeWal(entries, wal) ==
              if |merged| < |wal| then Some(wal) else if merged[|wal| - 1] == wal[|wal| - 1] then Some(merged) else None
    ensures MergeWal(entries, wal[..|wal| - 1]).None? ==> MergeWal(entries, wal).None?
  {
    assert wal == wal[..|wal| - 1] + [wal[|wal| - 1]];
  }

  lemma DisagreeStep(entries: seq<Acceptance>, wal: seq<Acceptance>)
    requires wal != []
    ensures Disagree(entries, wal) <==>
            || Disagree(entries, wal[..|wal| - 1])
            || (|wal| <= |entries| && entries[|wal| - 1] != wal[|wal| - 1])
  {
    var before := wal[..|wal| - 1];
    if Disagree(entries, before) {
      var i :| 0 <= i < |entries| && i < |before| && entries[i] != before[i];
      assert entries[i] != wal[i];
    }
    if Disagree(entries, wal) {
      var i :| 0 <= i < |entries| && i < |wal| && entries[i] != wal[i];
      assert i < |before| ==> entries[i] != before[i];
    }
  }

  lemma AgreeingIsEqual(a: seq<Acceptance>, b: seq<Acceptance>)
    requires |a| == |b| && !Disagree(a, b)
    ensures a == b
  {
    assert forall i | 0 <= i < |a| :: a[i] == b[i];
  }

  /** Whatever the files hold, a version 2 read that succeeds is a sound ledger of this run, and a log of more
      than a thousand entries is never read. */
  lemma ReadIsSound(format: Format, f: Files)
    ensures format.v2 && ReadLedger(format, f).Read? ==>
              var entries := ReadLedger(format, f).entries;
              && (forall i | 0 <= i < |entries| :: entries[i].sequence == i + 1 && entries[i].idempotencyKey.runId == format.runId)
              && forall i, j | 0 <= i < j < |entries| :: entries[i].idempotencyKey != entries[j].idempotencyKey
    ensures |f.wal| > 1000 ==> ReadLedger(format, f).Unreadable?
  {
    if format.v2 && ReadLedger(format, f).Read? {
      var entries := ReadLedger(format, f).entries;
      assert forall i | 0 <= i < |entries| :: entries[i] in entries;
    }
  }
}
