/** The worker-acceptance ledger of one run: a write-ahead log written first, a snapshot written second,
    merged whenever the ledger is read. */
module AcceptanceLedger {
  import opened Prelude
  import opened Domain
  import opened ReceiptAuthority

  const MAX_WAL_ENTRIES := 1000
  const MAX_WAL_BYTES := 4 * 1024 * 1024

  /** The two files; a missing snapshot file is None. */
  datatype Files = Files(snapshot: Option<seq<Acceptance>>, wal: seq<Acceptance>)

  /** What a worker result brings; `receiptHash` comes from its evidence bundle. */
  datatype Submission = Submission(
    runId: string, attempt: nat, agentId: string, artifactHash: string, runRevision: nat,
    ownerSessionId: string, ownerEpoch: nat, taskGeneration: nat, captureCommit: string,
    receiptPath: string, receiptHash: string, taskId: string, role: string, semanticAttempt: nat, detail: WorkDetail)

  /** Whether the run uses version 2 ledgers, and how many bytes an entry takes as a log line. */
  datatype Format = Format(runId: string, v2: bool, lineBytes: Acceptance -> nat)

  function KeyOf(s: Submission): AcceptanceKey {
    AcceptanceKey(s.runId, s.attempt, s.agentId, s.artifactHash)
  }

  /** Version 1 entries carry no task identity. */
  function Candidate(format: Format, s: Submission, sequence: nat): Acceptance {
    Acceptance(sequence, KeyOf(s), s.attempt, s.runRevision, s.ownerSessionId, s.ownerEpoch, s.taskGeneration,
               s.captureCommit, s.receiptPath, s.receiptHash, if format.v2 then Some(s.taskId) else None,
               if format.v2 then Some(s.role) else None, if format.v2 then Some(s.semanticAttempt) else None, s.detail)
  }

  /** What the entry schema demands: counts, paths, and cleanup receipts exactly when they are claimed. */
  predicate SubmissionValid(format: Format, s: Submission) {
    var d := s.detail;
    && s.taskGeneration > 0 && (format.v2 ==> s.semanticAttempt > 0)
    && d.artifactPaths != [] && |d.cleanupReceiptPaths| <= 32
    && (d.cleanupStatus == Some(CleanupNotApplicable)) == d.cleanupScenarioId.Some?
    && (d.cleanupStatus == Some(CleanupNotApplicable) ==> d.cleanupReceiptPaths == [])
    && (d.cleanupStatus == Some(CleanupReceipts) ==> d.cleanupReceiptPaths != [])
  }

  function WalBytes(format: Format, wal: seq<Acceptance>): nat {
    if wal == [] then 0 else WalBytes(format, wal[..|wal| - 1]) + format.lineBytes(wal[|wal| - 1])
  }

  predicate WalFits(format: Format, wal: seq<Acceptance>) {
    |wal| <= MAX_WAL_ENTRIES && WalBytes(format, wal) <= MAX_WAL_BYTES
  }

  predicate Numbered(entries: seq<Acceptance>) {
    forall i | 0 <= i < |entries| :: entries[i].sequence == i + 1
  }

  /** What the version 2 schema demands of a ledger; version 1 demands nothing of the kind. */
  predicate LedgerValid(format: Format, entries: seq<Acceptance>) {
    format.v2 ==>
      && Numbered(entries) && DistinctKeys(entries)
      && forall e | e in entries :: e.idempotencyKey.runId == format.runId
  }

  datatype ReadError = WalTooLarge | WalDiverged | Malformed

  datatype ReadResult = Read(entries: seq<Acceptance>) | Unreadable(error: ReadError)

  /** Each log entry either repeats the entry at its position or extends the ledger. */
  function MergeWal(entries: seq<Acceptance>, wal: seq<Acceptance>): Option<seq<Acceptance>> {
    if wal == [] then Some(entries)
    else
      match MergeWal(entries, wal[..|wal| - 1])
      case None => None
      case Some(merged) =>
        var e := wal[|wal| - 1];
        if 1 <= e.sequence <= |merged| then if merged[e.sequence - 1] == e then Some(merged) else None
        else Some(merged + [e])
  }

  function SnapshotEntries(f: Files): seq<Acceptance> {
    if f.snapshot.None? then [] else f.snapshot.value
  }

  function ReadLedger(format: Format, f: Files): ReadResult {
    if !LedgerValid(format, SnapshotEntries(f)) then Unreadable(Malformed)
    else if !WalFits(format, f.wal) then Unreadable(WalTooLarge)
    else
      match MergeWal(SnapshotEntries(f), f.wal)
      case None => Unreadable(WalDiverged)
      case Some(entries) => if LedgerValid(format, entries) then Read(entries) else Unreadable(Malformed)
  }

  datatype Write = ReplaceWal(wal: seq<Acceptance>) | ReplaceSnapshot(entries: seq<Acceptance>)

  function Apply(f: Files, w: Write): Files {
    match w
    case ReplaceWal(wal) => f.(wal := wal)
    case ReplaceSnapshot(entries) => f.(snapshot := Some(entries))
  }

  datatype Outcome = Accepted | Replayed | DuplicateReceipt | Raised(error: ReadError) | CutShort

  datatype Intent = Intent(outcome: Outcome, writes: seq<Write>)

  function FindKey(entries: seq<Acceptance>, key: AcceptanceKey): Option<Acceptance> {
    FirstWhere(entries, (e: Acceptance) => e.idempotencyKey == key)
  }

  function AcceptIntent(format: Format, f: Files, s: Submission): Intent {
    match ReadLedger(format, f)
    case Unreadable(error) => Intent(Raised(error), [])
    case Read(entries) =>
      if !SubmissionValid(format, s) then Intent(Raised(Malformed), [])
      else
        match FindKey(entries, KeyOf(s))
        case Some(existing) =>
          Intent(if existing == Candidate(format, s, existing.sequence) then Replayed else DuplicateReceipt, [])
        case None =>
          var candidate := Candidate(format, s, |entries| + 1);
          if !LedgerValid(format, entries + [candidate]) then Intent(Raised(Malformed), [])
          else if !WalFits(format, f.wal + [candidate]) then Intent(Raised(WalTooLarge), [])
          else Intent(Accepted, [ReplaceWal(f.wal + [candidate]), ReplaceSnapshot(entries + [candidate])])
  }

  /** The files after the first `cut` writes. */
  function CutAt(f: Files, intent: Intent, cut: nat): Files {
    if intent.writes == [] || cut == 0 then f
    else if cut == 1 || |intent.writes| == 1 then Apply(f, intent.writes[0])
    else Apply(Apply(f, intent.writes[0]), intent.writes[1])
  }

  // ---------------------------------------------------------------------------
  // The ledger as it runs
  // ---------------------------------------------------------------------------

  class Ledger {
    var snapshot: Option<seq<Acceptance>>
    var wal: seq<Acceptance>
    var fuse: nat

    constructor ()
      ensures State() == Files(None, []) && fuse == 0
    {
      snapshot, wal, fuse := None, [], 0;
    }

    function State(): Files
      reads this
    {
      Files(snapshot, wal)
    }

    method ReadAll(format: Format) returns (result: ReadResult)
      ensures result == ReadLedger(format, State())
    {
      var entries := if snapshot.None? then [] else snapshot.value;
      if !LedgerValid(format, entries) {
        return Unreadable(Malformed);
      }
      if !WalFits(format, wal) {
        return Unreadable(WalTooLarge);
      }
      ghost var start := entries;
      for i := 0 to |wal|
        invariant MergeWal(start, wal[..i]) == Some(entries)
      {
        var event := wal[i];
        assert wal[..i + 1][..i] == wal[..i];
        if 1 <= event.sequence <= |entries| {
          if entries[event.sequence - 1] != event {
            MergeStops(start, wal, i + 1);
            return Unreadable(WalDiverged);
          }
        } else {
          entries := entries + [event];
        }
      }
      assert wal[..|wal|] == wal;
      return if LedgerValid(format, entries) then Read(entries) else Unreadable(Malformed);
    }

    method Accept(format: Format, s: Submission) returns (outcome: Outcome)
      modifies this
      ensures var intent := AcceptIntent(format, old(State()), s);
              && State() == CutAt(old(State()), intent, old(fuse))
              && outcome == if old(fuse) < |intent.writes| then CutShort else intent.outcome
    {
      var read := ReadAll(format);
      if read.Unreadable? {
        return Raised(read.error);
      }
      if !SubmissionValid(format, s) {
        return Raised(Malformed);
      }
      var entries := read.entries;
      var existing := FindKey(entries, KeyOf(s));
      if existing.Some? {
        return if existing.value == Candidate(format, s, existing.value.sequence) then Replayed else DuplicateReceipt;
      }
      var candidate := Candidate(format, s, |entries| + 1);
      if !LedgerValid(format, entries + [candidate]) {
        return Raised(Malformed);
      }
      if !WalFits(format, wal + [candidate]) {
        return Raised(WalTooLarge);
      }
      if fuse == 0 {
        return CutShort;
      }
      fuse, wal := fuse - 1, wal + [candidate];
      if fuse == 0 {
        return CutShort;
      }
      fuse, snapshot := fuse - 1, Some(entries + [candidate]);
      return Accepted;
    }
  }

  /** A divergence found early stays a divergence. */
  lemma {:induction false} MergeStops(entries: seq<Acceptance>, wal: seq<Acceptance>, i: nat)
    requires i <= |wal| && MergeWal(entries, wal[..i]).None?
    ensures MergeWal(entries, wal).None?
    decreases |wal|
  {
    if i < |wal| {
      assert wal[..|wal| - 1][..i] == wal[..i];
      MergeStops(entries, wal[..|wal| - 1], i);
    } else {
      assert wal[..i] == wal;
    }
  }

  // ---------------------------------------------------------------------------
  // Reads survive crashes
  // ---------------------------------------------------------------------------

  /** The snapshot is a prefix of the log, and the log is a valid ledger. */
  ghost predicate LedgerInv(format: Format, f: Files) {
    && Numbered(f.wal) && DistinctKeys(f.wal) && WalFits(format, f.wal)
    && (forall e | e in f.wal :: e.idempotencyKey.runId == format.runId)
    && SnapshotEntries(f) <= f.wal
  }

  lemma {:induction false} MergeOfPrefix(entries: seq<Acceptance>, wal: seq<Acceptance>)
    requires Numbered(wal) && entries <= wal
    ensures MergeWal(entries, wal) == Some(wal)
  {
    MergeUpTo(entries, wal, |wal|);
    assert wal[..|wal|] == wal;
    assert |wal| <= |entries| ==> entries == wal;
  }

  lemma {:induction false} MergeUpTo(entries: seq<Acceptance>, wal: seq<Acceptance>, n: nat)
    requires Numbered(wal) && entries <= wal && n <= |wal|
    ensures MergeWal(entries, wal[..n]) == Some(if n <= |entries| then entries else wal[..n])
  {
    if n > 0 {
      MergeUpTo(entries, wal, n - 1);
      assert wal[..n][..n - 1] == wal[..n - 1];
      assert wal[..n] == wal[..n - 1] + [wal[n - 1]];
      assert n - 1 == |entries| ==> wal[..n - 1] == entries;
    }
  }

  /** A read returns exactly the log: never diverged, never malformed. */
  lemma ReadReturnsLog(format: Format, f: Files)
    requires LedgerInv(format, f)
    ensures ReadLedger(format, f) == Read(f.wal)
  {
    MergeOfPrefix(SnapshotEntries(f), f.wal);
    var n := |SnapshotEntries(f)|;
    assert SnapshotEntries(f) == f.wal[..n];
  }

  lemma ExtensionValid(format: Format, wal: seq<Acceptance>, c: Acceptance)
    requires Numbered(wal) && DistinctKeys(wal) && forall e | e in wal :: e.idempotencyKey.runId == format.runId
    requires c.sequence == |wal| + 1 && c.idempotencyKey.runId == format.runId
    requires forall e | e in wal :: e.idempotencyKey != c.idempotencyKey
    ensures Numbered(wal + [c]) && DistinctKeys(wal + [c])
    ensures forall e | e in wal + [c] :: e.idempotencyKey.runId == format.runId
  {
    assert forall i | 0 <= i < |wal| :: wal[i] in wal;
  }

  /** What an accept intends: nothing, or one entry appended to the log and then to the snapshot. */
  lemma AcceptShape(format: Format, f: Files, s: Submission)
    requires LedgerInv(format, f) && s.runId == format.runId
    ensures var intent := AcceptIntent(format, f, s);
            var candidate := Candidate(format, s, |f.wal| + 1);
            if !SubmissionValid(format, s) then intent == Intent(Raised(Malformed), [])
            else
              match FindKey(f.wal, KeyOf(s))
              case Some(existing) =>
                intent == Intent(if existing == Candidate(format, s, existing.sequence) then Replayed else DuplicateReceipt, [])
              case None =>
                intent == if WalFits(format, f.wal + [candidate])
                          then Intent(Accepted, [ReplaceWal(f.wal + [candidate]), ReplaceSnapshot(f.wal + [candidate])])
                          else Intent(Raised(WalTooLarge), [])
  {
    ReadReturnsLog(format, f);
    if FindKey(f.wal, KeyOf(s)).None? {
      ExtensionValid(format, f.wal, Candidate(format, s, |f.wal| + 1));
    }
  }

  /** An accept either changes nothing or appends one entry, and no cut breaks the invariant; it raises an
      error only for a result the schema refuses or because the log is full. */
  lemma AcceptKeepsInv(format: Format, f: Files, s: Submission, cut: nat)
    requires LedgerInv(format, f) && s.runId == format.runId
    ensures LedgerInv(format, CutAt(f, AcceptIntent(format, f, s), cut))
    ensures AcceptIntent(format, f, s).outcome.Raised? ==>
              AcceptIntent(format, f, s).outcome == Raised(if SubmissionValid(format, s) then WalTooLarge else Malformed)
  {
    AcceptShape(format, f, s);
    if AcceptIntent(format, f, s).outcome.Accepted? {
      AppendKeepsInv(format, f, Candidate(format, s, |f.wal| + 1), cut);
    }
  }

  lemma AppendKeepsInv(format: Format, f: Files, c: Acceptance, cut: nat)
    requires LedgerInv(format, f) && c.sequence == |f.wal| + 1 && c.idempotencyKey.runId == format.runId
    requires FindKey(f.wal, c.idempotencyKey).None? && WalFits(format, f.wal + [c])
    ensures LedgerInv(format, CutAt(f, Intent(Accepted, [ReplaceWal(f.wal + [c]), ReplaceSnapshot(f.wal + [c])]), cut))
  {
    ExtensionValid(format, f.wal, c);
  }

  // ---------------------------------------------------------------------------
  // Whole histories
  // ---------------------------------------------------------------------------

  datatype Submit = Submit(submission: Submission, cut: nat)

  function History(format: Format, submits: seq<Submit>): Files {
    if submits == [] then Files(None, [])
    else
      var f := History(format, submits[..|submits| - 1]);
      var last := submits[|submits| - 1];
      CutAt(f, AcceptIntent(format, f, last.submission), last.cut)
  }

  /** From an empty ledger, after any accepts cut between the two writes or before them: a read returns
      exactly the entries of the log, numbered from 1, with distinct keys. */
  lemma {:induction false} ReadsSurviveCrashes(format: Format, submits: seq<Submit>)
    requires forall x | x in submits :: x.submission.runId == format.runId
    ensures var f := History(format, submits);
            && LedgerInv(format, f)
            && ReadLedger(format, f) == Read(f.wal) && Numbered(f.wal) && DistinctKeys(f.wal)
  {
    if submits != [] {
      ReadsSurviveCrashes(format, submits[..|submits| - 1]);
      var last := submits[|submits| - 1];
      assert last in submits;
      AcceptKeepsInv(format, History(format, submits[..|submits| - 1]), last.submission, last.cut);
    }
    ReadReturnsLog(format, History(format, submits));
  }

  /** Retrying the same accept, cut after the log write or not at all, is answered as a replay and adds
      nothing; a different result under the same key is refused as a duplicate. */
  lemma RetryIsReplayed(format: Format, f: Files, s: Submission, cut: nat, again: Submission)
    requires LedgerInv(format, f) && s.runId == format.runId
    requires AcceptIntent(format, f, s).outcome.Accepted? && cut > 0
    requires KeyOf(again) == KeyOf(s)
    ensures var after := CutAt(f, AcceptIntent(format, f, s), cut);
            var retry := AcceptIntent(format, after, again);
            && after.wal == f.wal + [Candidate(format, s, |f.wal| + 1)]
            && retry.writes == []
            && retry.outcome == (if !SubmissionValid(format, again) then Raised(Malformed)
                                 else if Candidate(format, again, 0) == Candidate(format, s, 0) then Replayed
                                 else DuplicateReceipt)
            && (again == s ==> retry.outcome.Replayed?)
  {
    AcceptedAppends(format, f, s, cut);
    RetryOnLogged(format, CutAt(f, AcceptIntent(format, f, s), cut), f.wal, s, again);
  }

  lemma AcceptedAppends(format: Format, f: Files, s: Submission, cut: nat)
    requires LedgerInv(format, f) && s.runId == format.runId
    requires AcceptIntent(format, f, s).outcome.Accepted? && cut > 0
    ensures var after := CutAt(f, AcceptIntent(format, f, s), cut);
            && LedgerInv(format, after) && after.wal == f.wal + [Candidate(format, s, |f.wal| + 1)]
            && FindKey(f.wal, KeyOf(s)).None?
  {
    AcceptShape(format, f, s);
    AcceptKeepsInv(format, f, s, cut);
  }

  lemma RetryOnLogged(format: Format, after: Files, wal: seq<Acceptance>, s: Submission, again: Submission)
    requires LedgerInv(format, after) && s.runId == format.runId && KeyOf(again) == KeyOf(s)
    requires after.wal == wal + [Candidate(format, s, |wal| + 1)] && FindKey(wal, KeyOf(s)).None?
    ensures AcceptIntent(format, after, again) ==
            Intent(if !SubmissionValid(format, again) then Raised(Malformed)
                   else if Candidate(format, again, 0) == Candidate(format, s, 0) then Replayed else DuplicateReceipt, [])
  {
    NewKeyFound(wal, Candidate(format, s, |wal| + 1));
    AcceptShape(format, after, again);
    SameSubmission(format, s, again, |wal| + 1);
  }

  lemma NewKeyFound(wal: seq<Acceptance>, c: Acceptance)
    requires FindKey(wal, c.idempotencyKey).None?
    ensures FindKey(wal + [c], c.idempotencyKey) == Some(c)
  {
    var found := FindKey(wal + [c], c.idempotencyKey);
    assert c in wal + [c];
    assert found.Some?;
    assert found.value in wal || found.value == c;
  }

  lemma SameSubmission(format: Format, a: Submission, b: Submission, n: nat)
    ensures Candidate(format, a, n) == Candidate(format, b, n) <==> Candidate(format, b, 0) == Candidate(format, a, 0)
  {
  }
}
