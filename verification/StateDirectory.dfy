/** The migration as it runs: file by file, rereading what it wrote. */
module StateDirectory {
  import opened Prelude
  import opened Migration
  import opened MigrationProofs

  // ---------------------------------------------------------------------------
  // Where each write sits in the intended list
  // ---------------------------------------------------------------------------

  lemma {:induction false} BackupAt(names: seq<Path>, source: Files)
    ensures |BackupWrites(names, source)| == 2 * |names|
    ensures forall i | 0 <= i < |names| ::
              && BackupWrites(names, source)[2 * i] == TruncateBackup(names[i])
              && BackupWrites(names, source)[2 * i + 1] == WriteBackup(names[i], Get(source, names[i]))
  {
    if names != [] {
      BackupAt(names[..|names| - 1], source);
    }
  }

  lemma {:induction false} PublishLength(order: seq<Path>, target: Files, items: seq<Item>)
    ensures |PublishWrites(order, target, items)| == 2 * |order|
  {
    if order != [] {
      PublishLength(order[..|order| - 1], target, items);
    }
  }

  lemma {:induction false} PublishAt(order: seq<Path>, target: Files, items: seq<Item>, i: nat)
    requires i < |order|
    ensures var ws := PublishWrites(order, target, items);
            && |ws| == 2 * |order|
            && ws[2 * i] == WriteLive(order[i], Get(target, order[i]))
            && ws[2 * i + 1] == WriteJournal(Journal(Publishing, items, order[..i + 1]))
  {
    var before := order[..|order| - 1];
    PublishLength(before, target, items);
    if i < |before| {
      PublishAt(before, target, items, i);
      assert before[..i + 1] == order[..i + 1];
    } else {
      assert order[..i + 1] == order;
    }
  }

  /** Running out inside the first of two lists, or somewhere in the second. */
  lemma ChainedTake(d: Disk, a: seq<Write>, b: seq<Write>, fuel: nat)
    ensures fuel < |a| ==> ApplyAll(d, Take(a + b, fuel)) == ApplyAll(d, Take(a, fuel))
    ensures fuel >= |a| ==>
              && ApplyAll(d, Take(a, fuel)) == ApplyAll(d, a)
              && ApplyAll(d, Take(a + b, fuel)) == ApplyAll(ApplyAll(d, a), Take(b, fuel - |a|))
  {
    if fuel < |a| {
      assert Take(a + b, fuel) == Take(a, fuel);
    } else {
      assert Take(a, fuel) == a;
      assert Take(a + b, fuel) == a + Take(b, fuel - |a|);
      ApplyAppend(d, a, Take(b, fuel - |a|));
    }
  }

  // ---------------------------------------------------------------------------
  // The directory
  // ---------------------------------------------------------------------------

  /** `fuse` counts the writes that still reach the disk before the process dies. */
  class Directory {
    var live: Files
    var journal: Option<Journal>
    var backup: Files
    var staged: Files
    var marker: Option<seq<Mark>>
    var fuse: nat

    constructor (records: Files)
      ensures State() == Disk(records, None, map[], map[], None) && fuse == 0
    {
      live, journal, backup, staged, marker, fuse := records, None, map[], map[], None, 0;
    }

    function State(): Disk
      reads this
    {
      Disk(live, journal, backup, staged, marker)
    }

    /** `n` of the intended writes have reached the disk. */
    ghost predicate At(d: Disk, fuel: nat, ws: seq<Write>, n: nat)
      reads this
    {
      n <= |ws| && n <= fuel && State() == ApplyAll(d, ws[..n]) && fuse == fuel - n
    }

    /** The intended writes were all made, or as many of them as the fuse allowed. */
    ghost predicate Ran(d: Disk, fuel: nat, ws: seq<Write>)
      reads this
    {
      State() == ApplyAll(d, Take(ws, fuel)) && fuse == if fuel < |ws| then 0 else fuel - |ws|
    }

    /** Performs the next intended write, or reports that the process died first. */
    method Persist(ghost d: Disk, ghost fuel: nat, ghost ws: seq<Write>, ghost n: nat, w: Write) returns (done: bool)
      requires At(d, fuel, ws, n) && n < |ws| && ws[n] == w
      modifies this
      ensures done ==> At(d, fuel, ws, n + 1) && State() == Apply(old(State()), w)
      ensures !done ==> Ran(d, fuel, ws) && fuel < |ws|
    {
      if fuse == 0 {
        return false;
      }
      ApplyNext(d, ws, n);
      fuse := fuse - 1;
      match w {
        case WriteJournal(j) => journal := Some(j);
        case RemoveJournal => journal := None;
        case TruncateBackup(path) => backup := backup[path := ""];
        case WriteBackup(path, bytes) => backup := backup[path := bytes];
        case WriteStaged(path, bytes) => staged := staged[path := bytes];
        case WriteLive(path, bytes) => live := live[path := bytes];
        case WriteMarker(marks) => marker := Some(marks);
      }
      return true;
    }

    lemma Finished(d: Disk, fuel: nat, ws: seq<Write>)
      requires At(d, fuel, ws, |ws|)
      ensures Ran(d, fuel, ws) && |ws| <= fuel
    {
      assert ws[..|ws|] == ws;
    }

    method Restore(codec: Codec, j: Journal) returns (outcome: Outcome)
      modifies this
      ensures var intent := RestoreIntent(codec, old(State()), j);
              && Ran(old(State()), old(fuse), intent.writes)
              && outcome == if old(fuse) < |intent.writes| then Interrupted else intent.outcome
    {
      ghost var d, fuel := State(), fuse;
      ghost var ws := RestoreIntent(codec, d, j).writes;
      if exists item | item in j.items :: !Verified(backup, item.path, item.sourceHash) {
        return RecoveryRequired;
      }
      var order := Ordered(codec, Paths(j.items));
      for i := 0 to |order|
        invariant At(d, fuel, ws, i) && backup == d.backup
      {
        var done := Persist(d, fuel, ws, i, WriteLive(order[i], Get(backup, order[i])));
        if !done {
          return Interrupted;
        }
      }
      var done := Persist(d, fuel, ws, |order|, RemoveJournal);
      if !done {
        return Interrupted;
      }
      Finished(d, fuel, ws);
      return Restored;
    }

    method Finalize(codec: Codec, j: Journal) returns (outcome: Outcome)
      modifies this
      ensures var intent := FinalizeIntent(codec, old(State()), j);
              && Ran(old(State()), old(fuse), intent.writes)
              && outcome == if old(fuse) < |intent.writes| then Interrupted else intent.outcome
    {
      if marker.None? || |marker.value| != |j.items| {
        outcome := Restore(codec, j);
        return;
      }
      var complete := forall item | item in j.items ::
        Verified(live, item.path, item.targetHash) && Marked(marker.value, item.path, item.targetHash);
      if !complete {
        outcome := Restore(codec, j);
        return;
      }
      ghost var d, fuel, ws := State(), fuse, [WriteJournal(j.(phase := Committed))];
      var done := Persist(d, fuel, ws, 0, WriteJournal(j.(phase := Committed)));
      if !done {
        return Interrupted;
      }
      Finished(d, fuel, ws);
      return Finalized;
    }

    method Recover(codec: Codec) returns (outcome: Outcome)
      modifies this
      ensures var intent := RecoverIntent(codec, old(State()));
              && Ran(old(State()), old(fuse), intent.writes)
              && outcome == if old(fuse) < |intent.writes| then Interrupted else intent.outcome
    {
      if journal.None? {
        return NotNeeded;
      }
      var j := journal.value;
      if !JournalValid(j) {
        return RecoveryRequired;
      }
      if j.phase.Preparing? || j.phase.BackingUp? {
        ghost var d, fuel, ws := State(), fuse, [RemoveJournal];
        var done := Persist(d, fuel, ws, 0, RemoveJournal);
        if !done {
          return Interrupted;
        }
        Finished(d, fuel, ws);
        return Restored;
      }
      outcome := Finalize(codec, j);
    }

    method WriteTwo(v: Write, w: Write) returns (done: bool)
      modifies this
      ensures Ran(old(State()), old(fuse), [v, w]) && done == (old(fuse) >= 2)
    {
      ghost var d, fuel := State(), fuse;
      done := Persist(d, fuel, [v, w], 0, v);
      if done {
        done := Persist(d, fuel, [v, w], 1, w);
        if done {
          Finished(d, fuel, [v, w]);
        }
      }
    }

    /** Copies one record to its backup: truncate, write, verify. */
    method CopyBackup(
      ghost d: Disk, ghost fuel: nat, ghost ws: seq<Write>, ghost n: nat, path: Path, hash: Digest)
      returns (outcome: Outcome)
      requires At(d, fuel, ws, n) && n + 1 < |ws| && hash == Sha256(Get(live, path))
      requires ws[n] == TruncateBackup(path) && ws[n + 1] == WriteBackup(path, Get(live, path))
      modifies this
      ensures outcome.MigratedNow? ==> At(d, fuel, ws, n + 2) && live == old(live)
      ensures !outcome.MigratedNow? ==> outcome.Interrupted? && Ran(d, fuel, ws) && fuel < |ws|
    {
      var done := Persist(d, fuel, ws, n, TruncateBackup(path));
      if !done {
        return Interrupted;
      }
      done := Persist(d, fuel, ws, n + 1, WriteBackup(path, Get(live, path)));
      if !done {
        return Interrupted;
      }
      return if Verified(backup, path, hash) then MigratedNow else RecoveryRequired;
    }

    /** Copies every record to its backup, verifying each copy. */
    method CopyBackups(names: seq<Path>, items: seq<Item>) returns (outcome: Outcome)
      requires |items| == |names|
      requires forall i | 0 <= i < |names| :: items[i].sourceHash == Sha256(Get(live, names[i]))
      modifies this
      ensures var ws := BackupWrites(names, old(live));
              && Ran(old(State()), old(fuse), ws)
              && outcome == (if old(fuse) < |ws| then Interrupted else MigratedNow)
    {
      ghost var d, fuel, ws := State(), fuse, BackupWrites(names, live);
      BackupAt(names, live);
      for i := 0 to |names|
        invariant At(d, fuel, ws, 2 * i) && live == d.live
      {
        outcome := CopyBackup(d, fuel, ws, 2 * i, names[i], items[i].sourceHash);
        if !outcome.MigratedNow? {
          return;
        }
      }
      Finished(d, fuel, ws);
      return MigratedNow;
    }

    /** Stages every converted record, verifying each. */
    method StageRecords(names: seq<Path>, target: Files) returns (outcome: Outcome)
      modifies this
      ensures var ws := StageWrites(names, target);
              && Ran(old(State()), old(fuse), ws)
              && outcome == (if old(fuse) < |ws| then Interrupted else MigratedNow)
              && (outcome.MigratedNow? ==> forall p | p in names :: Verified(staged, p, Sha256(Get(target, p))))
    {
      ghost var d, fuel, ws := State(), fuse, StageWrites(names, target);
      for i := 0 to |names|
        invariant At(d, fuel, ws, i)
        invariant forall k | 0 <= k < i :: Verified(staged, names[k], Sha256(Get(target, names[k])))
      {
        var done := Persist(d, fuel, ws, i, WriteStaged(names[i], Get(target, names[i])));
        if !done {
          return Interrupted;
        }
        if !Verified(staged, names[i], Sha256(Get(target, names[i]))) {
          return RecoveryRequired;
        }
      }
      Finished(d, fuel, ws);
      return MigratedNow;
    }

    /** Publishes one staged record, then journals it. */
    method PublishRecord(
      ghost d: Disk, ghost fuel: nat, ghost ws: seq<Write>, ghost n: nat, path: Path, hash: Digest, publishing: Journal)
      returns (outcome: Outcome)
      requires At(d, fuel, ws, n) && n + 1 < |ws| && Verified(staged, path, hash)
      requires ws[n] == WriteLive(path, staged[path]) && ws[n + 1] == WriteJournal(publishing)
      modifies this
      ensures outcome.MigratedNow? ==> At(d, fuel, ws, n + 2) && staged == old(staged)
      ensures !outcome.MigratedNow? ==> outcome.Interrupted? && Ran(d, fuel, ws) && fuel < |ws|
    {
      if !Verified(staged, path, hash) {
        return RecoveryRequired;
      }
      var done := Persist(d, fuel, ws, n, WriteLive(path, staged[path]));
      if !done {
        return Interrupted;
      }
      done := Persist(d, fuel, ws, n + 1, WriteJournal(publishing));
      return if done then MigratedNow else Interrupted;
    }

    /** Publishes the staged records in order, journaling each. */
    method PublishStaged(order: seq<Path>, target: Files, items: seq<Item>) returns (outcome: Outcome)
      requires forall p | p in order :: Verified(staged, p, Sha256(Get(target, p)))
      modifies this
      ensures var ws := PublishWrites(order, target, items);
              && Ran(old(State()), old(fuse), ws)
              && outcome == (if old(fuse) < |ws| then Interrupted else MigratedNow)
    {
      ghost var d, fuel, ws := State(), fuse, PublishWrites(order, target, items);
      PublishLength(order, target, items);
      var publishing := Journal(Publishing, items, []);
      for i := 0 to |order|
        invariant At(d, fuel, ws, 2 * i) && staged == d.staged
        invariant publishing == Journal(Publishing, items, order[..i])
      {
        PublishAt(order, target, items, i);
        assert order[..i + 1] == order[..i] + [order[i]];
        publishing := publishing.(published := publishing.published + [order[i]]);
        outcome := PublishRecord(d, fuel, ws, 2 * i, order[i], Sha256(Get(target, order[i])), publishing);
        if !outcome.MigratedNow? {
          return;
        }
      }
      Finished(d, fuel, ws);
      return MigratedNow;
    }

    method JournalAndBackUp(names: seq<Path>, items: seq<Item>) returns (outcome: Outcome)
      requires |items| == |names|
      requires forall i | 0 <= i < |names| :: items[i].sourceHash == Sha256(Get(live, names[i]))
      modifies this
      ensures var ws := [WriteJournal(Journal(Preparing, items, [])), WriteJournal(Journal(BackingUp, items, []))]
                        + BackupWrites(names, old(live)) + [WriteJournal(Journal(BackedUp, items, []))];
              && Ran(old(State()), old(fuse), ws)
              && outcome == (if old(fuse) < |ws| then Interrupted else MigratedNow)
    {
      ghost var d, fuel := State(), fuse;
      var j0, j1 := WriteJournal(Journal(Preparing, items, [])), WriteJournal(Journal(BackingUp, items, []));
      var j2 := WriteJournal(Journal(BackedUp, items, []));
      ghost var b := BackupWrites(names, live);
      ChainedTake(d, [j0, j1], b, fuel);
      ChainedTake(d, [j0, j1] + b, [j2], fuel);
      var done := WriteTwo(j0, j1);
      if !done {
        return Interrupted;
      }
      PairApplied(d, j0, j1);
      outcome := CopyBackups(names, items);
      if !outcome.MigratedNow? {
        return;
      }
      ghost var d1, fuel1 := State(), fuse;
      done := Persist(d1, fuel1, [j2], 0, j2);
      if !done {
        return Interrupted;
      }
      Finished(d1, fuel1, [j2]);
    }

    /** Journals, backs up and stages every record. */
    method Prepare(names: seq<Path>, target: Files, items: seq<Item>) returns (outcome: Outcome)
      requires items == ItemsOf(names, live, target)
      modifies this
      ensures var ws := PrepareWrites(names, old(live), target, items);
              && Ran(old(State()), old(fuse), ws)
              && outcome == (if old(fuse) < |ws| then Interrupted else MigratedNow)
              && (outcome.MigratedNow? ==> forall p | p in names :: Verified(staged, p, Sha256(Get(target, p))))
    {
      ghost var d, fuel := State(), fuse;
      ghost var a := [WriteJournal(Journal(Preparing, items, [])), WriteJournal(Journal(BackingUp, items, []))]
                     + BackupWrites(names, live) + [WriteJournal(Journal(BackedUp, items, []))];
      ChainedTake(d, a, StageWrites(names, target), fuel);
      outcome := JournalAndBackUp(names, items);
      if outcome.MigratedNow? {
        outcome := StageRecords(names, target);
      }
    }

    /** Publishes the staged records in rank order, then marks and commits. */
    method PublishAndCommit(order: seq<Path>, target: Files, items: seq<Item>) returns (outcome: Outcome)
      requires forall p | p in order :: Verified(staged, p, Sha256(Get(target, p)))
      modifies this
      ensures var ws := PublishAndCommitWrites(order, target, items);
              && Ran(old(State()), old(fuse), ws)
              && outcome == (if old(fuse) < |ws| then Interrupted else MigratedNow)
    {
      ghost var d, fuel := State(), fuse;
      var j3, j4 := WriteJournal(Journal(Staged, items, [])), WriteJournal(Journal(Publishing, items, []));
      ghost var b := PublishWrites(order, target, items);
      ChainedTake(d, [j3, j4], b, fuel);
      ChainedTake(d, [j3, j4] + b, CommitWrites(order, items), fuel);
      var done := WriteTwo(j3, j4);
      if !done {
        return Interrupted;
      }
      PairApplied(d, j3, j4);
      outcome := PublishStaged(order, target, items);
      if !outcome.MigratedNow? {
        return;
      }
      done := WriteTwo(WriteMarker(MarksOf(items)), WriteJournal(Journal(Committed, items, order)));
      return if done then MigratedNow else Interrupted;
    }

    lemma PairApplied(d: Disk, v: Write, w: Write)
      requires State() == ApplyAll(d, [v, w])
      ensures staged == Apply(Apply(d, v), w).staged && live == Apply(Apply(d, v), w).live
    {
      TwoApplied(d, v, w);
    }

    method Migrate(codec: Codec, names: seq<Path>) returns (outcome: Outcome)
      modifies this
      ensures var intent := MigrateIntent(codec, old(State()), names);
              && Ran(old(State()), old(fuse), intent.writes)
              && outcome == if old(fuse) < |intent.writes| then Interrupted else intent.outcome
    {
      if journal.Some? {
        var prior := journal.value;
        if !JournalValid(prior) || !prior.phase.Committed? {
          return RecoveryRequired;
        }
        outcome := Finalize(codec, prior);
        if outcome.Interrupted? {
          return;
        }
        return if Succeeded(outcome) then AlreadyCurrent else RecoveryRequired;
      }
      var verdict := Verdict(codec, live, names);
      if verdict.Some? {
        return verdict.value;
      }
      outcome := Convert(codec, names);
    }

    /** Prepares, publishes and commits a directory that needs converting. */
    method Convert(codec: Codec, names: seq<Path>) returns (outcome: Outcome)
      modifies this
      ensures var ws := MigrationWrites(codec, names, old(live), Target(codec, old(live)));
              && Ran(old(State()), old(fuse), ws)
              && outcome == if old(fuse) < |ws| then Interrupted else MigratedNow
    {
      var target := Target(codec, live);
      var items := ItemsOf(names, live, target);
      var order := Ordered(codec, names);
      ghost var d, fuel := State(), fuse;
      ghost var a, b := PrepareWrites(names, live, target, items), PublishAndCommitWrites(order, target, items);
      ChainedTake(d, a, b, fuel);
      OrderedMembers(codec, names);
      outcome := Prepare(names, target, items);
      if !outcome.MigratedNow? {
        return;
      }
      assert Take(a, fuel) == a;
      outcome := PublishAndCommit(order, target, items);
    }

    /** Recovers, then migrates once more. */
    method Retry(codec: Codec, names: seq<Path>) returns (outcome: Outcome)
      modifies this
      ensures var intent := RetryIntent(codec, old(State()), names);
              && Ran(old(State()), old(fuse), intent.writes)
              && outcome == if old(fuse) < |intent.writes| then Interrupted else intent.outcome
    {
      ghost var d, fuel := State(), fuse;
      ghost var recovery := RecoverIntent(codec, d);
      ChainedTake(d, recovery.writes, MigrateIntent(codec, Completed(d, recovery), names).writes, fuel);
      outcome := Recover(codec);
      if Succeeded(outcome) {
        outcome := Migrate(codec, names);
      }
    }

    /** The first migration, under a deadline that allows it `patience` writes. */
    method FirstTry(codec: Codec, names: seq<Path>, patience: Option<nat>) returns (outcome: Outcome, died: bool)
      modifies this
      ensures var intent := FirstAttempt(codec, old(State()), names, patience);
              && Ran(old(State()), old(fuse), intent.writes)
              && died == (old(fuse) < |intent.writes|)
              && outcome == if died then Interrupted else intent.outcome
    {
      ghost var d, fuel, ws := State(), fuse, MigrateIntent(codec, State(), names).writes;
      NeverInterruptsItself(codec, State(), names);
      if patience.Some? && patience.value <= fuse {
        var reserve := fuse - patience.value;
        fuse := patience.value;
        outcome := Migrate(codec, names);
        fuse := fuse + reserve;
        died := false;
        assert Take(FirstAttempt(codec, d, names, patience).writes, fuel) == Take(ws, patience.value);
      } else {
        outcome := Migrate(codec, names);
        died := outcome.Interrupted?;
        assert patience.Some? && patience.value < |ws| ==> Take(ws[..patience.value], fuel) == Take(ws, fuel);
      }
    }

    /** Migrates and, when that fails or its deadline expires, recovers and migrates again. */
    method Attempt(codec: Codec, names: seq<Path>, retryNames: seq<Path>, patience: Option<nat>) returns (outcome: Outcome)
      modifies this
      ensures var intent := AttemptIntent(codec, old(State()), names, retryNames, patience);
              && Ran(old(State()), old(fuse), intent.writes)
              && outcome == if old(fuse) < |intent.writes| then Interrupted else intent.outcome
    {
      ghost var d, fuel := State(), fuse;
      AttemptChained(codec, d, names, retryNames, patience, fuel);
      var died: bool;
      outcome, died := FirstTry(codec, names, patience);
      if !Succeeded(outcome) && !died {
        outcome := Retry(codec, retryNames);
      }
    }

    /** Converges the directory: fast path, recovery, migration and one retry. */
    method Preflight(codec: Codec, names: seq<Path>, retryNames: seq<Path>, patience: Option<nat>) returns (outcome: Outcome)
      modifies this
      ensures var intent := PreflightIntent(codec, old(State()), names, retryNames, patience);
              && Ran(old(State()), old(fuse), intent.writes)
              && outcome == if old(fuse) < |intent.writes| then Interrupted else intent.outcome
    {
      if ACTIVE !in live {
        return NotNeeded;
      }
      var schema := codec.indexSchema(live[ACTIVE]);
      if schema.MalformedIndex? {
        return MalformedIndexError;
      }
      if schema.IndexV2? && !RequiresRecovery(State()) {
        return AlreadyCurrent;
      }
      if schema.IndexV2? {
        ghost var d, fuel := State(), fuse;
        ghost var recovery := RecoverIntent(codec, d);
        ChainedTake(d, recovery.writes,
                    AttemptIntent(codec, Completed(d, recovery), names, retryNames, patience).writes, fuel);
        outcome := Recover(codec);
        if !Succeeded(outcome) {
          return;
        }
      }
      outcome := Attempt(codec, names, retryNames, patience);
    }
  }

  lemma TwoApplied(d: Disk, v: Write, w: Write)
    ensures ApplyAll(d, [v, w]) == Apply(Apply(d, v), w)
  {
    ApplyAppend(d, [v], [w]);
    ApplyOne(d, v);
    ApplyOne(Apply(d, v), w);
    assert [v] + [w] == [v, w];
  }

  lemma NeverInterruptsItself(codec: Codec, d: Disk, names: seq<Path>)
    ensures !MigrateIntent(codec, d, names).outcome.Interrupted?
  {
  }

  lemma AttemptChained(
    codec: Codec, d: Disk, names: seq<Path>, retryNames: seq<Path>, patience: Option<nat>, fuel: nat)
    ensures var first := FirstAttempt(codec, d, names, patience);
            var d1 := Completed(d, first);
            var retry := RetryIntent(codec, d1, retryNames);
            var intent := AttemptIntent(codec, d, names, retryNames, patience);
            && (if Succeeded(first.outcome) then intent == first
                else intent == Intent(retry.outcome, first.writes + retry.writes))
            && (fuel < |first.writes| ==> ApplyAll(d, Take(first.writes + retry.writes, fuel)) == ApplyAll(d, Take(first.writes, fuel)))
            && (fuel >= |first.writes| ==>
                  && ApplyAll(d, Take(first.writes, fuel)) == d1
                  && ApplyAll(d, Take(first.writes + retry.writes, fuel)) == ApplyAll(d1, Take(retry.writes, fuel - |first.writes|)))
  {
    var first := FirstAttempt(codec, d, names, patience);
    ChainedTake(d, first.writes, RetryIntent(codec, Completed(d, first), retryNames).writes, fuel);
  }
}
