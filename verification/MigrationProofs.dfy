/** Migration is all-or-nothing under crashes of itself and of its recovery, and preflight converges. */
module MigrationProofs {
  import opened Prelude
  import opened Migration

  // ---------------------------------------------------------------------------
  // Lists of writes
  // ---------------------------------------------------------------------------

  lemma {:induction false} ApplyAppend(d: Disk, a: seq<Write>, b: seq<Write>)
    ensures ApplyAll(d, a + b) == ApplyAll(ApplyAll(d, a), b)
    decreases |b|
  {
    if b == [] {
      assert a + b == a;
    } else {
      assert (a + b)[..|a + b| - 1] == a + b[..|b| - 1];
      ApplyAppend(d, a, b[..|b| - 1]);
    }
  }

  lemma ApplyOne(d: Disk, w: Write)
    ensures ApplyAll(d, [w]) == Apply(d, w)
  {
    assert [w][..0] == [];
  }

  lemma ApplyNext(d: Disk, ws: seq<Write>, k: nat)
    requires k < |ws|
    ensures ApplyAll(d, ws[..k + 1]) == Apply(ApplyAll(d, ws[..k]), ws[k])
  {
    assert ws[..k + 1][..k] == ws[..k];
  }

  // ---------------------------------------------------------------------------
  // Publishing order
  // ---------------------------------------------------------------------------

  lemma OrderedMembers(codec: Codec, s: seq<Path>)
    ensures |Ordered(codec, s)| == |s|
    ensures forall p :: p in Ordered(codec, s) <==> p in s
    ensures Distinct(s) ==> Distinct(Ordered(codec, s))
  {
    Permuted(Ordered(codec, s), s);
    Permuted(s, Ordered(codec, s));
  }

  ghost predicate RankSorted(s: seq<Path>) {
    forall i, j | 0 <= i < j < |s| :: Rank(s[i]) <= Rank(s[j])
  }

  lemma {:induction false} InsertSorted(codec: Codec, p: Path, s: seq<Path>)
    requires RankSorted(s)
    ensures RankSorted(Insert(codec, p, s))
  {
    if s != [] && !Before(codec, p, s[0]) {
      InsertSorted(codec, p, s[1..]);
      var r := Insert(codec, p, s[1..]);
      forall x | x in r ensures Rank(s[0]) <= Rank(x) {
        assert x in multiset(r);
        assert x == p || x in s[1..];
      }
    }
  }

  lemma {:induction false} OrderedSorted(codec: Codec, s: seq<Path>)
    ensures RankSorted(Ordered(codec, s))
  {
    if s != [] {
      OrderedSorted(codec, s[..|s| - 1]);
      InsertSorted(codec, s[|s| - 1], Ordered(codec, s[..|s| - 1]));
    }
  }

  /** The active index is published last. */
  lemma ActiveIsLast(codec: Codec, names: seq<Path>)
    requires Distinct(names) && ACTIVE in names
    ensures var order := Ordered(codec, names); |order| == |names| && order[|order| - 1] == ACTIVE
  {
    var order := Ordered(codec, names);
    OrderedMembers(codec, names);
    OrderedSorted(codec, names);
    var i :| 0 <= i < |order| && order[i] == ACTIVE;
    assert Rank(order[i]) <= Rank(order[|order| - 1]);
  }

  // ---------------------------------------------------------------------------
  // The invariant of a directory under migration
  // ---------------------------------------------------------------------------

  type Files = map<Path, Bytes>

  ghost predicate ItemsFor(items: seq<Item>, s: Files, t: Files) {
    && items != [] && Distinct(Paths(items))
    && (forall p :: p in Paths(items) <==> p in s)
    && (forall item | item in items ::
          item.path in s && item.path in t
          && item.sourceHash == Sha256(s[item.path]) && item.targetHash == Sha256(t[item.path]))
  }

  ghost predicate BackupHolds(d: Disk, s: Files) {
    forall p | p in s :: p in d.backup && d.backup[p] == s[p]
  }

  ghost predicate MarkerMatches(d: Disk, j: Journal) {
    && d.marker.Some? && |d.marker.value| == |j.items|
    && forall item | item in j.items :: Marked(d.marker.value, item.path, item.targetHash)
  }

  /** Every live record is its version 1 source or its version 2 target. */
  ghost predicate Mixed(live: Files, s: Files, t: Files) {
    live.Keys == s.Keys == t.Keys && forall p | p in s :: live[p] == s[p] || live[p] == t[p]
  }

  ghost predicate Inv(d: Disk, s: Files, t: Files) {
    && Mixed(d.live, s, t)
    && match d.journal
       case None => d.live == s
       case Some(j) =>
         && ItemsFor(j.items, s, t)
         && (forall p | p in j.published :: p in s)
         && match j.phase
            case Preparing | BackingUp => d.live == s
            case BackedUp | Staged => d.live == s && BackupHolds(d, s)
            case Publishing => BackupHolds(d, s)
            case Committed => BackupHolds(d, s) && d.live == t && MarkerMatches(d, j)
  }

  /** Every prefix of the writes keeps the invariant. */
  ghost predicate Safe(d: Disk, ws: seq<Write>, s: Files, t: Files) {
    forall k | 0 <= k <= |ws| :: Inv(ApplyAll(d, ws[..k]), s, t)
  }

  lemma SafeAppend(d: Disk, a: seq<Write>, b: seq<Write>, s: Files, t: Files)
    requires Safe(d, a, s, t) && Safe(ApplyAll(d, a), b, s, t)
    ensures Safe(d, a + b, s, t)
  {
    forall k | 0 <= k <= |a + b| ensures Inv(ApplyAll(d, (a + b)[..k]), s, t) {
      if k <= |a| {
        assert (a + b)[..k] == a[..k];
      } else {
        assert (a + b)[..k] == a + b[..k - |a|];
        ApplyAppend(d, a, b[..k - |a|]);
      }
    }
  }

  lemma SafeEmpty(d: Disk, s: Files, t: Files)
    requires Inv(d, s, t)
    ensures Safe(d, [], s, t)
  {
  }

  lemma SafeOne(d: Disk, w: Write, s: Files, t: Files)
    requires Inv(d, s, t) && Inv(Apply(d, w), s, t)
    ensures Safe(d, [w], s, t) && ApplyAll(d, [w]) == Apply(d, w)
  {
    ApplyOne(d, w);
    forall k | 0 <= k <= 1 ensures Inv(ApplyAll(d, [w][..k]), s, t) {
      if k == 1 {
        assert [w][..1] == [w];
      }
    }
  }

  lemma SafeTwo(d: Disk, v: Write, w: Write, s: Files, t: Files)
    requires Inv(d, s, t) && Inv(Apply(d, v), s, t) && Inv(Apply(Apply(d, v), w), s, t)
    ensures Safe(d, [v, w], s, t) && ApplyAll(d, [v, w]) == Apply(Apply(d, v), w)
  {
    SafeOne(d, v, s, t);
    SafeOne(Apply(d, v), w, s, t);
    SafeAppend(d, [v], [w], s, t);
    ApplyAppend(d, [v], [w]);
    assert [v] + [w] == [v, w];
  }

  lemma SafeCut(d: Disk, intent: Intent, cut: nat, s: Files, t: Files)
    requires Safe(d, intent.writes, s, t)
    ensures Inv(CutAt(d, intent, cut), s, t) && Inv(Completed(d, intent), s, t)
  {
    assert intent.writes[..|intent.writes|] == intent.writes;
    assert Take(intent.writes, cut) == intent.writes[..Min(cut, |intent.writes|)];
  }

  // ---------------------------------------------------------------------------
  // Recovery
  // ---------------------------------------------------------------------------

  /** `files` with the listed paths taken from `src`. */
  function Overwrite(files: Files, order: seq<Path>, src: Files): Files {
    if order == [] then files
    else Overwrite(files, order[..|order| - 1], src)[order[|order| - 1] := Get(src, order[|order| - 1])]
  }

  lemma {:induction false} OverwriteAt(files: Files, order: seq<Path>, src: Files, p: Path)
    ensures p in Overwrite(files, order, src) <==> p in files || p in order
    ensures p in order ==> Overwrite(files, order, src)[p] == Get(src, p)
    ensures p in files && p !in order ==> Overwrite(files, order, src)[p] == files[p]
  {
    if order != [] {
      OverwriteAt(files, order[..|order| - 1], src, p);
      assert order == order[..|order| - 1] + [order[|order| - 1]];
    }
  }

  lemma OverwriteMixed(live: Files, order: seq<Path>, src: Files, s: Files, t: Files)
    requires Mixed(live, s, t)
    requires forall p | p in order :: p in s && Get(src, p) in {s[p], t[p]}
    ensures Mixed(Overwrite(live, order, src), s, t)
  {
    var r := Overwrite(live, order, src);
    forall p ensures (p in r <==> p in s) && (p in s ==> r[p] == s[p] || r[p] == t[p]) {
      OverwriteAt(live, order, src, p);
    }
  }

  lemma OverwriteAll(live: Files, order: seq<Path>, src: Files, s: Files)
    requires live.Keys == s.Keys
    requires forall p | p in s :: p in order && Get(src, p) == s[p]
    requires forall p | p in order :: p in s
    ensures Overwrite(live, order, src) == s
  {
    var r := Overwrite(live, order, src);
    forall p ensures (p in r <==> p in s) && (p in s ==> r[p] == s[p]) {
      OverwriteAt(live, order, src, p);
    }
  }

  lemma {:induction false} RestorePrefix(d: Disk, order: seq<Path>, k: nat)
    requires k <= |order|
    ensures ApplyAll(d, RestoreWrites(order, d.backup)[..k]) == d.(live := Overwrite(d.live, order[..k], d.backup))
  {
    if k > 0 {
      RestorePrefix(d, order, k - 1);
      ApplyNext(d, RestoreWrites(order, d.backup), k - 1);
      assert order[..k][..k - 1] == order[..k - 1];
    }
  }

  /** Under an unfinished journal with its backups, live records may be any mix once publishing started. */
  lemma InvWithLive(d: Disk, live: Files, s: Files, t: Files)
    requires Inv(d, s, t) && d.journal.Some? && BackupHolds(d, s) && !d.journal.value.phase.Committed?
    requires Mixed(live, s, t) && (d.live == s ==> live == s)
    ensures Inv(d.(live := live), s, t)
  {
  }

  lemma RestoreStep(d: Disk, order: seq<Path>, k: nat, s: Files, t: Files)
    requires Inv(d, s, t) && d.journal.Some? && BackupHolds(d, s) && !d.journal.value.phase.Committed?
    requires k <= |order| && forall p | p in order :: p in s
    ensures Inv(ApplyAll(d, RestoreWrites(order, d.backup)[..k]), s, t)
  {
    RestorePrefix(d, order, k);
    OverwriteMixed(d.live, order[..k], d.backup, s, t);
    if d.live == s {
      OverwriteSame(s, order[..k], d.backup);
    }
    InvWithLive(d, Overwrite(d.live, order[..k], d.backup), s, t);
  }

  lemma RestoreVerified(codec: Codec, d: Disk, s: Files, t: Files)
    requires Inv(d, s, t) && d.journal.Some? && BackupHolds(d, s)
    ensures var order := Ordered(codec, Paths(d.journal.value.items));
            && RestoreIntent(codec, d, d.journal.value) ==
               Intent(Restored, RestoreWrites(order, d.backup) + [RemoveJournal])
            && forall p :: p in order <==> p in s
  {
    OrderedMembers(codec, Paths(d.journal.value.items));
    assert forall item | item in d.journal.value.items :: Verified(d.backup, item.path, item.sourceHash);
  }

  lemma RestoreSafe(codec: Codec, d: Disk, s: Files, t: Files)
    requires Inv(d, s, t) && d.journal.Some? && BackupHolds(d, s)
    requires !d.journal.value.phase.Committed?
    ensures var restore := RestoreIntent(codec, d, d.journal.value);
            && restore.outcome.Restored? && Safe(d, restore.writes, s, t)
            && Completed(d, restore).live == s && Completed(d, restore).journal.None?
  {
    var order := Ordered(codec, Paths(d.journal.value.items));
    var ws := RestoreWrites(order, d.backup);
    RestoreVerified(codec, d, s, t);
    RestoreWritesSafe(d, order, s, t);
    RemovalSafe(ApplyAll(d, ws), s, t);
    SafeAppend(d, ws, [RemoveJournal], s, t);
    ApplyAppend(d, ws, [RemoveJournal]);
  }

  lemma RestoreWritesSafe(d: Disk, order: seq<Path>, s: Files, t: Files)
    requires Inv(d, s, t) && d.journal.Some? && BackupHolds(d, s) && !d.journal.value.phase.Committed?
    requires forall p :: p in order <==> p in s
    ensures var ws := RestoreWrites(order, d.backup);
            Safe(d, ws, s, t) && ApplyAll(d, ws) == d.(live := s) && Inv(d.(live := s), s, t)
  {
    var ws := RestoreWrites(order, d.backup);
    forall k | 0 <= k <= |ws| ensures Inv(ApplyAll(d, ws[..k]), s, t) {
      RestoreStep(d, order, k, s, t);
    }
    RestorePrefix(d, order, |order|);
    assert ws[..|order|] == ws && order[..|order|] == order;
    OverwriteAll(d.live, order, d.backup, s);
  }

  lemma RemovalSafe(d: Disk, s: Files, t: Files)
    requires Inv(d, s, t) && d.live == s
    ensures Safe(d, [RemoveJournal], s, t) && ApplyAll(d, [RemoveJournal]) == d.(journal := None)
  {
    SafeOne(d, RemoveJournal, s, t);
  }

  lemma OverwriteSame(s: Files, order: seq<Path>, src: Files)
    requires forall p | p in order :: p in s && Get(src, p) == s[p]
    ensures Overwrite(s, order, src) == s
  {
    var r := Overwrite(s, order, src);
    forall p ensures (p in r <==> p in s) && (p in s ==> r[p] == s[p]) {
      OverwriteAt(s, order, src, p);
    }
  }

  lemma CompleteIsTarget(d: Disk, s: Files, t: Files)
    requires Inv(d, s, t) && d.journal.Some? && Complete(d, d.journal.value)
    ensures d.live == t
  {
    forall p | p in s ensures d.live[p] == t[p] {
      var item := ItemAt(d.journal.value.items, s, t, p);
    }
  }

  lemma ItemAt(items: seq<Item>, s: Files, t: Files, p: Path) returns (item: Item)
    requires ItemsFor(items, s, t) && p in s
    ensures item in items && item.path == p && p in t && item.targetHash == Sha256(t[p])
  {
    assert p in Paths(items);
    var i :| 0 <= i < |items| && Paths(items)[i] == p;
    item := items[i];
  }

  lemma CommittedIsComplete(d: Disk, s: Files, t: Files)
    requires Inv(d, s, t) && d.journal.Some? && d.journal.value.phase.Committed?
    ensures Complete(d, d.journal.value)
  {
  }

  lemma CommitJournalSafe(d: Disk, s: Files, t: Files)
    requires Inv(d, s, t) && d.journal.Some? && BackupHolds(d, s) && Complete(d, d.journal.value)
    requires d.live == t
    ensures var w := WriteJournal(d.journal.value.(phase := Committed));
            Safe(d, [w], s, t) && ApplyAll(d, [w]) == Apply(d, w)
  {
    SafeOne(d, WriteJournal(d.journal.value.(phase := Committed)), s, t);
  }

  /** Finalizing ends with the whole target committed or the whole source restored. */
  lemma FinalizeSafe(codec: Codec, d: Disk, s: Files, t: Files)
    requires Inv(d, s, t) && d.journal.Some? && BackupHolds(d, s)
    ensures var finalize := FinalizeIntent(codec, d, d.journal.value);
            var end := Completed(d, finalize);
            && Succeeded(finalize.outcome) && Safe(d, finalize.writes, s, t)
            && (if finalize.outcome.Finalized?
                then end.live == t && end.journal.Some? && end.journal.value.phase.Committed?
                else end.live == s && end.journal.None?)
            && (d.journal.value.phase.Committed? ==> finalize.outcome.Finalized?)
  {
    if Complete(d, d.journal.value) {
      CompleteIsTarget(d, s, t);
      CommitJournalSafe(d, s, t);
    } else {
      if d.journal.value.phase.Committed? {
        CommittedIsComplete(d, s, t);
      }
      RestoreSafe(codec, d, s, t);
    }
  }

  lemma RecoverSafe(codec: Codec, d: Disk, s: Files, t: Files)
    requires Inv(d, s, t)
    ensures var recover := RecoverIntent(codec, d);
            var end := Completed(d, recover);
            && Succeeded(recover.outcome) && Safe(d, recover.writes, s, t)
            && (if end.journal.None? then end.live == s else end.live == t && end.journal.value.phase.Committed?)
  {
    if d.journal.None? {
      SafeEmpty(d, s, t);
    } else if d.journal.value.phase.Preparing? || d.journal.value.phase.BackingUp? {
      SafeOne(d, RemoveJournal, s, t);
    } else {
      FinalizeSafe(codec, d, s, t);
    }
  }

  // ---------------------------------------------------------------------------
  // Migration, segment by segment
  // ---------------------------------------------------------------------------

  lemma ItemsAreFor(names: seq<Path>, s: Files, t: Files)
    requires Lists(names, s) && names != [] && t.Keys == s.Keys
    ensures ItemsFor(ItemsOf(names, s, t), s, t)
    ensures Paths(ItemsOf(names, s, t)) == names
  {
    var items := ItemsOf(names, s, t);
    assert Paths(items) == names;
    forall item | item in items ensures item.path in s && item.path in t
        && item.sourceHash == Sha256(s[item.path]) && item.targetHash == Sha256(t[item.path])
    {
      var k :| 0 <= k < |items| && items[k] == item;
      assert names[k] in names;
    }
  }

  lemma BackupOne(d: Disk, backup: Files, p: Path, s: Files, t: Files)
    requires Inv(d, s, t) && d.journal.Some? && d.journal.value.phase.BackingUp?
    ensures var r, ws := d.(backup := backup), [TruncateBackup(p), WriteBackup(p, Get(s, p))];
            Safe(r, ws, s, t) && ApplyAll(r, ws) == d.(backup := backup[p := Get(s, p)])
  {
    SafeTwo(d.(backup := backup), TruncateBackup(p), WriteBackup(p, Get(s, p)), s, t);
  }

  /** Backing up touches nothing but the backups. */
  lemma {:induction false} BackupRun(d: Disk, names: seq<Path>, s: Files, t: Files)
    requires Inv(d, s, t) && d.journal.Some? && d.journal.value.phase.BackingUp?
    ensures var ws := BackupWrites(names, s);
            Safe(d, ws, s, t) && ApplyAll(d, ws) == d.(backup := Overwrite(d.backup, names, s))
  {
    if names == [] {
      SafeEmpty(d, s, t);
    } else {
      var p, before := names[|names| - 1], names[..|names| - 1];
      BackupRun(d, before, s, t);
      BackupOne(d, Overwrite(d.backup, before, s), p, s, t);
      SafeAppend(d, BackupWrites(before, s), [TruncateBackup(p), WriteBackup(p, Get(s, p))], s, t);
      ApplyAppend(d, BackupWrites(before, s), [TruncateBackup(p), WriteBackup(p, Get(s, p))]);
    }
  }

  /** In the end every source record is backed up. */
  lemma BackupSafe(d: Disk, names: seq<Path>, s: Files, t: Files)
    requires Inv(d, s, t) && d.journal.Some? && d.journal.value.phase.BackingUp?
    requires Lists(names, s)
    ensures var ws := BackupWrites(names, s);
            && Safe(d, ws, s, t)
            && ApplyAll(d, ws) == d.(backup := ApplyAll(d, ws).backup) && BackupHolds(ApplyAll(d, ws), s)
  {
    BackupRun(d, names, s, t);
    forall p | p in s
      ensures p in Overwrite(d.backup, names, s) && Overwrite(d.backup, names, s)[p] == s[p]
    {
      OverwriteAt(d.backup, names, s, p);
    }
  }

  lemma {:induction false} StagePrefix(d: Disk, names: seq<Path>, t: Files, k: nat)
    requires k <= |names|
    ensures var r := ApplyAll(d, StageWrites(names, t)[..k]);
            r == d.(staged := r.staged)
  {
    if k > 0 {
      StagePrefix(d, names, t, k - 1);
      ApplyNext(d, StageWrites(names, t), k - 1);
    }
  }

  lemma StageSafe(d: Disk, names: seq<Path>, s: Files, t: Files)
    requires Inv(d, s, t)
    ensures var ws := StageWrites(names, t);
            Safe(d, ws, s, t) && ApplyAll(d, ws) == d.(staged := ApplyAll(d, ws).staged)
  {
    var ws := StageWrites(names, t);
    forall k | 0 <= k <= |ws| ensures Inv(ApplyAll(d, ws[..k]), s, t) {
      StagePrefix(d, names, t, k);
    }
    StagePrefix(d, names, t, |names|);
    assert ws[..|names|] == ws;
  }

  lemma PublishStepInv(d: Disk, live: Files, published: seq<Path>, s: Files, t: Files)
    requires Inv(d, s, t) && d.journal.Some? && d.journal.value.phase.Publishing?
    requires Mixed(live, s, t) && forall p | p in published :: p in s
    ensures Inv(d.(live := live, journal := Some(d.journal.value.(published := published))), s, t)
  {
  }

  /** The directory while `order` has been published and journaled. */
  function PublishedUpTo(d: Disk, order: seq<Path>, t: Files, items: seq<Item>): Disk {
    d.(live := Overwrite(d.live, order, t), journal := Some(Journal(Publishing, items, order)))
  }

  lemma PublishedInv(d: Disk, order: seq<Path>, published: seq<Path>, s: Files, t: Files, items: seq<Item>)
    requires Inv(d, s, t) && d.journal == Some(Journal(Publishing, items, []))
    requires (forall p | p in order :: p in s) && forall p | p in published :: p in s
    ensures Inv(PublishedUpTo(d, order, t, items).(journal := Some(Journal(Publishing, items, published))), s, t)
  {
    OverwriteMixed(d.live, order, t, s, t);
    PublishStepInv(d, Overwrite(d.live, order, t), published, s, t);
  }

  lemma PublishOne(d: Disk, order: seq<Path>, s: Files, t: Files, items: seq<Item>)
    requires Inv(d, s, t) && d.journal == Some(Journal(Publishing, items, []))
    requires order != [] && forall p | p in order :: p in s
    ensures var p, before := order[|order| - 1], order[..|order| - 1];
            var v, w := WriteLive(p, Get(t, p)), WriteJournal(Journal(Publishing, items, order));
            && Safe(PublishedUpTo(d, before, t, items), [v, w], s, t)
            && ApplyAll(PublishedUpTo(d, before, t, items), [v, w]) == PublishedUpTo(d, order, t, items)
  {
    var p, before := order[|order| - 1], order[..|order| - 1];
    var v, w := WriteLive(p, Get(t, p)), WriteJournal(Journal(Publishing, items, order));
    var r := PublishedUpTo(d, before, t, items);
    assert Inv(r, s, t) by { PublishedInv(d, before, before, s, t, items); }
    PublishApplied(d, order, t, items);
    assert Inv(Apply(r, v), s, t) by { PublishedInv(d, order, before, s, t, items); }
    assert Inv(Apply(Apply(r, v), w), s, t) by { PublishedInv(d, order, order, s, t, items); }
    SafeTwo(r, v, w, s, t);
  }

  lemma PublishApplied(d: Disk, order: seq<Path>, t: Files, items: seq<Item>)
    requires order != []
    ensures var p, before := order[|order| - 1], order[..|order| - 1];
            var r, v := PublishedUpTo(d, before, t, items), WriteLive(p, Get(t, p));
            var w := WriteJournal(Journal(Publishing, items, order));
            && Apply(r, v) == PublishedUpTo(d, order, t, items).(journal := Some(Journal(Publishing, items, before)))
            && Apply(Apply(r, v), w) == PublishedUpTo(d, order, t, items)
  {
  }

  lemma {:induction false} PublishRun(d: Disk, order: seq<Path>, s: Files, t: Files, items: seq<Item>)
    requires Inv(d, s, t) && d.journal == Some(Journal(Publishing, items, []))
    requires forall p | p in order :: p in s
    ensures var ws := PublishWrites(order, t, items);
            Safe(d, ws, s, t) && ApplyAll(d, ws) == PublishedUpTo(d, order, t, items)
  {
    if order == [] {
      SafeEmpty(d, s, t);
    } else {
      var p, before := order[|order| - 1], order[..|order| - 1];
      var v, w := WriteLive(p, Get(t, p)), WriteJournal(Journal(Publishing, items, order));
      PublishRun(d, before, s, t, items);
      PublishOne(d, order, s, t, items);
      SafeAppend(d, PublishWrites(before, t, items), [v, w], s, t);
      ApplyAppend(d, PublishWrites(before, t, items), [v, w]);
    }
  }

  lemma PublishSafe(d: Disk, order: seq<Path>, s: Files, t: Files, items: seq<Item>)
    requires Inv(d, s, t) && d.journal == Some(Journal(Publishing, items, []))
    requires forall p :: p in order <==> p in s
    ensures var ws := PublishWrites(order, t, items);
            && Safe(d, ws, s, t)
            && ApplyAll(d, ws) == d.(live := t, journal := Some(Journal(Publishing, items, order)))
  {
    PublishRun(d, order, s, t, items);
    OverwriteAll(d.live, order, t, t);
  }

  lemma MarksMatch(items: seq<Item>)
    requires Distinct(Paths(items))
    ensures |MarksOf(items)| == |items|
    ensures forall item | item in items :: Marked(MarksOf(items), item.path, item.targetHash)
  {
    var marks := MarksOf(items);
    forall item | item in items ensures Marked(marks, item.path, item.targetHash) {
      var k :| 0 <= k < |items| && items[k] == item;
      assert marks[k] in marks && marks[k] == Mark(item.path, item.targetHash);
      var found := LastWhere(marks, (m: Mark) => m.path == item.path);
      assert found.Some?;
      var i :| 0 <= i < |marks| && marks[i] == found.value;
      assert Paths(items)[i] == Paths(items)[k];
    }
  }

  lemma CommitSafe(d: Disk, order: seq<Path>, s: Files, t: Files, items: seq<Item>)
    requires Inv(d, s, t) && d.journal == Some(Journal(Publishing, items, order)) && d.live == t
    ensures Safe(d, CommitWrites(order, items), s, t)
    ensures var r := ApplyAll(d, CommitWrites(order, items));
            r.live == t && r.journal == Some(Journal(Committed, items, order))
  {
    MarksMatch(items);
    SafeTwo(d, WriteMarker(MarksOf(items)), WriteJournal(Journal(Committed, items, order)), s, t);
  }

  lemma JournalSafe(d: Disk, j: Journal, s: Files, t: Files)
    requires Inv(d, s, t) && d.live == s && ItemsFor(j.items, s, t) && j.published == []
    requires j.phase.Preparing? || j.phase.BackingUp? || (!j.phase.Committed? && BackupHolds(d, s))
    ensures Safe(d, [WriteJournal(j)], s, t) && ApplyAll(d, [WriteJournal(j)]) == d.(journal := Some(j))
  {
    SafeOne(d, WriteJournal(j), s, t);
  }

  /** Up to the staged records: live data untouched, backups complete. */
  lemma PrepareSafe(d: Disk, names: seq<Path>, s: Files, t: Files)
    requires Inv(d, s, t) && d.journal.None?
    requires Lists(names, s) && names != []
    ensures var items := ItemsOf(names, s, t);
            var ws := PrepareWrites(names, s, t, items);
            var r := ApplyAll(d, ws);
            && Safe(d, ws, s, t)
            && r == d.(journal := Some(Journal(BackedUp, items, [])), backup := r.backup, staged := r.staged)
            && BackupHolds(r, s)
  {
    var items := ItemsOf(names, s, t);
    ItemsAreFor(names, s, t);
    var j0, j1, j2 := Journal(Preparing, items, []), Journal(BackingUp, items, []), Journal(BackedUp, items, []);
    var a := [WriteJournal(j0), WriteJournal(j1)];
    SafeTwo(d, a[0], a[1], s, t);
    var d1 := ApplyAll(d, a);
    BackupSafe(d1, names, s, t);
    SafeAppend(d, a, BackupWrites(names, s), s, t);
    ApplyAppend(d, a, BackupWrites(names, s));
    var b := a + BackupWrites(names, s);
    var d2 := ApplyAll(d, b);
    JournalSafe(d2, j2, s, t);
    SafeAppend(d, b, [WriteJournal(j2)], s, t);
    ApplyAppend(d, b, [WriteJournal(j2)]);
    var c := b + [WriteJournal(j2)];
    StageSafe(ApplyAll(d, c), names, s, t);
    SafeAppend(d, c, StageWrites(names, t), s, t);
    ApplyAppend(d, c, StageWrites(names, t));
  }

  lemma StartPublishingSafe(d: Disk, items: seq<Item>, s: Files, t: Files)
    requires Inv(d, s, t) && d.journal == Some(Journal(BackedUp, items, [])) && BackupHolds(d, s)
    ensures var a := [WriteJournal(Journal(Staged, items, [])), WriteJournal(Journal(Publishing, items, []))];
            Safe(d, a, s, t) && ApplyAll(d, a) == d.(journal := Some(Journal(Publishing, items, [])))
  {
    SafeTwo(d, WriteJournal(Journal(Staged, items, [])), WriteJournal(Journal(Publishing, items, [])), s, t);
  }

  /** From the staged records to the commit. */
  lemma PublishAndCommitSafe(d: Disk, order: seq<Path>, items: seq<Item>, s: Files, t: Files)
    requires Inv(d, s, t) && d.journal == Some(Journal(BackedUp, items, [])) && BackupHolds(d, s)
    requires forall p :: p in order <==> p in s
    ensures var ws := PublishAndCommitWrites(order, t, items);
            && Safe(d, ws, s, t)
            && ApplyAll(d, ws).live == t && ApplyAll(d, ws).journal == Some(Journal(Committed, items, order))
  {
    var a := [WriteJournal(Journal(Staged, items, [])), WriteJournal(Journal(Publishing, items, []))];
    var b := PublishWrites(order, t, items);
    StartPublishingSafe(d, items, s, t);
    var d1 := ApplyAll(d, a);
    PublishSafe(d1, order, s, t, items);
    SafeAppend(d, a, b, s, t);
    ApplyAppend(d, a, b);
    var d2 := ApplyAll(d1, b);
    CommitSafe(d2, order, s, t, items);
    SafeAppend(d, a + b, CommitWrites(order, items), s, t);
    ApplyAppend(d, a + b, CommitWrites(order, items));
  }

  /** Every prefix of a fresh migration is safe, and the whole of it ends committed on the target. */
  lemma MigrationSafe(codec: Codec, d: Disk, names: seq<Path>, s: Files, t: Files)
    requires Inv(d, s, t) && d.journal.None?
    requires Lists(names, s) && names != []
    ensures var ws := MigrationWrites(codec, names, s, t);
            && Safe(d, ws, s, t)
            && ApplyAll(d, ws).live == t
            && ApplyAll(d, ws).journal.Some? && ApplyAll(d, ws).journal.value.phase.Committed?
  {
    var items, order := ItemsOf(names, s, t), Ordered(codec, names);
    var a, b := PrepareWrites(names, s, t, items), PublishAndCommitWrites(order, t, items);
    PrepareSafe(d, names, s, t);
    OrderedMembers(codec, names);
    SafeEnd(d, a, s, t);
    PublishAndCommitSafe(ApplyAll(d, a), order, items, s, t);
    SafeAppend(d, a, b, s, t);
    ApplyAppend(d, a, b);
  }

  lemma SafeEnd(d: Disk, ws: seq<Write>, s: Files, t: Files)
    requires Safe(d, ws, s, t)
    ensures Inv(ApplyAll(d, ws), s, t)
  {
    assert ws[..|ws|] == ws;
  }

  // ---------------------------------------------------------------------------
  // Operations on a convertible directory
  // ---------------------------------------------------------------------------

  /** Every record is a known version 1 record that converts. */
  ghost predicate Convertible(codec: Codec, s: Files) {
    && s != map[]
    && (forall p | p in s ::
          codec.isLifecyclePath(p) && !codec.isFuture(s[p]) && codec.convert(s, p, s[p]).Migrated?)
    && codec.identitiesKnown(s)
  }

  /** The check the migration makes is this condition, whatever order the listing comes in. */
  lemma VerdictIff(codec: Codec, s: Files, names: seq<Path>)
    requires Lists(names, s)
    ensures Verdict(codec, s, names).None? <==> Convertible(codec, s)
  {
    assert forall p | p in s :: p in names && Get(s, p) == s[p];
    if names == [] {
      assert s == map[];
    } else {
      assert names[0] in s;
    }
  }

  lemma MigrateSafe(codec: Codec, d: Disk, names: seq<Path>, s: Files)
    requires Convertible(codec, s) && Inv(d, s, Target(codec, s)) && Lists(names, s)
    ensures var t := Target(codec, s);
            var migrate := MigrateIntent(codec, d, names);
            var end := Completed(d, migrate);
            && Safe(d, migrate.writes, s, t)
            && (d.journal.None? || d.journal.value.phase.Committed? ==>
                  Succeeded(migrate.outcome) && end.live == t
                  && end.journal.Some? && end.journal.value.phase.Committed?)
            && (Succeeded(migrate.outcome) ==> end.live == t)
  {
    var t := Target(codec, s);
    if d.journal.None? {
      VerdictIff(codec, s, names);
      assert names != [];
      MigrationSafe(codec, d, names, s, t);
    } else if JournalValid(d.journal.value) && d.journal.value.phase.Committed? {
      FinalizeSafe(codec, d, s, t);
    } else {
      SafeEmpty(d, s, t);
      assert JournalValid(d.journal.value);
    }
  }

  lemma InterruptedSafe(d: Disk, ws: seq<Write>, k: nat, s: Files, t: Files)
    requires Safe(d, ws, s, t) && k <= |ws|
    ensures Safe(d, ws[..k], s, t) && Inv(ApplyAll(d, ws[..k]), s, t)
  {
    forall i | 0 <= i <= k ensures Inv(ApplyAll(d, ws[..k][..i]), s, t) {
      assert ws[..k][..i] == ws[..i];
    }
  }

  lemma ThenSafe(d: Disk, a: Intent, b: Intent, s: Files, t: Files)
    requires Safe(d, a.writes, s, t) && Safe(Completed(d, a), b.writes, s, t)
    ensures Safe(d, Then(a, b).writes, s, t)
    ensures Completed(d, Then(a, b)) == Completed(Completed(d, a), b)
  {
    SafeAppend(d, a.writes, b.writes, s, t);
    ApplyAppend(d, a.writes, b.writes);
  }

  /** Recover and migrate again: from any reachable directory this ends on the target. */
  lemma RetrySafe(codec: Codec, d: Disk, names: seq<Path>, s: Files)
    requires Convertible(codec, s) && Inv(d, s, Target(codec, s)) && Lists(names, s)
    ensures var retry := RetryIntent(codec, d, names);
            && Safe(d, retry.writes, s, Target(codec, s))
            && Succeeded(retry.outcome) && Completed(d, retry).live == Target(codec, s)
  {
    var t := Target(codec, s);
    var recovered := RecoverIntent(codec, d);
    RecoverSafe(codec, d, s, t);
    SafeEnd(d, recovered.writes, s, t);
    var d1 := Completed(d, recovered);
    MigrateSafe(codec, d1, names, s);
    ThenSafe(d, recovered, MigrateIntent(codec, d1, names), s, t);
  }

  lemma FirstAttemptSafe(codec: Codec, d: Disk, names: seq<Path>, patience: Option<nat>, s: Files)
    requires Convertible(codec, s) && Inv(d, s, Target(codec, s)) && Lists(names, s)
    ensures var attempt := FirstAttempt(codec, d, names, patience);
            && Safe(d, attempt.writes, s, Target(codec, s))
            && Inv(Completed(d, attempt), s, Target(codec, s))
            && (Succeeded(attempt.outcome) ==> Completed(d, attempt).live == Target(codec, s))
  {
    var intent, t := MigrateIntent(codec, d, names), Target(codec, s);
    assert Safe(d, intent.writes, s, t) && (Succeeded(intent.outcome) ==> Completed(d, intent).live == t) by {
      MigrateSafe(codec, d, names, s);
    }
    LimitedSafe(d, intent, patience, s, t);
  }

  /** A safe operation is safe when its deadline stops it early. */
  lemma LimitedSafe(d: Disk, intent: Intent, patience: Option<nat>, s: Files, t: Files)
    requires Safe(d, intent.writes, s, t)
    ensures var limited :=
              if patience.Some? && patience.value < |intent.writes|
              then Intent(Interrupted, intent.writes[..patience.value]) else intent;
            Safe(d, limited.writes, s, t) && Inv(Completed(d, limited), s, t)
  {
    if patience.Some? && patience.value < |intent.writes| {
      InterruptedSafe(d, intent.writes, patience.value, s, t);
    } else {
      SafeEnd(d, intent.writes, s, t);
    }
  }

  lemma AttemptSafe(codec: Codec, d: Disk, names: seq<Path>, retryNames: seq<Path>, patience: Option<nat>, s: Files)
    requires Convertible(codec, s) && Inv(d, s, Target(codec, s))
    requires Lists(names, s) && Lists(retryNames, s)
    ensures var attempt := AttemptIntent(codec, d, names, retryNames, patience);
            && Safe(d, attempt.writes, s, Target(codec, s))
            && Succeeded(attempt.outcome) && Completed(d, attempt).live == Target(codec, s)
  {
    var first := FirstAttempt(codec, d, names, patience);
    FirstAttemptSafe(codec, d, names, patience, s);
    if !Succeeded(first.outcome) {
      var d1 := Completed(d, first);
      RetrySafe(codec, d1, retryNames, s);
      ThenSafe(d, first, RetryIntent(codec, d1, retryNames), s, Target(codec, s));
    }
  }

  lemma RecoverAndAttemptSafe(
    codec: Codec, d: Disk, names: seq<Path>, retryNames: seq<Path>, patience: Option<nat>, s: Files)
    requires Convertible(codec, s) && Inv(d, s, Target(codec, s))
    requires Lists(names, s) && Lists(retryNames, s)
    ensures var attempt := RecoverAndAttempt(codec, d, names, retryNames, patience);
            && Safe(d, attempt.writes, s, Target(codec, s))
            && Succeeded(attempt.outcome) && Completed(d, attempt).live == Target(codec, s)
  {
    var t := Target(codec, s);
    var recovered := RecoverIntent(codec, d);
    RecoverSafe(codec, d, s, t);
    SafeEnd(d, recovered.writes, s, t);
    var d1 := Completed(d, recovered);
    AttemptSafe(codec, d1, names, retryNames, patience, s);
    ThenSafe(d, recovered, AttemptIntent(codec, d1, names, retryNames, patience), s, t);
  }

  /** What the converter is assumed to say about the active index: it migrates an index that is not
      version 2 into one that is. */
  ghost predicate IndexCodecSound(codec: Codec) {
    forall s: Files, b: Bytes, c: Bytes ::
      codec.convert(s, ACTIVE, b) == Migrated(c) ==> codec.indexSchema(b).OtherIndex? && codec.indexSchema(c).IndexV2?
  }

  /** The fast path is taken only on the complete target. */
  lemma FastPathSound(codec: Codec, d: Disk, s: Files)
    requires IndexCodecSound(codec) && Convertible(codec, s) && Inv(d, s, Target(codec, s))
    ensures FastPath(codec, d) ==> d.live == Target(codec, s)
  {
    if ACTIVE in s {
      IndexSchemas(codec, s);
    }
  }

  lemma IndexSchemas(codec: Codec, s: Files)
    requires IndexCodecSound(codec) && Convertible(codec, s) && ACTIVE in s
    ensures codec.indexSchema(s[ACTIVE]).OtherIndex? && codec.indexSchema(Target(codec, s)[ACTIVE]).IndexV2?
  {
    assert codec.convert(s, ACTIVE, s[ACTIVE]) == Migrated(Target(codec, s)[ACTIVE]);
  }

  lemma PreflightSafe(
    codec: Codec, d: Disk, names: seq<Path>, retryNames: seq<Path>, patience: Option<nat>, s: Files)
    requires IndexCodecSound(codec) && Convertible(codec, s) && Inv(d, s, Target(codec, s))
    requires Lists(names, s) && Lists(retryNames, s)
    ensures var preflight := PreflightIntent(codec, d, names, retryNames, patience);
            && Safe(d, preflight.writes, s, Target(codec, s))
            && Succeeded(preflight.outcome)
            && (ACTIVE in s ==> Completed(d, preflight).live == Target(codec, s))
            && (ACTIVE !in s ==> preflight == Intent(NotNeeded, []))
  {
    var t := Target(codec, s);
    FastPathSound(codec, d, s);
    if ACTIVE !in s || FastPath(codec, d) {
      SafeEmpty(d, s, t);
    } else {
      IndexSchemas(codec, s);
      if !codec.indexSchema(d.live[ACTIVE]).IndexV2? {
        AttemptSafe(codec, d, names, retryNames, patience, s);
      } else {
        RecoverAndAttemptSafe(codec, d, names, retryNames, patience, s);
      }
    }
  }

  // ---------------------------------------------------------------------------
  // Whole runs
  // ---------------------------------------------------------------------------

  /** One process doing migration work, cut after `cut` writes. */
  datatype Op =
    | Migrate(names: seq<Path>, cut: nat)
    | Recover(cut: nat)
    | Preflight(names: seq<Path>, retryNames: seq<Path>, patience: Option<nat>, cut: nat)

  function Step(codec: Codec, d: Disk, op: Op): Disk {
    match op
    case Migrate(names, cut) => CutAt(d, MigrateIntent(codec, d, names), cut)
    case Recover(cut) => CutAt(d, RecoverIntent(codec, d), cut)
    case Preflight(names, retryNames, patience, cut) =>
      CutAt(d, PreflightIntent(codec, d, names, retryNames, patience), cut)
  }

  function RunOps(codec: Codec, d: Disk, ops: seq<Op>): Disk {
    if ops == [] then d else Step(codec, RunOps(codec, d, ops[..|ops| - 1]), ops[|ops| - 1])
  }

  /** No other writer: every listing an operation sees is a listing of the same records. */
  ghost predicate SoleWriter(ops: seq<Op>, s: Files) {
    forall op | op in ops :: SeesListing(op, s)
  }

  ghost predicate SeesListing(op: Op, s: Files) {
    match op
    case Migrate(names, _) => Lists(names, s)
    case Recover(_) => true
    case Preflight(names, retryNames, _, _) => Lists(names, s) && Lists(retryNames, s)
  }

  /** A version 1 directory before any migration: no journal; leftovers in the migration folder are allowed. */
  ghost predicate Fresh(codec: Codec, d: Disk) {
    d.journal.None? && Convertible(codec, d.live)
  }

  lemma {:induction false} EveryRunKeepsInv(codec: Codec, d: Disk, ops: seq<Op>)
    requires IndexCodecSound(codec) && Fresh(codec, d) && SoleWriter(ops, d.live)
    ensures Inv(RunOps(codec, d, ops), d.live, Target(codec, d.live))
  {
    var s, t := d.live, Target(codec, d.live);
    if ops != [] {
      assert SoleWriter(ops[..|ops| - 1], s);
      EveryRunKeepsInv(codec, d, ops[..|ops| - 1]);
      var prior := RunOps(codec, d, ops[..|ops| - 1]);
      var op := ops[|ops| - 1];
      assert op in ops;
      match op
      case Migrate(names, cut) =>
        MigrateSafe(codec, prior, names, s);
        SafeCut(prior, MigrateIntent(codec, prior, names), cut, s, t);
      case Recover(cut) =>
        RecoverSafe(codec, prior, s, t);
        SafeCut(prior, RecoverIntent(codec, prior), cut, s, t);
      case Preflight(names, retryNames, patience, cut) =>
        PreflightSafe(codec, prior, names, retryNames, patience, s);
        SafeCut(prior, PreflightIntent(codec, prior, names, retryNames, patience), cut, s, t);
    }
  }

  /** All or nothing: after any sequence of migrations, recoveries and preflights, each cut at any
      write, one uninterrupted recovery succeeds and leaves the live records wholly the version 1
      source or wholly the version 2 target. */
  lemma MigrationAllOrNothing(codec: Codec, d: Disk, ops: seq<Op>)
    requires IndexCodecSound(codec) && Fresh(codec, d) && SoleWriter(ops, d.live)
    ensures var crashed := RunOps(codec, d, ops);
            var recovery := RecoverIntent(codec, crashed);
            && Succeeded(recovery.outcome)
            && Completed(crashed, recovery).live in {d.live, Target(codec, d.live)}
  {
    EveryRunKeepsInv(codec, d, ops);
    RecoverSafe(codec, RunOps(codec, d, ops), d.live, Target(codec, d.live));
  }

  /** In every reachable directory, mid-migration and mid-recovery included, the fast path means that
      every record is converted. */
  lemma FastPathMeansConverted(codec: Codec, d: Disk, ops: seq<Op>)
    requires IndexCodecSound(codec) && Fresh(codec, d) && SoleWriter(ops, d.live)
    ensures FastPath(codec, RunOps(codec, d, ops)) ==> RunOps(codec, d, ops).live == Target(codec, d.live)
  {
    EveryRunKeepsInv(codec, d, ops);
    FastPathSound(codec, RunOps(codec, d, ops), d.live);
  }

  /** One uninterrupted preflight from any reachable directory ends with every record converted; a
      directory without an active index is the exact exception, and there preflight does nothing. */
  lemma PreflightConverges(
    codec: Codec, d: Disk, ops: seq<Op>, names: seq<Path>, retryNames: seq<Path>, patience: Option<nat>)
    requires IndexCodecSound(codec) && Fresh(codec, d) && SoleWriter(ops, d.live)
    requires Lists(names, d.live) && Lists(retryNames, d.live)
    ensures var crashed := RunOps(codec, d, ops);
            var preflight := PreflightIntent(codec, crashed, names, retryNames, patience);
            && Succeeded(preflight.outcome)
            && (if ACTIVE in d.live then Completed(crashed, preflight).live == Target(codec, d.live)
                else preflight.writes == [])
  {
    EveryRunKeepsInv(codec, d, ops);
    PreflightSafe(codec, RunOps(codec, d, ops), names, retryNames, patience, d.live);
  }

  // ---------------------------------------------------------------------------
  // The order protects the index; a committed journal does not protect later writes
  // ---------------------------------------------------------------------------

  lemma {:induction false} PublishLive(
    d: Disk, order: seq<Path>, t: Files, items: seq<Item>, k: nat)
    requires k <= |PublishWrites(order, t, items)|
    ensures exists n | 0 <= n <= |order| ::
              ApplyAll(d, PublishWrites(order, t, items)[..k]).live == Overwrite(d.live, order[..n], t)
    decreases |order|, k
  {
    var ws := PublishWrites(order, t, items);
    if order == [] {
      assert ws[..k] == [] && order[..0] == [];
    } else {
      var before := order[..|order| - 1];
      var ws' := PublishWrites(before, t, items);
      if k <= |ws'| {
        assert ws[..k] == ws'[..k];
        PublishLive(d, before, t, items, k);
        var n :| 0 <= n <= |before| && ApplyAll(d, ws'[..k]).live == Overwrite(d.live, before[..n], t);
        assert before[..n] == order[..n];
      } else {
        PublishedLive(d, before, t, items);
        LastLive(d, order, t, items, k);
        assert order[..|order|] == order;
      }
    }
  }

  /** After its live write, with or without the journal write, the last record is published. */
  lemma LastLive(d: Disk, order: seq<Path>, t: Files, items: seq<Item>, k: nat)
    requires order != [] && |PublishWrites(order[..|order| - 1], t, items)| < k <= |PublishWrites(order, t, items)|
    requires ApplyAll(d, PublishWrites(order[..|order| - 1], t, items)).live == Overwrite(d.live, order[..|order| - 1], t)
    ensures ApplyAll(d, PublishWrites(order, t, items)[..k]).live == Overwrite(d.live, order, t)
  {
    var ws, before := PublishWrites(order, t, items), PublishWrites(order[..|order| - 1], t, items);
    assert ws[..|before|] == before;
    ApplyNext(d, ws, |before|);
    if k == |before| + 2 {
      ApplyNext(d, ws, |before| + 1);
    }
  }

  lemma {:induction false} PublishedLive(d: Disk, order: seq<Path>, t: Files, items: seq<Item>)
    ensures ApplyAll(d, PublishWrites(order, t, items)).live == Overwrite(d.live, order, t)
  {
    if order != [] {
      var before := order[..|order| - 1];
      PublishedLive(d, before, t, items);
      var p := order[|order| - 1];
      var v, w := WriteLive(p, Get(t, p)), WriteJournal(Journal(Publishing, items, order));
      ApplyAppend(d, PublishWrites(before, t, items), [v, w]);
      ApplyAppend(ApplyAll(d, PublishWrites(before, t, items)), [v], [w]);
      ApplyOne(ApplyAll(d, PublishWrites(before, t, items)), v);
      ApplyOne(Apply(ApplyAll(d, PublishWrites(before, t, items)), v), w);
      assert [v] + [w] == [v, w];
    }
  }

  /** While publishing, cut anywhere: a converted active index means every record is converted. */
  lemma ConvertedIndexPublishedLast(
    codec: Codec, d: Disk, names: seq<Path>, items: seq<Item>, s: Files, t: Files, k: nat)
    requires d.live == s && t.Keys == s.Keys && Lists(names, s) && ACTIVE in s && s[ACTIVE] != t[ACTIVE]
    requires k <= |PublishWrites(Ordered(codec, names), t, items)|
    ensures var r := ApplyAll(d, PublishWrites(Ordered(codec, names), t, items)[..k]);
            ACTIVE in r.live && (r.live[ACTIVE] == t[ACTIVE] ==> r.live == t)
  {
    var order := Ordered(codec, names);
    PublishLive(d, order, t, items, k);
    var n :| 0 <= n <= |order| &&
      ApplyAll(d, PublishWrites(order, t, items)[..k]).live == Overwrite(d.live, order[..n], t);
    OverwriteAt(s, order[..n], t, ACTIVE);
    OrderedMembers(codec, names);
    ActiveIsLast(codec, names);
    if ACTIVE in order[..n] {
      var i :| 0 <= i < n && order[i] == ACTIVE;
      assert n == |order|;
      assert order[..n] == order;
      OverwriteAll(s, order, t, t);
    }
  }

  /** A committed journal kept beside live records that have changed since: recovering it finalizes
      exactly when every record is still its target and marked so; otherwise, backups permitting, it
      puts every journaled record back to its version 1 bytes. */
  lemma CommittedJournalRollsBackLaterWrites(codec: Codec, d: Disk, j: Journal)
    requires d.journal == Some(j) && JournalValid(j) && j.phase.Committed?
    ensures var recovery := RecoverIntent(codec, d);
            && (recovery.outcome.Finalized? <==> Complete(d, j))
            && (recovery.outcome.Finalized? ==> Completed(d, recovery).live == d.live)
            && (recovery.outcome.Restored? ==>
                  forall item | item in j.items ::
                    item.path in Completed(d, recovery).live
                    && Sha256(Completed(d, recovery).live[item.path]) == item.sourceHash)
  {
    var recovery := RecoverIntent(codec, d);
    if Complete(d, j) {
      ApplyOne(d, WriteJournal(j.(phase := Committed)));
    } else if recovery.outcome.Restored? {
      RestoredBytes(codec, d, j);
    }
  }

  lemma RestoredBytes(codec: Codec, d: Disk, j: Journal)
    requires RestoreIntent(codec, d, j).outcome.Restored?
    ensures var r := Completed(d, RestoreIntent(codec, d, j));
            forall item | item in j.items :: item.path in r.live && Sha256(r.live[item.path]) == item.sourceHash
  {
    var order := Ordered(codec, Paths(j.items));
    RestoredLive(d, order);
    OrderedMembers(codec, Paths(j.items));
    forall item | item in j.items
      ensures var live := Overwrite(d.live, order, d.backup);
              item.path in live && Sha256(live[item.path]) == item.sourceHash
    {
      assert Verified(d.backup, item.path, item.sourceHash);
      RestoredItem(d, j.items, order, item);
    }
  }

  lemma RestoredItem(d: Disk, items: seq<Item>, order: seq<Path>, item: Item)
    requires item in items && Verified(d.backup, item.path, item.sourceHash)
    requires forall p :: p in order <==> p in Paths(items)
    ensures var live := Overwrite(d.live, order, d.backup);
            item.path in live && Sha256(live[item.path]) == item.sourceHash
  {
    var k :| 0 <= k < |items| && items[k] == item;
    assert Paths(items)[k] == item.path;
    OverwriteAt(d.live, order, d.backup, item.path);
  }

  lemma RestoredLive(d: Disk, order: seq<Path>)
    ensures ApplyAll(d, RestoreWrites(order, d.backup) + [RemoveJournal]).live == Overwrite(d.live, order, d.backup)
  {
    var ws := RestoreWrites(order, d.backup);
    RestorePrefix(d, order, |order|);
    assert ws[..|order|] == ws && order[..|order|] == order;
    ApplyAppend(d, ws, [RemoveJournal]);
    ApplyOne(ApplyAll(d, ws), RemoveJournal);
  }

  // ---------------------------------------------------------------------------
  // Which answer is given when
  // ---------------------------------------------------------------------------

  /** The other verdicts: a record of a future version makes the schema unknown; records that are all converted
      already need nothing; anything else needs recovery. */
  lemma VerdictCodes(codec: Codec, s: Files, names: seq<Path>)
    requires Lists(names, s)
    ensures var verdict := Verdict(codec, s, names);
            var known := s != map[] && forall p | p in s :: codec.isLifecyclePath(p);
            var future := exists p | p in s :: codec.isFuture(s[p]);
            && (verdict == Some(UnknownSchemaVersion) <==> known && future)
            && (verdict == Some(AlreadyCurrent) <==>
                  known && !future && codec.identitiesKnown(s) && forall p | p in s :: codec.convert(s, p, s[p]).Current?)
            && (verdict.Some? ==> verdict.value in {UnknownSchemaVersion, AlreadyCurrent, RecoveryRequired})
  {
    assert forall p | p in s :: p in names && Get(s, p) == s[p];
    assert forall p | p in names :: p in s && Get(s, p) == s[p];
    if names == [] {
      assert forall p :: p !in s;
      assert s == map[];
    } else {
      assert names[0] in s;
    }
  }

  /** Records are published in stages: the rest first, then runs and events, then teams, then the index. */
  lemma PublishedInStages(codec: Codec, names: seq<Path>, i: nat, j: nat)
    requires i < j < |Ordered(codec, names)|
    ensures var a, b := Ordered(codec, names)[i], Ordered(codec, names)[j];
            && ("teams/" <= a && a != ACTIVE ==> "teams/" <= b || b == ACTIVE)
            && (("runs/" <= a || "events/" <= a) && a != ACTIVE && !("teams/" <= a) ==>
                  "runs/" <= b || "events/" <= b || "teams/" <= b || b == ACTIVE)
            && (a == ACTIVE ==> b == ACTIVE)
  {
    OrderedSorted(codec, names);
    assert Rank(Ordered(codec, names)[i]) <= Rank(Ordered(codec, names)[j]);
  }

  /** Recovery gives up exactly on a journal that lists nothing, lists a path twice or claims to have published
      one it does not list; or past the backups, when not complete and some backup is not its source. */
  lemma RecoveryFailsIff(codec: Codec, d: Disk)
    ensures RecoverIntent(codec, d).outcome == RecoveryRequired <==>
            && d.journal.Some?
            && var j := d.journal.value;
            || j.items == []
            || (exists a, b | 0 <= a < b < |j.items| :: j.items[a].path == j.items[b].path)
            || (exists p | p in j.published :: forall item | item in j.items :: item.path != p)
            || (j.phase !in {Preparing, BackingUp} && !Complete(d, j)
                && exists item | item in j.items ::
                     !(item.path in d.backup && Sha256(d.backup[item.path]) == item.sourceHash))
    ensures RecoverIntent(codec, d).outcome == RecoveryRequired ==> RecoverIntent(codec, d).writes == []
  {
    if d.journal.Some? {
      JournalValidIff(d.journal.value);
    }
  }

  lemma JournalValidIff(j: Journal)
    ensures !JournalValid(j) <==>
            || j.items == []
            || (exists a, b | 0 <= a < b < |j.items| :: j.items[a].path == j.items[b].path)
            || (exists p | p in j.published :: forall item | item in j.items :: item.path != p)
  {
    var paths := Paths(j.items);
    assert forall i | 0 <= i < |j.items| :: paths[i] == j.items[i].path && j.items[i] in j.items;
    forall p ensures p in paths <==> exists item | item in j.items :: item.path == p {
      if item :| item in j.items && item.path == p {
        var k :| 0 <= k < |j.items| && j.items[k] == item;
        assert paths[k] == p;
      }
    }
  }
}
