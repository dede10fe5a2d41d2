/** The journaled migration of a version 1 state directory, its recovery, and the preflight that runs them.

    Operations are given as the list of atomic writes they intend; a crash or an expired deadline
    keeps a prefix of that list. */
module Migration {
  import opened Prelude

  type Path = string
  type Bytes = string

  const ACTIVE: Path := "active.json"

  /** SHA-256 taken as injective. */
  datatype Digest = Sha256(preimage: Bytes)

  datatype Item = Item(path: Path, sourceHash: Digest, targetHash: Digest)

  datatype Phase = Preparing | BackingUp | BackedUp | Staged | Publishing | Committed

  datatype Journal = Journal(phase: Phase, items: seq<Item>, published: seq<Path>)

  datatype Mark = Mark(path: Path, hash: Digest)

  /** `live` holds every record outside the migration folder; a marker that is absent or does not
      parse is None. */
  datatype Disk = Disk(
    live: map<Path, Bytes>,
    journal: Option<Journal>,
    backup: map<Path, Bytes>,
    staged: map<Path, Bytes>,
    marker: Option<seq<Mark>>)

  datatype Conversion = Current | Migrated(bytes: Bytes) | Invalid

  datatype IndexSchema = MalformedIndex | IndexV2 | OtherIndex

  /** What the record codecs say about paths and bytes, and how the host collates paths. `convert`
      sees the whole source because worker identities are collected from the task facts. */
  datatype Codec = Codec(
    isLifecyclePath: Path -> bool,
    isFuture: Bytes -> bool,
    identitiesKnown: map<Path, Bytes> -> bool,
    convert: (map<Path, Bytes>, Path, Bytes) -> Conversion,
    indexSchema: Bytes -> IndexSchema,
    collates: (Path, Path) -> bool)

  function Get(files: map<Path, Bytes>, path: Path): Bytes {
    if path in files then files[path] else ""
  }

  predicate Verified(files: map<Path, Bytes>, path: Path, hash: Digest) {
    path in files && Sha256(files[path]) == hash
  }

  function Paths(items: seq<Item>): seq<Path> {
    Map(items, (item: Item) => item.path)
  }

  predicate JournalValid(j: Journal) {
    && j.items != [] && Distinct(Paths(j.items))
    && forall p | p in j.published :: p in Paths(j.items)
  }

  // ---------------------------------------------------------------------------
  // Publishing order
  // ---------------------------------------------------------------------------

  predicate StartsWith(path: Path, prefix: string) {
    prefix <= path
  }

  /** The active index ranks above everything else. */
  function Rank(path: Path): nat {
    if path == ACTIVE then 5
    else if StartsWith(path, "teams/") then 3
    else if StartsWith(path, "runs/") || StartsWith(path, "events/") then 2
    else 1
  }

  predicate Before(codec: Codec, a: Path, b: Path) {
    Rank(a) < Rank(b) || (Rank(a) == Rank(b) && codec.collates(a, b))
  }

  function Insert(codec: Codec, p: Path, s: seq<Path>): (r: seq<Path>)
    ensures multiset(r) == multiset(s) + multiset{p}
  {
    if s == [] || Before(codec, p, s[0]) then [p] + s
    else
      assert s == [s[0]] + s[1..];
      [s[0]] + Insert(codec, p, s[1..])
  }

  function Ordered(codec: Codec, s: seq<Path>): (r: seq<Path>)
    ensures multiset(r) == multiset(s)
  {
    if s == [] then []
    else
      assert s == s[..|s| - 1] + [s[|s| - 1]];
      Insert(codec, s[|s| - 1], Ordered(codec, s[..|s| - 1]))
  }

  // ---------------------------------------------------------------------------
  // Writes
  // ---------------------------------------------------------------------------

  /** Copying a backup is not atomic: the file exists, truncated, before its bytes arrive. */
  datatype Write =
    | WriteJournal(journal: Journal)
    | RemoveJournal
    | TruncateBackup(path: Path)
    | WriteBackup(path: Path, bytes: Bytes)
    | WriteStaged(path: Path, bytes: Bytes)
    | WriteLive(path: Path, bytes: Bytes)
    | WriteMarker(marks: seq<Mark>)

  function Apply(d: Disk, w: Write): Disk {
    match w
    case WriteJournal(journal) => d.(journal := Some(journal))
    case RemoveJournal => d.(journal := None)
    case TruncateBackup(path) => d.(backup := d.backup[path := ""])
    case WriteBackup(path, bytes) => d.(backup := d.backup[path := bytes])
    case WriteStaged(path, bytes) => d.(staged := d.staged[path := bytes])
    case WriteLive(path, bytes) => d.(live := d.live[path := bytes])
    case WriteMarker(marks) => d.(marker := Some(marks))
  }

  function ApplyAll(d: Disk, ws: seq<Write>): Disk
    decreases |ws|
  {
    if ws == [] then d else Apply(ApplyAll(d, ws[..|ws| - 1]), ws[|ws| - 1])
  }

  datatype Outcome =
    | MigratedNow | AlreadyCurrent
    | Restored | Finalized | NotNeeded
    | RecoveryRequired | UnknownSchemaVersion | Interrupted | MalformedIndexError

  predicate Succeeded(o: Outcome) {
    o.MigratedNow? || o.AlreadyCurrent? || o.Restored? || o.Finalized? || o.NotNeeded?
  }

  datatype Intent = Intent(outcome: Outcome, writes: seq<Write>)

  function CutAt(d: Disk, intent: Intent, cut: nat): Disk {
    ApplyAll(d, Take(intent.writes, cut))
  }

  function Completed(d: Disk, intent: Intent): Disk {
    ApplyAll(d, intent.writes)
  }

  // ---------------------------------------------------------------------------
  // Recovery
  // ---------------------------------------------------------------------------

  function RestoreWrites(order: seq<Path>, backup: map<Path, Bytes>): seq<Write> {
    seq(|order|, k requires 0 <= k < |order| => WriteLive(order[k], Get(backup, order[k])))
  }

  function RestoreIntent(codec: Codec, d: Disk, j: Journal): Intent {
    if exists item | item in j.items :: !Verified(d.backup, item.path, item.sourceHash) then
      Intent(RecoveryRequired, [])
    else Intent(Restored, RestoreWrites(Ordered(codec, Paths(j.items)), d.backup) + [RemoveJournal])
  }

  predicate Marked(marks: seq<Mark>, path: Path, hash: Digest) {
    LastWhere(marks, (m: Mark) => m.path == path) == Some(Mark(path, hash))
  }

  /** The marker covers the journal and every live record already is its target. */
  predicate Complete(d: Disk, j: Journal) {
    && d.marker.Some? && |d.marker.value| == |j.items|
    && forall item | item in j.items ::
         Verified(d.live, item.path, item.targetHash) && Marked(d.marker.value, item.path, item.targetHash)
  }

  function FinalizeIntent(codec: Codec, d: Disk, j: Journal): Intent {
    if Complete(d, j) then Intent(Finalized, [WriteJournal(j.(phase := Committed))])
    else RestoreIntent(codec, d, j)
  }

  function RecoverIntent(codec: Codec, d: Disk): Intent {
    match d.journal
    case None => Intent(NotNeeded, [])
    case Some(j) =>
      if !JournalValid(j) then Intent(RecoveryRequired, [])
      else if j.phase.Preparing? || j.phase.BackingUp? then Intent(Restored, [RemoveJournal])
      else FinalizeIntent(codec, d, j)
  }

  predicate RequiresRecovery(d: Disk) {
    d.journal.Some? && (!JournalValid(d.journal.value) || !d.journal.value.phase.Committed?)
  }

  // ---------------------------------------------------------------------------
  // Migration
  // ---------------------------------------------------------------------------

  function Target(codec: Codec, source: map<Path, Bytes>): map<Path, Bytes> {
    map p | p in source ::
      match codec.convert(source, p, source[p]) case Migrated(bytes) => bytes case _ => source[p]
  }

  function ItemsOf(names: seq<Path>, source: map<Path, Bytes>, target: map<Path, Bytes>): seq<Item> {
    seq(|names|, k requires 0 <= k < |names| =>
      Item(names[k], Sha256(Get(source, names[k])), Sha256(Get(target, names[k]))))
  }

  function BackupWrites(names: seq<Path>, source: map<Path, Bytes>): seq<Write> {
    if names == [] then []
    else
      var p := names[|names| - 1];
      BackupWrites(names[..|names| - 1], source) + [TruncateBackup(p), WriteBackup(p, Get(source, p))]
  }

  function StageWrites(names: seq<Path>, target: map<Path, Bytes>): seq<Write> {
    seq(|names|, k requires 0 <= k < |names| => WriteStaged(names[k], Get(target, names[k])))
  }

  /** Each record is published, then journaled as published. */
  function PublishWrites(order: seq<Path>, target: map<Path, Bytes>, items: seq<Item>): seq<Write> {
    if order == [] then []
    else
      var p := order[|order| - 1];
      PublishWrites(order[..|order| - 1], target, items)
      + [WriteLive(p, Get(target, p)), WriteJournal(Journal(Publishing, items, order))]
  }

  function MarksOf(items: seq<Item>): seq<Mark> {
    Map(items, (item: Item) => Mark(item.path, item.targetHash))
  }

  /** Journal, back up and stage: nothing live changes yet. */
  function PrepareWrites(
    names: seq<Path>, source: map<Path, Bytes>, target: map<Path, Bytes>, items: seq<Item>): seq<Write>
  {
    [WriteJournal(Journal(Preparing, items, [])), WriteJournal(Journal(BackingUp, items, []))]
    + BackupWrites(names, source)
    + [WriteJournal(Journal(BackedUp, items, []))]
    + StageWrites(names, target)
  }

  function CommitWrites(order: seq<Path>, items: seq<Item>): seq<Write> {
    [WriteMarker(MarksOf(items)), WriteJournal(Journal(Committed, items, order))]
  }

  function PublishAndCommitWrites(order: seq<Path>, target: map<Path, Bytes>, items: seq<Item>): seq<Write> {
    [WriteJournal(Journal(Staged, items, [])), WriteJournal(Journal(Publishing, items, []))]
    + PublishWrites(order, target, items)
    + CommitWrites(order, items)
  }

  function MigrationWrites(
    codec: Codec, names: seq<Path>, source: map<Path, Bytes>, target: map<Path, Bytes>): seq<Write>
  {
    var items := ItemsOf(names, source, target);
    PrepareWrites(names, source, target, items) + PublishAndCommitWrites(Ordered(codec, names), target, items)
  }

  /** `names` is the directory listing, in whatever order the host returns it. */
  ghost predicate Lists(names: seq<Path>, live: map<Path, Bytes>) {
    Distinct(names) && forall p :: p in names <==> p in live
  }

  function Verdict(codec: Codec, source: map<Path, Bytes>, names: seq<Path>): Option<Outcome> {
    if names == [] || exists p | p in names :: !codec.isLifecyclePath(p) then Some(RecoveryRequired)
    else if exists p | p in names :: codec.isFuture(Get(source, p)) then Some(UnknownSchemaVersion)
    else if !codec.identitiesKnown(source) then Some(RecoveryRequired)
    else if exists p | p in names :: codec.convert(source, p, Get(source, p)).Invalid? then Some(RecoveryRequired)
    else if forall p | p in names :: codec.convert(source, p, Get(source, p)).Current? then Some(AlreadyCurrent)
    else if exists p | p in names :: codec.convert(source, p, Get(source, p)).Current? then Some(RecoveryRequired)
    else None
  }

  function MigrateIntent(codec: Codec, d: Disk, names: seq<Path>): Intent {
    match d.journal
    case Some(j) =>
      if !JournalValid(j) || !j.phase.Committed? then Intent(RecoveryRequired, [])
      else
        var finalized := FinalizeIntent(codec, d, j);
        Intent(if Succeeded(finalized.outcome) then AlreadyCurrent else RecoveryRequired, finalized.writes)
    case None =>
      match Verdict(codec, d.live, names)
      case Some(outcome) => Intent(outcome, [])
      case None => Intent(MigratedNow, MigrationWrites(codec, names, d.live, Target(codec, d.live)))
  }

  // ---------------------------------------------------------------------------
  // Preflight
  // ---------------------------------------------------------------------------

  /** The directory needs no work: a version 2 index and no unfinished journal. */
  predicate FastPath(codec: Codec, d: Disk) {
    ACTIVE in d.live && codec.indexSchema(d.live[ACTIVE]).IndexV2? && !RequiresRecovery(d)
  }

  function Then(first: Intent, second: Intent): Intent {
    Intent(second.outcome, first.writes + second.writes)
  }

  /** After a failed first attempt: recover, then migrate once more. */
  function RetryIntent(codec: Codec, d: Disk, names: seq<Path>): Intent {
    var recovered := RecoverIntent(codec, d);
    if !Succeeded(recovered.outcome) then recovered
    else Then(recovered, MigrateIntent(codec, Completed(d, recovered), names))
  }

  /** A migration whose deadline, if it expires at all, does so after `patience` writes. */
  function FirstAttempt(codec: Codec, d: Disk, names: seq<Path>, patience: Option<nat>): Intent {
    var migrated := MigrateIntent(codec, d, names);
    if patience.Some? && patience.value < |migrated.writes|
    then Intent(Interrupted, migrated.writes[..patience.value]) else migrated
  }

  /** The first migration and, if it did not succeed, the retry. */
  function AttemptIntent(codec: Codec, d: Disk, names: seq<Path>, retryNames: seq<Path>, patience: Option<nat>): Intent {
    var attempt := FirstAttempt(codec, d, names, patience);
    if Succeeded(attempt.outcome) then attempt
    else Then(attempt, RetryIntent(codec, Completed(d, attempt), retryNames))
  }

  function RecoverAndAttempt(codec: Codec, d: Disk, names: seq<Path>, retryNames: seq<Path>, patience: Option<nat>): Intent {
    var recovered := RecoverIntent(codec, d);
    if !Succeeded(recovered.outcome) then recovered
    else Then(recovered, AttemptIntent(codec, Completed(d, recovered), names, retryNames, patience))
  }

  function PreflightIntent(codec: Codec, d: Disk, names: seq<Path>, retryNames: seq<Path>, patience: Option<nat>): Intent {
    if ACTIVE !in d.live then Intent(NotNeeded, [])
    else if codec.indexSchema(d.live[ACTIVE]).MalformedIndex? then Intent(MalformedIndexError, [])
    else if FastPath(codec, d) then Intent(AlreadyCurrent, [])
    else if !codec.indexSchema(d.live[ACTIVE]).IndexV2? then AttemptIntent(codec, d, names, retryNames, patience)
    else RecoverAndAttempt(codec, d, names, retryNames, patience)
  }
}
