/** Compiling a task packet: normalising its texts, ordering its set-like lists, checking the packet
    rules and printing the canonical JSON. */
module TaskPacket {
  import opened Prelude
  import opened Ordinal
  import opened CanonicalJson

  /** The host's string library: Unicode normalisation, trimming, lower-casing and path inspection. */
  datatype Host = Host(nfc: Text -> Text, trim: Text -> Text, lower: Text -> Text, canonicalPath: Text -> bool)

  /** What Unicode guarantees of it: NFC and trimming are idempotent, NFC of trimmed text has no blank
      ends, and the tag names, being lower-case ASCII words, are left alone. */
  ghost predicate Lawful(host: Host) {
    && (forall x :: host.nfc(host.nfc(x)) == host.nfc(x))
    && (forall x :: host.trim(host.trim(x)) == host.trim(x))
    && (forall x :: host.trim(host.nfc(host.trim(x))) == host.nfc(host.trim(x)))
    && forall t | t in TagNames() :: host.trim(t) == t && host.lower(t) == t
  }

  /** A literal of the program as code units. */
  function Ascii(s: string): (t: Text)
    ensures |t| == |s| && forall i | 0 <= i < |s| && s[i] < 128 as char :: t[i] == s[i] as int
  {
    seq(|s|, i requires 0 <= i < |s| => Unit(s[i]))
  }

  function Unit(c: char): CodeUnit { c as int % 0x10000 }

  // ---------------------------------------------------------------------------
  // Packets
  // ---------------------------------------------------------------------------

  datatype TaskTier = FAST | STANDARD | DEEP

  datatype TierBudget = TierBudget(maxCalls: int, maxPacketBytes: int, maxRetrievalCalls: int, maxRetrievalBytes: int)

  function TierBudgets(tier: TaskTier): TierBudget {
    match tier
    case FAST => TierBudget(3, 4 * 1024, 4, 16 * 1024)
    case STANDARD => TierBudget(11, 8 * 1024, 10, 64 * 1024)
    case DEEP => TierBudget(28, 12 * 1024, 20, 160 * 1024)
  }

  datatype Criterion = Criterion(id: Text, scenario: Text, observable: Text, expected: Text, evidenceLogicalId: Text)

  datatype EvidenceKind = Artifact | Test | Cleanup | Citation

  datatype Requirement = Requirement(logicalId: Text, kind: EvidenceKind, required: bool)

  datatype Packet = Packet(
    runId: Text, taskId: Text, generation: int, objective: Text, deliverable: Text,
    allowedPaths: seq<Text>, referenceIds: seq<Text>, dependencyIds: seq<Text>, criteria: seq<Criterion>,
    boundaryTags: seq<Text>, publicBehavior: bool, tier: TaskTier, budgets: TierBudget,
    evidenceRequirements: seq<Requirement>)

  function NoneTag(): Text { Ascii("none") }

  function UnknownTag(): Text { Ascii("unknown") }

  function TagNames(): seq<Text> {
    [NoneTag(), UnknownTag(), Ascii("authorization"), Ascii("containment"), Ascii("external_write"),
     Ascii("network"), Ascii("privacy"), Ascii("security")]
  }

  // ---------------------------------------------------------------------------
  // The schemas
  // ---------------------------------------------------------------------------

  predicate Fits(x: Text, max: nat) { 1 <= |x| <= max }

  predicate IsId(x: Text) { Fits(x, 160) }

  predicate CriterionFits(c: Criterion) {
    && IsId(c.id) && IsId(c.evidenceLogicalId)
    && Fits(c.scenario, 1024) && Fits(c.observable, 1024) && Fits(c.expected, 1024)
  }

  predicate BaseValid(host: Host, p: Packet) {
    && IsId(p.runId) && IsId(p.taskId) && p.generation > 0
    && Fits(p.objective, 12 * 1024) && Fits(p.deliverable, 12 * 1024)
    && |p.allowedPaths| <= 64 && (forall x | x in p.allowedPaths :: Fits(x, 512) && host.canonicalPath(x))
    && |p.referenceIds| <= 64 && (forall x | x in p.referenceIds :: IsId(x))
    && |p.dependencyIds| <= 32 && (forall x | x in p.dependencyIds :: IsId(x))
    && 1 <= |p.criteria| <= 6 && (forall c | c in p.criteria :: CriterionFits(c))
    && 1 <= |p.boundaryTags| <= 8
    && p.budgets.maxCalls > 0 && p.budgets.maxPacketBytes > 0
    && p.budgets.maxRetrievalCalls >= 0 && p.budgets.maxRetrievalBytes >= 0
    && 1 <= |p.evidenceRequirements| <= 12 && forall r | r in p.evidenceRequirements :: IsId(r.logicalId)
  }

  function TrimCriterion(host: Host, c: Criterion): Criterion {
    Criterion(host.trim(c.id), host.trim(c.scenario), host.trim(c.observable), host.trim(c.expected),
              host.trim(c.evidenceLogicalId))
  }

  function TrimRequirement(host: Host, r: Requirement): Requirement {
    r.(logicalId := host.trim(r.logicalId))
  }

  /** Every text but the paths and the tags is trimmed as it is decoded. */
  function Trimmed(host: Host, p: Packet): Packet {
    p.(runId := host.trim(p.runId), taskId := host.trim(p.taskId),
       objective := host.trim(p.objective), deliverable := host.trim(p.deliverable),
       referenceIds := Map(p.referenceIds, host.trim), dependencyIds := Map(p.dependencyIds, host.trim),
       criteria := Map(p.criteria, (c: Criterion) => TrimCriterion(host, c)),
       evidenceRequirements := Map(p.evidenceRequirements, (r: Requirement) => TrimRequirement(host, r)))
  }

  function ParseInput(host: Host, input: Packet): Option<Packet> {
    var p := Trimmed(host, input).(boundaryTags := Map(input.boundaryTags, host.trim));
    if BaseValid(host, p) && forall t | t in p.boundaryTags :: Fits(t, 1024) then Some(p) else None
  }

  function RequirementId(r: Requirement): Text { r.logicalId }

  function CriterionId(c: Criterion): Text { c.id }

  function EvidenceCited(criteria: seq<Criterion>): set<Text> {
    set c | c in criteria :: c.evidenceLogicalId
  }

  function EvidenceRequired(requirements: seq<Requirement>): set<Text> {
    set r | r in requirements && r.required :: r.logicalId
  }

  predicate Concrete(tag: Text) { tag != NoneTag() && tag != UnknownTag() }

  function ClassifyTaskTier(allowedPaths: seq<Text>, boundaryTags: seq<Text>, publicBehavior: bool): TaskTier {
    if (exists t | t in boundaryTags :: Concrete(t)) || |allowedPaths| > 8 then DEEP
    else if UnknownTag() in boundaryTags || |allowedPaths| >= 3 || publicBehavior then STANDARD
    else FAST
  }

  predicate PacketRules(p: Packet) {
    && (forall t | t in p.boundaryTags :: t in TagNames())
    && SortedUnique(p.allowedPaths) && SortedUnique(p.referenceIds) && SortedUnique(p.boundaryTags)
    && Distinct(p.dependencyIds) && DistinctBy(p.criteria, CriterionId)
    && DistinctBy(p.evidenceRequirements, RequirementId)
    && (NoneTag() in p.boundaryTags ==> |p.boundaryTags| == 1)
    && EvidenceCited(p.criteria) == EvidenceRequired(p.evidenceRequirements)
    && p.budgets == TierBudgets(p.tier)
    && ClassifyTaskTier(p.allowedPaths, p.boundaryTags, p.publicBehavior) == p.tier
  }

  function ParsePacket(host: Host, candidate: Packet): Option<Packet> {
    var p := Trimmed(host, candidate);
    if BaseValid(host, p) && PacketRules(p) then Some(p) else None
  }

  // ---------------------------------------------------------------------------
  // Canonical packets
  // ---------------------------------------------------------------------------

  function UnderscoredUnit(c: CodeUnit): CodeUnit { if c == 0x2d then 0x5f else c }

  function Underscored(x: Text): Text { Map(x, UnderscoredUnit) }

  /** What a tag normalises to; it is refused unless that is one of the names. */
  function TagOf(host: Host, tag: Text): Text {
    Underscored(host.lower(host.trim(tag)))
  }

  function CanonicalTags(tags: seq<Text>): seq<Text> {
    var concrete := Filter(tags, Concrete);
    SortBy(if concrete != [] then concrete else tags, Itself)
  }

  function NormalCriterion(host: Host, c: Criterion): Criterion {
    Criterion(host.nfc(c.id), host.nfc(c.scenario), host.nfc(c.observable), host.nfc(c.expected),
              host.nfc(c.evidenceLogicalId))
  }

  function NormalRequirement(host: Host, r: Requirement): Requirement {
    r.(logicalId := host.nfc(r.logicalId))
  }

  function Candidate(host: Host, p: Packet): Packet {
    p.(runId := host.nfc(p.runId), taskId := host.nfc(p.taskId),
       objective := host.nfc(p.objective), deliverable := host.nfc(p.deliverable),
       allowedPaths := SortBy(Map(p.allowedPaths, host.nfc), Itself),
       referenceIds := SortBy(Map(p.referenceIds, host.nfc), Itself),
       dependencyIds := Map(p.dependencyIds, host.nfc),
       criteria := Map(p.criteria, (c: Criterion) => NormalCriterion(host, c)),
       boundaryTags := CanonicalTags(Map(p.boundaryTags, (t: Text) => TagOf(host, t))),
       evidenceRequirements :=
         SortBy(Map(p.evidenceRequirements, (r: Requirement) => NormalRequirement(host, r)), RequirementId))
  }

  function CanonicalPacket(host: Host, p: Packet): Option<Packet> {
    if exists t | t in p.boundaryTags :: TagOf(host, t) !in TagNames() then None
    else ParsePacket(host, Candidate(host, p))
  }

  // ---------------------------------------------------------------------------
  // Compilation
  // ---------------------------------------------------------------------------

  function TierName(tier: TaskTier): Text {
    match tier
    case FAST => Ascii("FAST")
    case STANDARD => Ascii("STANDARD")
    case DEEP => Ascii("DEEP")
  }

  function KindName(kind: EvidenceKind): Text {
    match kind
    case Artifact => Ascii("artifact")
    case Test => Ascii("test")
    case Cleanup => Ascii("cleanup")
    case Citation => Ascii("citation")
  }

  function CriterionJson(c: Criterion): Json {
    Obj([Field(Ascii("id"), Str(c.id)), Field(Ascii("scenario"), Str(c.scenario)),
         Field(Ascii("observable"), Str(c.observable)), Field(Ascii("expected"), Str(c.expected)),
         Field(Ascii("evidenceLogicalId"), Str(c.evidenceLogicalId))])
  }

  function RequirementJson(r: Requirement): Json {
    Obj([Field(Ascii("logicalId"), Str(r.logicalId)), Field(Ascii("kind"), Str(KindName(r.kind))),
         Field(Ascii("required"), Bool(r.required))])
  }

  function BudgetJson(b: TierBudget): Json {
    Obj([Field(Ascii("maxCalls"), Number(b.maxCalls)), Field(Ascii("maxPacketBytes"), Number(b.maxPacketBytes)),
         Field(Ascii("maxRetrievalCalls"), Number(b.maxRetrievalCalls)),
         Field(Ascii("maxRetrievalBytes"), Number(b.maxRetrievalBytes))])
  }

  function TextJson(x: Text): Json { Str(x) }

  function PacketFields(p: Packet): seq<Field> {
    [Field(Ascii("version"), Number(1)),
     Field(Ascii("runId"), Str(p.runId)),
     Field(Ascii("taskId"), Str(p.taskId)),
     Field(Ascii("generation"), Number(p.generation)),
     Field(Ascii("objective"), Str(p.objective)),
     Field(Ascii("deliverable"), Str(p.deliverable)),
     Field(Ascii("allowedPaths"), Arr(Map(p.allowedPaths, TextJson))),
     Field(Ascii("referenceIds"), Arr(Map(p.referenceIds, TextJson))),
     Field(Ascii("dependencyIds"), Arr(Map(p.dependencyIds, TextJson))),
     Field(Ascii("criteria"), Arr(Map(p.criteria, CriterionJson))),
     Field(Ascii("boundaryTags"), Arr(Map(p.boundaryTags, TextJson))),
     Field(Ascii("publicBehavior"), Bool(p.publicBehavior)),
     Field(Ascii("tier"), Str(TierName(p.tier))),
     Field(Ascii("budgets"), BudgetJson(p.budgets)),
     Field(Ascii("evidenceRequirements"), Arr(Map(p.evidenceRequirements, RequirementJson)))]
  }

  function PacketText(p: Packet): Text { Canonical(Obj(PacketFields(p))) }

  /** The length of the UTF-8 form; an unpaired surrogate becomes the three-byte replacement character. */
  function Utf8Length(t: Text): nat {
    if t == [] then 0
    else if t[0] < 0x80 then 1 + Utf8Length(t[1..])
    else if t[0] < 0x800 then 2 + Utf8Length(t[1..])
    else if |t| >= 2 && HighSurrogate(t[0]) && LowSurrogate(t[1]) then 4 + Utf8Length(t[2..])
    else 3 + Utf8Length(t[1..])
  }

  datatype CompileResult = Compiled(packet: Packet, json: Text, bytes: nat) | MalformedPacket | PacketBudgetExceeded

  function CompileTaskPacket(host: Host, input: Packet): CompileResult {
    match ParseInput(host, input)
    case None => MalformedPacket
    case Some(parsed) =>
      match CanonicalPacket(host, parsed)
      case None => MalformedPacket
      case Some(packet) => Emitted(packet)
  }

  /** The text of a canonical packet, if its UTF-8 form fits the packet's budget. */
  function Emitted(packet: Packet): CompileResult {
    var json := PacketText(packet);
    if Utf8Length(json) > packet.budgets.maxPacketBytes then PacketBudgetExceeded
    else Compiled(packet, json, Utf8Length(json))
  }
}
