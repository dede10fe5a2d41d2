/** Exactly which inputs compile to a packet, and what each field of the packet is. */
module PacketAcceptance {
  import opened Prelude
  import opened Ordinal
  import opened CanonicalJson
  import opened TaskPacket
  import opened TaskPacketProofs

  // ---------------------------------------------------------------------------
  // Limits and rules, said of the packet's fields
  // ---------------------------------------------------------------------------

  ghost predicate Sized(x: Text, max: int) { x != [] && |x| <= max }

  /** Every text and list is within its limits and every path is canonical. */
  ghost predicate WithinLimits(host: Host, p: Packet) {
    && Sized(p.runId, 160) && Sized(p.taskId, 160) && p.generation >= 1
    && Sized(p.objective, 12288) && Sized(p.deliverable, 12288)
    && |p.allowedPaths| <= 64 && |p.referenceIds| <= 64 && |p.dependencyIds| <= 32
    && 1 <= |p.criteria| <= 6 && 1 <= |p.boundaryTags| <= 8 && 1 <= |p.evidenceRequirements| <= 12
    && (forall x | x in p.allowedPaths :: Sized(x, 512) && host.canonicalPath(x))
    && (forall x | x in p.referenceIds :: Sized(x, 160)) && (forall x | x in p.dependencyIds :: Sized(x, 160))
    && (forall c | c in p.criteria ::
          && Sized(c.id, 160) && Sized(c.evidenceLogicalId, 160)
          && Sized(c.scenario, 1024) && Sized(c.observable, 1024) && Sized(c.expected, 1024))
    && (forall r | r in p.evidenceRequirements :: Sized(r.logicalId, 160))
    && p.budgets.maxCalls >= 1 && p.budgets.maxPacketBytes >= 1
    && p.budgets.maxRetrievalCalls >= 0 && p.budgets.maxRetrievalBytes >= 0
  }

  /** Risk decides the tier: a concrete boundary or more than eight paths is deep; an unknown boundary, three
      paths or public behaviour is at least standard. */
  ghost predicate Tiered(p: Packet) {
    var deep := |p.allowedPaths| >= 9 || exists t :: t in p.boundaryTags && t !in [Ascii("none"), Ascii("unknown")];
    var standard := Ascii("unknown") in p.boundaryTags || |p.allowedPaths| in {3, 4, 5, 6, 7, 8} || p.publicBehavior;
    p.tier == if deep then DEEP else if standard then STANDARD else FAST
  }

  ghost predicate Budgeted(p: Packet) {
    p.budgets == match p.tier
      case FAST => TierBudget(3, 4096, 4, 16384)
      case STANDARD => TierBudget(11, 8192, 10, 65536)
      case DEEP => TierBudget(28, 12288, 20, 163840)
  }

  /** Nothing is named twice, the tags are known and "none" stands alone, the criteria cite exactly the
      required evidence, and tier and budget follow from the risk. */
  ghost predicate Coherent(p: Packet) {
    && DistinctBy(p.allowedPaths, Itself) && DistinctBy(p.referenceIds, Itself) && DistinctBy(p.boundaryTags, Itself)
    && (forall i, j | 0 <= i < j < |p.dependencyIds| :: p.dependencyIds[i] != p.dependencyIds[j])
    && DistinctBy(p.criteria, CriterionId) && DistinctBy(p.evidenceRequirements, RequirementId)
    && (forall t | t in p.boundaryTags :: KnownTag(t))
    && (Ascii("none") in p.boundaryTags ==> |p.boundaryTags| == 1)
    && (forall c | c in p.criteria ::
          exists r :: r in p.evidenceRequirements && r.required && r.logicalId == c.evidenceLogicalId)
    && (forall r | r in p.evidenceRequirements && r.required ::
          exists c :: c in p.criteria && c.evidenceLogicalId == r.logicalId)
    && Budgeted(p) && Tiered(p)
  }

  ghost predicate KnownTag(t: Text) {
    t in [Ascii("none"), Ascii("unknown"), Ascii("authorization"), Ascii("containment"), Ascii("external_write"),
          Ascii("network"), Ascii("privacy"), Ascii("security")]
  }

  lemma LimitsIff(host: Host, p: Packet)
    ensures BaseValid(host, p) <==> WithinLimits(host, p)
  {
    assert BaseValid(host, p) ==> WithinLimits(host, p);
  }

  lemma TierIff(p: Packet)
    ensures ClassifyTaskTier(p.allowedPaths, p.boundaryTags, p.publicBehavior) == p.tier <==> Tiered(p)
  {
    assert forall t :: Concrete(t) <==> t !in [Ascii("none"), Ascii("unknown")];
  }

  lemma EvidenceIff(p: Packet)
    ensures EvidenceCited(p.criteria) == EvidenceRequired(p.evidenceRequirements) <==>
            && (forall c | c in p.criteria ::
                  exists r :: r in p.evidenceRequirements && r.required && r.logicalId == c.evidenceLogicalId)
            && (forall r | r in p.evidenceRequirements && r.required ::
                  exists c :: c in p.criteria && c.evidenceLogicalId == r.logicalId)
  {
    var cited, required := EvidenceCited(p.criteria), EvidenceRequired(p.evidenceRequirements);
    assert forall c | c in p.criteria :: c.evidenceLogicalId in cited;
    assert forall r | r in p.evidenceRequirements && r.required :: r.logicalId in required;
  }

  /** On sorted lists the packet rules are these. */
  lemma RulesIff(p: Packet)
    requires SortedBy(p.allowedPaths, Itself) && SortedBy(p.referenceIds, Itself) && SortedBy(p.boundaryTags, Itself)
    ensures PacketRules(p) <==> Coherent(p)
  {
    SortedDistinctIsStrict(p.allowedPaths, Itself);
    SortedUniqueIsStrict(p.allowedPaths);
    SortedDistinctIsStrict(p.referenceIds, Itself);
    SortedUniqueIsStrict(p.referenceIds);
    SortedDistinctIsStrict(p.boundaryTags, Itself);
    SortedUniqueIsStrict(p.boundaryTags);
    TierIff(p);
    EvidenceIff(p);
    assert forall t :: KnownTag(t) <==> t in TagNames();
    assert p.budgets == TierBudgets(p.tier) <==> Budgeted(p);
  }

  // ---------------------------------------------------------------------------
  // The candidate
  // ---------------------------------------------------------------------------

  /** The tags kept: the concrete ones if there are any, otherwise all. */
  lemma CanonicalTagsAre(tags: seq<Text>, t: Text)
    ensures t in CanonicalTags(tags) <==>
            t in tags && (Concrete(t) || !exists u :: u in tags && Concrete(u))
    ensures SortedBy(CanonicalTags(tags), Itself)
  {
    var concrete := Filter(tags, Concrete);
    var kept := if concrete != [] then concrete else tags;
    SortBySorted(kept, Itself);
    Permuted(kept, SortBy(kept, Itself));
    if concrete != [] {
      assert concrete[0] in concrete && concrete[0] in tags && Concrete(concrete[0]);
    }
  }

  /** Each tag is read trimmed and lower-cased, with underscores for hyphens. */
  lemma TagIs(host: Host, tag: Text, i: nat)
    requires i < |TagOf(host, tag)|
    ensures |TagOf(host, tag)| == |host.lower(host.trim(tag))|
    ensures TagOf(host, tag)[i] == if host.lower(host.trim(tag))[i] == 0x2d then 0x5f else host.lower(host.trim(tag))[i]
  {
  }

  /** What the input becomes before the rules are checked: every text trimmed and normalised, paths only
      normalised, the set-like lists sorted, dependencies and criteria in the order given. */
  ghost predicate Normalised(host: Host, input: Packet, c: Packet) {
    NormalisedTexts(host, input, c) && NormalisedSets(host, input, c)
  }

  ghost predicate NormalisedTexts(host: Host, input: Packet, c: Packet) {
    && c.runId == host.nfc(host.trim(input.runId)) && c.taskId == host.nfc(host.trim(input.taskId))
    && c.objective == host.nfc(host.trim(input.objective)) && c.deliverable == host.nfc(host.trim(input.deliverable))
    && c.generation == input.generation && c.publicBehavior == input.publicBehavior
    && c.tier == input.tier && c.budgets == input.budgets
    && |c.dependencyIds| == |input.dependencyIds|
    && (forall i | 0 <= i < |c.dependencyIds| :: c.dependencyIds[i] == host.nfc(host.trim(input.dependencyIds[i])))
    && |c.criteria| == |input.criteria|
    && (forall i | 0 <= i < |c.criteria| :: NormalisedCriterion(host, input.criteria[i], c.criteria[i]))
  }

  ghost predicate NormalisedSets(host: Host, input: Packet, c: Packet) {
    && Lists(c.allowedPaths, input.allowedPaths, host.nfc)
    && Lists(c.referenceIds, input.referenceIds, x => host.nfc(host.trim(x)))
    && SortedBy(c.allowedPaths, Itself) && SortedBy(c.referenceIds, Itself) && SortedBy(c.boundaryTags, Itself)
    && SortedBy(c.evidenceRequirements, RequirementId) && |c.evidenceRequirements| == |input.evidenceRequirements|
    && (forall q :: q in c.evidenceRequirements <==>
          exists r :: r in input.evidenceRequirements && q == r.(logicalId := host.nfc(host.trim(r.logicalId))))
  }

  ghost predicate Lists(after: seq<Text>, before: seq<Text>, f: Text -> Text) {
    |after| == |before| && forall y :: y in after <==> exists x :: x in before && y == f(x)
  }

  ghost predicate NormalisedCriterion(host: Host, before: Criterion, after: Criterion) {
    && after.id == host.nfc(host.trim(before.id)) && after.scenario == host.nfc(host.trim(before.scenario))
    && after.observable == host.nfc(host.trim(before.observable)) && after.expected == host.nfc(host.trim(before.expected))
    && after.evidenceLogicalId == host.nfc(host.trim(before.evidenceLogicalId))
  }

  lemma MapLists(s: seq<Text>, f: Text -> Text)
    ensures Lists(SortBy(Map(s, f), Itself), s, f)
  {
    var mapped := Map(s, f);
    Permuted(mapped, SortBy(mapped, Itself));
    forall y ensures y in mapped <==> exists x :: x in s && y == f(x) {
      if y in mapped {
        var i :| 0 <= i < |mapped| && mapped[i] == y;
        assert s[i] in s;
      }
      if x :| x in s && y == f(x) {
        var i :| 0 <= i < |s| && s[i] == x;
        assert mapped[i] == y;
      }
    }
  }

  lemma RequirementsAre(host: Host, raw: seq<Requirement>, after: seq<Requirement>)
    requires after == SortBy(Map(Map(raw, (r: Requirement) => TrimRequirement(host, r)),
                                 (r: Requirement) => NormalRequirement(host, r)), RequirementId)
    ensures |after| == |raw| && SortedBy(after, RequirementId)
    ensures forall q :: q in after <==>
              exists r :: r in raw && q == r.(logicalId := host.nfc(host.trim(r.logicalId)))
  {
    var mapped := Map(Map(raw, (r: Requirement) => TrimRequirement(host, r)), (r: Requirement) => NormalRequirement(host, r));
    SortBySorted(mapped, RequirementId);
    Permuted(mapped, after);
    MappedRequirements(host, raw, mapped);
  }

  lemma MappedRequirements(host: Host, raw: seq<Requirement>, mapped: seq<Requirement>)
    requires |mapped| == |raw|
    requires forall i | 0 <= i < |raw| :: mapped[i] == raw[i].(logicalId := host.nfc(host.trim(raw[i].logicalId)))
    ensures forall q :: q in mapped <==> exists r :: r in raw && q == r.(logicalId := host.nfc(host.trim(r.logicalId)))
  {
    forall q ensures q in mapped <==> exists r :: r in raw && q == r.(logicalId := host.nfc(host.trim(r.logicalId))) {
      if q in mapped {
        var i :| 0 <= i < |mapped| && mapped[i] == q;
        assert raw[i] in raw;
      }
      if r :| r in raw && q == r.(logicalId := host.nfc(host.trim(r.logicalId))) {
        var i :| 0 <= i < |raw| && raw[i] == r;
        assert mapped[i] == q;
      }
    }
  }

  lemma ReferencesAre(host: Host, raw: seq<Text>, after: seq<Text>)
    requires after == SortBy(Map(Map(raw, host.trim), host.nfc), Itself)
    ensures Lists(after, raw, x => host.nfc(host.trim(x)))
  {
    var f := (x: Text) => host.nfc(host.trim(x));
    assert Map(Map(raw, host.trim), host.nfc) == Map(raw, f);
    MapLists(raw, f);
  }

  lemma CandidateTexts(host: Host, input: Packet)
    ensures NormalisedTexts(host, input, Candidate(host, Trimmed(host, input)))
  {
  }

  lemma CandidateSets(host: Host, input: Packet)
    ensures NormalisedSets(host, input, Candidate(host, Trimmed(host, input)))
  {
    var t := Trimmed(host, input);
    var c := Candidate(host, t);
    assert Lists(c.allowedPaths, input.allowedPaths, host.nfc) && SortedBy(c.allowedPaths, Itself) by {
      MapLists(input.allowedPaths, host.nfc);
      SortBySorted(Map(t.allowedPaths, host.nfc), Itself);
    }
    assert SortedBy(c.referenceIds, Itself) by { SortBySorted(Map(t.referenceIds, host.nfc), Itself); }
    ReferencesAre(host, input.referenceIds, c.referenceIds);
    assert SortedBy(c.boundaryTags, Itself) by {
      CanonicalTagsAre(Map(t.boundaryTags, (t: Text) => TagOf(host, t)), []);
    }
    RequirementsAre(host, input.evidenceRequirements, c.evidenceRequirements);
  }

  /** The candidate of an input is its normalised form. */
  lemma CandidateIs(host: Host, input: Packet)
    ensures Normalised(host, input, Candidate(host, Trimmed(host, input)))
    ensures Candidate(host, Trimmed(host, input)).boundaryTags == CanonicalTags(Map(input.boundaryTags, (t: Text) => TagOf(host, t)))
  {
    CandidateTexts(host, input);
    CandidateSets(host, input);
  }

  // ---------------------------------------------------------------------------
  // Compilation
  // ---------------------------------------------------------------------------

  /** The input as it is decoded: texts and tags trimmed. */
  ghost function Decoded(host: Host, input: Packet): Packet {
    Trimmed(host, input).(boundaryTags := Map(input.boundaryTags, host.trim))
  }

  ghost predicate TagsSized(host: Host, tags: seq<Text>) { forall t | t in tags :: Sized(host.trim(t), 1024) }

  ghost predicate TagsKnown(host: Host, tags: seq<Text>) { forall t | t in tags :: KnownTag(TagOf(host, t)) }

  /** Within the limits and coherent. */
  ghost predicate Acceptable(host: Host, p: Packet) { WithinLimits(host, p) && Coherent(p) }

  /** An input compiles, its text within the budget or not, exactly when it is within the limits as decoded,
      every tag names a boundary, and its normalised form is acceptable. */
  lemma CompilesIff(host: Host, input: Packet)
    requires Lawful(host)
    ensures CompileTaskPacket(host, input) != MalformedPacket <==>
            && WithinLimits(host, Decoded(host, input)) && TagsSized(host, input.boundaryTags)
            && TagsKnown(host, input.boundaryTags) && Acceptable(host, Candidate(host, Trimmed(host, input)))
  {
    DecodedTags(host, input);
    ParsesIff(host, input);
    StepsIff(host, input, Decoded(host, input), Candidate(host, Trimmed(host, input)),
             Acceptable(host, Candidate(host, Trimmed(host, input))));
  }

  lemma StepsIff(host: Host, input: Packet, decoded: Packet, c: Packet, acceptable: bool)
    requires decoded == Decoded(host, input) && Candidate(host, decoded) == c
    requires ParsePacket(host, c) == if acceptable then Some(c) else None
    requires (forall t | t in decoded.boundaryTags :: Fits(t, 1024)) <==> TagsSized(host, input.boundaryTags)
    requires (forall t | t in decoded.boundaryTags :: TagOf(host, t) in TagNames()) <==> TagsKnown(host, input.boundaryTags)
    ensures CompileTaskPacket(host, input) != MalformedPacket <==>
            && WithinLimits(host, decoded) && TagsSized(host, input.boundaryTags)
            && TagsKnown(host, input.boundaryTags) && acceptable
    ensures CompileTaskPacket(host, input) != MalformedPacket ==> CompileTaskPacket(host, input) == Emitted(c)
  {
    ParseStep(host, input, decoded);
    CanonicalStep(host, decoded, c);
  }

  lemma ParseStep(host: Host, input: Packet, decoded: Packet)
    requires decoded == Decoded(host, input)
    requires (forall t | t in decoded.boundaryTags :: Fits(t, 1024)) <==> TagsSized(host, input.boundaryTags)
    ensures ParseInput(host, input) ==
            if WithinLimits(host, decoded) && TagsSized(host, input.boundaryTags) then Some(decoded) else None
  {
    LimitsIff(host, decoded);
  }

  lemma CanonicalStep(host: Host, decoded: Packet, c: Packet)
    requires Candidate(host, decoded) == c
    ensures CanonicalPacket(host, decoded) ==
            if forall t | t in decoded.boundaryTags :: TagOf(host, t) in TagNames() then ParsePacket(host, c) else None
  {
  }

  lemma ParsesIff(host: Host, input: Packet)
    requires Lawful(host)
    ensures var c := Candidate(host, Trimmed(host, input));
            ParsePacket(host, c) == if Acceptable(host, c) then Some(c) else None
  {
    var c := Candidate(host, Trimmed(host, input));
    LimitsIff(host, c);
    CandidateSets(host, input);
    RulesIff(c);
    assert AllSettled(host, c) by { CandidateSettled(host, input); }
    TrimmedFixed(host, c);
  }

  /** Trimming a tag before reading it changes nothing. */
  lemma DecodedTags(host: Host, input: Packet)
    requires Lawful(host)
    ensures Candidate(host, Decoded(host, input)) == Candidate(host, Trimmed(host, input))
    ensures (forall t | t in Decoded(host, input).boundaryTags :: TagOf(host, t) in TagNames()) <==>
            TagsKnown(host, input.boundaryTags)
    ensures (forall t | t in Decoded(host, input).boundaryTags :: Fits(t, 1024)) <==>
            TagsSized(host, input.boundaryTags)
  {
    var raw, tags := input.boundaryTags, Decoded(host, input).boundaryTags;
    assert Map(tags, (t: Text) => TagOf(host, t)) == Map(raw, (t: Text) => TagOf(host, t)) by { ReadTwice(host, raw); }
    TrimmedMembers(host, raw);
    ReadTwice(host, raw);
    assert forall t :: KnownTag(t) <==> t in TagNames();
  }

  lemma ReadTwice(host: Host, raw: seq<Text>)
    requires Lawful(host)
    ensures forall t :: TagOf(host, host.trim(t)) == TagOf(host, t)
    ensures Map(Map(raw, host.trim), (t: Text) => TagOf(host, t)) == Map(raw, (t: Text) => TagOf(host, t))
  {
  }

  lemma TrimmedMembers(host: Host, raw: seq<Text>)
    ensures forall t | t in raw :: host.trim(t) in Map(raw, host.trim)
    ensures forall u | u in Map(raw, host.trim) :: exists t :: t in raw && u == host.trim(t)
  {
    var tags := Map(raw, host.trim);
    forall t | t in raw ensures host.trim(t) in tags {
      var i :| 0 <= i < |raw| && raw[i] == t;
      assert tags[i] == host.trim(t);
    }
    forall u | u in tags ensures exists t :: t in raw && u == host.trim(t) {
      var i :| 0 <= i < |tags| && tags[i] == u;
      assert raw[i] in raw;
    }
  }

  /** And then its text is within the budget exactly when its UTF-8 form has no more bytes than the tier allows. */
  lemma FitsBudgetIff(host: Host, input: Packet)
    requires Lawful(host) && CompileTaskPacket(host, input) != MalformedPacket
    ensures var c := Candidate(host, Trimmed(host, input));
            CompileTaskPacket(host, input) ==
            if |Utf8(PacketText(c))| <= c.budgets.maxPacketBytes
            then Compiled(c, PacketText(c), |Utf8(PacketText(c))|) else PacketBudgetExceeded
  {
    var c := Candidate(host, Trimmed(host, input));
    DecodedTags(host, input);
    ParsesIff(host, input);
    StepsIff(host, input, Decoded(host, input), c, Acceptable(host, c));
    Utf8HasLength(PacketText(c));
  }

  /** The names under which a packet's parts appear in its text. */
  lemma WireNames(p: Packet, c: Criterion, r: Requirement, b: TierBudget)
    ensures Map(PacketFields(p), KeyOf) ==
            [Ascii("version"), Ascii("runId"), Ascii("taskId"), Ascii("generation"), Ascii("objective"), Ascii("deliverable"),
             Ascii("allowedPaths"), Ascii("referenceIds"), Ascii("dependencyIds"), Ascii("criteria"), Ascii("boundaryTags"),
             Ascii("publicBehavior"), Ascii("tier"), Ascii("budgets"), Ascii("evidenceRequirements")]
    ensures Map(CriterionJson(c).fields, KeyOf) ==
            [Ascii("id"), Ascii("scenario"), Ascii("observable"), Ascii("expected"), Ascii("evidenceLogicalId")]
    ensures Map(RequirementJson(r).fields, KeyOf) == [Ascii("logicalId"), Ascii("kind"), Ascii("required")]
    ensures Map(BudgetJson(b).fields, KeyOf) ==
            [Ascii("maxCalls"), Ascii("maxPacketBytes"), Ascii("maxRetrievalCalls"), Ascii("maxRetrievalBytes")]
  {
  }

  // ---------------------------------------------------------------------------
  // Bytes
  // ---------------------------------------------------------------------------

  type Byte = x: int | 0 <= x < 256

  /** The UTF-8 form of a code point. */
  function Encode(p: int): seq<Byte>
    requires 0 <= p < 0x110000
  {
    if p < 0x80 then [p]
    else if p < 0x800 then [0xc0 + p / 64, 0x80 + p % 64]
    else if p < 0x10000 then [0xe0 + p / 4096, 0x80 + p / 64 % 64, 0x80 + p % 64]
    else [0xf0 + p / 262144, 0x80 + p / 4096 % 64, 0x80 + p / 64 % 64, 0x80 + p % 64]
  }

  /** The UTF-8 form of a text: pairs of surrogates are one code point, a lone one is the replacement character. */
  function Utf8(t: Text): seq<Byte> {
    if t == [] then []
    else if |t| >= 2 && HighSurrogate(t[0]) && LowSurrogate(t[1]) then
      Encode(0x10000 + (t[0] as int - 0xd800) * 0x400 + (t[1] as int - 0xdc00)) + Utf8(t[2..])
    else if HighSurrogate(t[0]) || LowSurrogate(t[0]) then Encode(0xfffd) + Utf8(t[1..])
    else Encode(t[0]) + Utf8(t[1..])
  }

  lemma {:induction false} Utf8HasLength(t: Text)
    ensures |Utf8(t)| == Utf8Length(t)
    decreases |t|
  {
    if t != [] {
      Utf8HasLength(t[1..]);
      if |t| >= 2 {
        Utf8HasLength(t[2..]);
      }
    }
  }
}
