/** Compiled packets do not depend on the order of their set-like lists, compile to themselves, and are
    identified by their text. */
module TaskPacketProofs {
  import opened Prelude
  import opened Ordinal
  import opened CanonicalJson
  import opened CanonicalJsonProofs
  import opened TaskPacket

  // ---------------------------------------------------------------------------
  // Order
  // ---------------------------------------------------------------------------

  lemma MapWithout<T, U>(s: seq<T>, j: nat, f: T -> U)
    requires j < |s|
    ensures multiset(Map(s, f)) == multiset(Map(s[..j] + s[j + 1..], f)) + multiset{f(s[j])}
  {
    RemoveAt(Map(s, f), j);
    assert Map(s[..j] + s[j + 1..], f) == Map(s, f)[..j] + Map(s, f)[j + 1..];
  }

  lemma MapHead<T, U>(s: seq<T>, f: T -> U)
    requires s != []
    ensures multiset(Map(s, f)) == multiset(Map(s[1..], f)) + multiset{f(s[0])}
  {
    assert Map(s, f) == [f(s[0])] + Map(s[1..], f);
  }

  lemma {:induction false} MapForgetsOrder<T, U>(a: seq<T>, b: seq<T>, f: T -> U)
    requires multiset(a) == multiset(b)
    ensures multiset(Map(a, f)) == multiset(Map(b, f))
    decreases |a|
  {
    if a == [] {
      Permuted(a, b);
    } else {
      var j := Without(a, b);
      MapForgetsOrder(a[1..], b[..j] + b[j + 1..], f);
      MapHead(a, f);
      MapWithout(b, j, f);
    }
  }

  lemma {:induction false} FilterForgetsOrder<T>(a: seq<T>, b: seq<T>, p: T -> bool)
    requires multiset(a) == multiset(b)
    ensures multiset(Filter(a, p)) == multiset(Filter(b, p))
    decreases |a|
  {
    if a == [] {
      Permuted(a, b);
    } else {
      var j := Without(a, b);
      var rest := b[..j] + b[j + 1..];
      FilterForgetsOrder(a[1..], rest, p);
      FilterAppend(b[..j], b[j + 1..], p);
      assert b == b[..j] + ([b[j]] + b[j + 1..]);
      FilterAppend(b[..j], [b[j]] + b[j + 1..], p);
      assert ([b[j]] + b[j + 1..])[1..] == b[j + 1..];
    }
  }

  /** Two orders of one list sort alike, or neither result has distinct keys. */
  lemma SortEitherWay<T>(a: seq<T>, b: seq<T>, key: T -> Text)
    requires multiset(a) == multiset(b)
    ensures SortBy(a, key) == SortBy(b, key) || (!DistinctBy(SortBy(a, key), key) && !DistinctBy(SortBy(b, key), key))
  {
    if DistinctBy(a, key) {
      SortForgetsOrder(a, b, key);
    } else {
      if DistinctBy(SortBy(a, key), key) {
        DistinctByOrderFree(SortBy(a, key), a, key);
        assert false;
      }
      if DistinctBy(SortBy(b, key), key) {
        DistinctByOrderFree(SortBy(b, key), a, key);
        assert false;
      }
    }
  }

  lemma TagsEitherWay(a: seq<Text>, b: seq<Text>)
    requires multiset(a) == multiset(b)
    ensures var s, t := CanonicalTags(a), CanonicalTags(b);
            s == t || (!DistinctBy(s, Itself) && !DistinctBy(t, Itself))
  {
    FilterForgetsOrder(a, b, Concrete);
    Permuted(Filter(a, Concrete), Filter(b, Concrete));
    SortEitherWay(a, b, Itself);
    SortEitherWay(Filter(a, Concrete), Filter(b, Concrete), Itself);
  }

  /** The same packet with its paths, references, tags and evidence requirements in other orders. */
  ghost predicate Reordered(a: Packet, b: Packet) {
    && multiset(a.allowedPaths) == multiset(b.allowedPaths)
    && multiset(a.referenceIds) == multiset(b.referenceIds)
    && multiset(a.boundaryTags) == multiset(b.boundaryTags)
    && multiset(a.evidenceRequirements) == multiset(b.evidenceRequirements)
    && b == a.(allowedPaths := b.allowedPaths, referenceIds := b.referenceIds, boundaryTags := b.boundaryTags,
               evidenceRequirements := b.evidenceRequirements)
  }

  lemma ParseKeepsReordered(host: Host, a: Packet, b: Packet)
    requires Reordered(a, b)
    ensures ParseInput(host, a).Some? <==> ParseInput(host, b).Some?
    ensures ParseInput(host, a).Some? ==> Reordered(ParseInput(host, a).value, ParseInput(host, b).value)
  {
    var p := Trimmed(host, a).(boundaryTags := Map(a.boundaryTags, host.trim));
    var q := Trimmed(host, b).(boundaryTags := Map(b.boundaryTags, host.trim));
    MapForgetsOrder(a.referenceIds, b.referenceIds, host.trim);
    MapForgetsOrder(a.boundaryTags, b.boundaryTags, host.trim);
    MapForgetsOrder(a.evidenceRequirements, b.evidenceRequirements, (r: Requirement) => TrimRequirement(host, r));
    assert Reordered(p, q);
    BaseValidReordered(host, p, q);
    Permuted(p.boundaryTags, q.boundaryTags);
  }

  lemma BaseValidReordered(host: Host, p: Packet, q: Packet)
    requires Reordered(p, q)
    ensures BaseValid(host, p) <==> BaseValid(host, q)
  {
    Permuted(p.allowedPaths, q.allowedPaths);
    Permuted(p.referenceIds, q.referenceIds);
    Permuted(p.boundaryTags, q.boundaryTags);
    Permuted(p.evidenceRequirements, q.evidenceRequirements);
  }

  lemma UniqueIsDistinct(values: seq<Text>)
    requires SortedUnique(values)
    ensures DistinctBy(values, Itself)
  {
    SortedUniqueIsStrict(values);
    forall i, j | 0 <= i < j < |values| ensures Itself(values[i]) != Itself(values[j]) {
      assert Less(Itself(values[i]), Itself(values[j]));
      LessTotal(values[i], values[j]);
    }
  }

  /** A packet that parses had distinct paths, references, tags and requirements beforehand. */
  lemma ParsedWasDistinct(host: Host, c: Packet)
    requires ParsePacket(host, c).Some?
    ensures DistinctBy(c.allowedPaths, Itself) && DistinctBy(c.boundaryTags, Itself)
    ensures DistinctBy(c.referenceIds, Itself)
    ensures DistinctBy(c.evidenceRequirements, RequirementId)
  {
    var p := Trimmed(host, c);
    UniqueIsDistinct(p.allowedPaths);
    UniqueIsDistinct(p.boundaryTags);
    UniqueIsDistinct(p.referenceIds);
    forall i, j | 0 <= i < j < |c.referenceIds| ensures Itself(c.referenceIds[i]) != Itself(c.referenceIds[j]) {
      assert Itself(p.referenceIds[i]) != Itself(p.referenceIds[j]);
    }
    var rs := c.evidenceRequirements;
    forall i, j | 0 <= i < j < |rs| ensures RequirementId(rs[i]) != RequirementId(rs[j]) {
      assert RequirementId(p.evidenceRequirements[i]) != RequirementId(p.evidenceRequirements[j]);
    }
  }

  lemma CandidatesEitherWay(host: Host, p: Packet, q: Packet)
    requires Reordered(p, q)
    ensures || Candidate(host, p) == Candidate(host, q)
            || (ParsePacket(host, Candidate(host, p)).None? && ParsePacket(host, Candidate(host, q)).None?)
  {
    var c, d := Candidate(host, p), Candidate(host, q);
    MapForgetsOrder(p.allowedPaths, q.allowedPaths, host.nfc);
    SortEitherWay(Map(p.allowedPaths, host.nfc), Map(q.allowedPaths, host.nfc), Itself);
    MapForgetsOrder(p.referenceIds, q.referenceIds, host.nfc);
    SortEitherWay(Map(p.referenceIds, host.nfc), Map(q.referenceIds, host.nfc), Itself);
    var tag := (t: Text) => TagOf(host, t);
    MapForgetsOrder(p.boundaryTags, q.boundaryTags, tag);
    TagsEitherWay(Map(p.boundaryTags, tag), Map(q.boundaryTags, tag));
    var normal := (r: Requirement) => NormalRequirement(host, r);
    MapForgetsOrder(p.evidenceRequirements, q.evidenceRequirements, normal);
    SortEitherWay(Map(p.evidenceRequirements, normal), Map(q.evidenceRequirements, normal), RequirementId);
    if ParsePacket(host, c).Some? {
      ParsedWasDistinct(host, c);
    }
    if ParsePacket(host, d).Some? {
      ParsedWasDistinct(host, d);
    }
  }

  lemma TagsReordered(host: Host, a: seq<Text>, b: seq<Text>)
    requires multiset(a) == multiset(b)
    requires exists t | t in a :: TagOf(host, t) !in TagNames()
    ensures exists t | t in b :: TagOf(host, t) !in TagNames()
  {
    Permuted(a, b);
  }

  lemma CanonicalReordered(host: Host, p: Packet, q: Packet)
    requires Reordered(p, q)
    ensures CanonicalPacket(host, p) == CanonicalPacket(host, q)
  {
    if exists t | t in p.boundaryTags :: TagOf(host, t) !in TagNames() {
      TagsReordered(host, p.boundaryTags, q.boundaryTags);
    } else if exists t | t in q.boundaryTags :: TagOf(host, t) !in TagNames() {
      TagsReordered(host, q.boundaryTags, p.boundaryTags);
    } else {
      CandidatesEitherWay(host, p, q);
    }
  }

  /** The result of compilation, text and refusals included, does not depend on the order of paths,
      references, tags or evidence requirements. */
  lemma CompilationIgnoresOrder(host: Host, a: Packet, b: Packet)
    requires Reordered(a, b)
    ensures CompileTaskPacket(host, a) == CompileTaskPacket(host, b)
  {
    ParseKeepsReordered(host, a, b);
    if ParseInput(host, a).Some? {
      CanonicalReordered(host, ParseInput(host, a).value, ParseInput(host, b).value);
    }
  }

  // ---------------------------------------------------------------------------
  // Compiling a compiled packet
  // ---------------------------------------------------------------------------

  /** Neither normalisation nor trimming changes it. */
  ghost predicate Settled(host: Host, x: Text) { host.nfc(x) == x && host.trim(x) == x }

  ghost predicate CriterionSettled(host: Host, c: Criterion) {
    && Settled(host, c.id) && Settled(host, c.scenario) && Settled(host, c.observable) && Settled(host, c.expected)
    && Settled(host, c.evidenceLogicalId)
  }

  ghost predicate AllSettled(host: Host, p: Packet) {
    && Settled(host, p.runId) && Settled(host, p.taskId) && Settled(host, p.objective) && Settled(host, p.deliverable)
    && (forall x | x in p.allowedPaths :: host.nfc(x) == x)
    && (forall x | x in p.referenceIds :: Settled(host, x))
    && (forall x | x in p.dependencyIds :: Settled(host, x))
    && (forall c | c in p.criteria :: CriterionSettled(host, c))
    && (forall r | r in p.evidenceRequirements :: Settled(host, r.logicalId))
  }

  lemma MapSettles(host: Host, raw: seq<Text>)
    requires Lawful(host)
    ensures forall x | x in Map(Map(raw, host.trim), host.nfc) :: Settled(host, x)
  {
  }

  lemma SortMembers<T>(s: seq<T>, key: T -> Text)
    ensures forall x | x in SortBy(s, key) :: x in s
  {
    Permuted(SortBy(s, key), s);
  }

  lemma CandidateSettled(host: Host, input: Packet)
    requires Lawful(host)
    ensures AllSettled(host, Candidate(host, Trimmed(host, input)))
  {
    var t := Trimmed(host, input);
    SortMembers(Map(t.allowedPaths, host.nfc), Itself);
    MapSettles(host, input.referenceIds);
    SortMembers(Map(t.referenceIds, host.nfc), Itself);
    MapSettles(host, input.dependencyIds);
    RequirementsSettled(host, input.evidenceRequirements);
    CriteriaSettled(host, input.criteria);
  }

  lemma RequirementsSettled(host: Host, raw: seq<Requirement>)
    requires Lawful(host)
    ensures var trimmed := Map(raw, (r: Requirement) => TrimRequirement(host, r));
            forall r | r in SortBy(Map(trimmed, (r: Requirement) => NormalRequirement(host, r)), RequirementId) ::
              Settled(host, r.logicalId)
  {
    var trimmed := Map(raw, (r: Requirement) => TrimRequirement(host, r));
    SortMembers(Map(trimmed, (r: Requirement) => NormalRequirement(host, r)), RequirementId);
  }

  lemma CriteriaSettled(host: Host, raw: seq<Criterion>)
    requires Lawful(host)
    ensures var trimmed := Map(raw, (c: Criterion) => TrimCriterion(host, c));
            forall c | c in Map(trimmed, (c: Criterion) => NormalCriterion(host, c)) :: CriterionSettled(host, c)
  {
  }

  lemma MapFixed<T>(s: seq<T>, f: T -> T)
    requires forall x | x in s :: f(x) == x
    ensures Map(s, f) == s
  {
    assert forall i | 0 <= i < |s| :: s[i] in s;
  }

  /** Trimming and normalising a settled packet changes nothing. */
  lemma TrimmedFixed(host: Host, p: Packet)
    requires AllSettled(host, p)
    ensures Trimmed(host, p) == p
  {
    MapFixed(p.referenceIds, host.trim);
    MapFixed(p.dependencyIds, host.trim);
    MapFixed(p.criteria, (c: Criterion) => TrimCriterion(host, c));
    MapFixed(p.evidenceRequirements, (r: Requirement) => TrimRequirement(host, r));
  }

  lemma TagsFixed(host: Host, tags: seq<Text>)
    requires Lawful(host) && forall t | t in tags :: t in TagNames()
    ensures Map(tags, host.trim) == tags && Map(tags, (t: Text) => TagOf(host, t)) == tags
    ensures forall t | t in tags :: TagOf(host, t) == t && Fits(t, 1024)
  {
    forall t | t in tags ensures TagOf(host, t) == t && Fits(t, 1024) {
      NamesHaveNoHyphen(t);
      MapFixed<CodeUnit>(t, UnderscoredUnit);
    }
    MapFixed(tags, host.trim);
    MapFixed(tags, (t: Text) => TagOf(host, t));
  }

  lemma NamesHaveNoHyphen(t: Text)
    requires t in TagNames()
    ensures Fits(t, 1024) && forall c | c in t :: c != 0x2d
  {
    var names := ["none", "unknown", "authorization", "containment", "external_write", "network", "privacy", "security"];
    var k :| 0 <= k < |TagNames()| && TagNames()[k] == t;
    assert t == Ascii(names[k]);
    LowerWord(names[k]);
  }

  /** A literal of lower-case letters and underscores holds no hyphen. */
  lemma LowerWord(s: string)
    requires forall i | 0 <= i < |s| :: 'a' <= s[i] <= 'z' || s[i] == '_'
    ensures forall c | c in Ascii(s) :: c != 0x2d
  {
  }

  lemma CanonicalTagsFixed(tags: seq<Text>, raw: seq<Text>)
    requires tags == CanonicalTags(raw) && SortedUnique(tags)
    ensures CanonicalTags(tags) == tags
  {
    SortedUniqueIsStrict(tags);
    SortKeepsStrict(tags, Itself);
    SortMembers(Filter(raw, Concrete), Itself);
    SortMembers(raw, Itself);
    if Filter(raw, Concrete) != [] {
      FilterKeepsAll(tags, Concrete);
    } else {
      FilterDropsAll(tags, Concrete);
    }
  }

  lemma {:induction false} FilterKeepsAll<T>(s: seq<T>, p: T -> bool)
    requires forall x | x in s :: p(x)
    ensures Filter(s, p) == s
  {
    if s != [] {
      assert s[0] in s;
      FilterKeepsAll(s[1..], p);
    }
  }

  lemma FilterDropsAll<T>(s: seq<T>, p: T -> bool)
    requires forall x | x in s :: !p(x)
    ensures Filter(s, p) == []
  {
    if Filter(s, p) != [] {
      assert Filter(s, p)[0] in Filter(s, p);
      assert false;
    }
  }

  lemma CandidateFixed(host: Host, p: Packet, raw: seq<Text>)
    requires Lawful(host) && AllSettled(host, p) && PacketRules(p) && p.boundaryTags == CanonicalTags(raw)
    requires SortedBy(p.evidenceRequirements, RequirementId)
    ensures Candidate(host, p) == p
  {
    MapFixed(p.allowedPaths, host.nfc);
    SortedUniqueIsStrict(p.allowedPaths);
    SortKeepsStrict(p.allowedPaths, Itself);
    MapFixed(p.referenceIds, host.nfc);
    SortedUniqueIsStrict(p.referenceIds);
    SortKeepsStrict(p.referenceIds, Itself);
    MapFixed(p.dependencyIds, host.nfc);
    MapFixed(p.criteria, (c: Criterion) => NormalCriterion(host, c));
    TagsFixed(host, p.boundaryTags);
    CanonicalTagsFixed(p.boundaryTags, raw);
    MapFixed(p.evidenceRequirements, (r: Requirement) => NormalRequirement(host, r));
    SortedDistinctIsStrict(p.evidenceRequirements, RequirementId);
    SortKeepsStrict(p.evidenceRequirements, RequirementId);
  }

  lemma ParsedSettles(host: Host, input: Packet)
    requires Lawful(host) && ParseInput(host, input).Some?
    ensures AllSettled(host, Candidate(host, ParseInput(host, input).value))
  {
    var parsed := ParseInput(host, input).value;
    var tagged := input.(boundaryTags := parsed.boundaryTags);
    assert parsed == Trimmed(host, tagged);
    CandidateSettled(host, tagged);
  }

  /** What a compiled packet is: the candidate itself, settled and within every rule. */
  lemma CompiledShape(host: Host, input: Packet) returns (p: Packet, raw: seq<Text>)
    requires Lawful(host) && CompileTaskPacket(host, input).Compiled?
    ensures p == CompileTaskPacket(host, input).packet
    ensures AllSettled(host, p) && PacketRules(p) && BaseValid(host, p) && p.boundaryTags == CanonicalTags(raw)
    ensures SortedBy(p.evidenceRequirements, RequirementId)
    ensures CompileTaskPacket(host, input) == Compiled(p, PacketText(p), Utf8Length(PacketText(p)))
    ensures Utf8Length(PacketText(p)) <= p.budgets.maxPacketBytes
  {
    CompiledParses(host, input);
    var parsed := ParseInput(host, input).value;
    raw := Map(parsed.boundaryTags, (t: Text) => TagOf(host, t));
    p := Candidate(host, parsed);
    assert AllSettled(host, p) by { ParsedSettles(host, input); }
    TrimmedFixed(host, p);
    SortBySorted(Map(parsed.evidenceRequirements, (r: Requirement) => NormalRequirement(host, r)), RequirementId);
  }

  lemma CompiledParses(host: Host, input: Packet)
    requires CompileTaskPacket(host, input).Compiled?
    ensures ParseInput(host, input).Some?
    ensures ParsePacket(host, Candidate(host, ParseInput(host, input).value)).Some?
    ensures CompileTaskPacket(host, input) == Emitted(ParsePacket(host, Candidate(host, ParseInput(host, input).value)).value)
  {
  }

  lemma ParseFixed(host: Host, p: Packet)
    requires Lawful(host) && AllSettled(host, p) && BaseValid(host, p)
    requires forall t | t in p.boundaryTags :: t in TagNames()
    ensures ParseInput(host, p) == Some(p)
  {
    TrimmedFixed(host, p);
    TagsFixed(host, p.boundaryTags);
  }

  lemma CanonicalFixed(host: Host, p: Packet)
    requires Lawful(host) && AllSettled(host, p) && BaseValid(host, p) && PacketRules(p) && Candidate(host, p) == p
    ensures CanonicalPacket(host, p) == Some(p)
  {
    TrimmedFixed(host, p);
    TagsFixed(host, p.boundaryTags);
  }

  /** Compilation is a fixpoint on its own output: packet, text and size. */
  lemma CompiledIsFixpoint(host: Host, input: Packet)
    requires Lawful(host) && CompileTaskPacket(host, input).Compiled?
    ensures CompileTaskPacket(host, CompileTaskPacket(host, input).packet) == CompileTaskPacket(host, input)
  {
    var p, raw := CompiledShape(host, input);
    ParseFixed(host, p);
    CandidateFixed(host, p, raw);
    CanonicalFixed(host, p);
  }

  // ---------------------------------------------------------------------------
  // The text identifies the packet
  // ---------------------------------------------------------------------------

  predicate SameKeys(s: seq<Field>, t: seq<Field>) {
    |s| == |t| && forall i | 0 <= i < |s| :: s[i].key == t[i].key
  }

  ghost predicate SameValues(s: seq<Field>, t: seq<Field>) {
    |s| == |t| && forall i | 0 <= i < |s| :: Meaning(s[i].json) == Meaning(t[i].json)
  }

  lemma SameKeysSameValues(s: seq<Field>, t: seq<Field>, i: nat)
    requires SameKeys(s, t) && DistinctBy(s, KeyOf) && i < |s|
    requires FieldsMeaning(s) == FieldsMeaning(t)
    ensures Meaning(s[i].json) == Meaning(t[i].json)
  {
    forall i, j | 0 <= i < j < |t| ensures KeyOf(t[i]) != KeyOf(t[j]) {
      assert KeyOf(s[i]) != KeyOf(s[j]);
    }
    FieldsMeaningLookup(s);
    FieldsMeaningLookup(t);
    assert s[i] in s && t[i] in t;
  }

  lemma {:induction false} ItemsInjective<T>(a: seq<T>, b: seq<T>, f: T -> Json)
    requires forall x, y :: Meaning(f(x)) == Meaning(f(y)) ==> x == y
    requires ItemsMeaning(Map(a, f)) == ItemsMeaning(Map(b, f))
    ensures a == b
  {
    var s, t := Map(a, f), Map(b, f);
    if a != [] && b != [] {
      assert ItemsMeaning(s)[0] == Meaning(f(a[0])) && ItemsMeaning(t)[0] == Meaning(f(b[0]));
      assert ItemsMeaning(s)[1..] == ItemsMeaning(s[1..]) && ItemsMeaning(t)[1..] == ItemsMeaning(t[1..]);
      assert s[1..] == Map(a[1..], f) && t[1..] == Map(b[1..], f);
      ItemsInjective(a[1..], b[1..], f);
      assert a == [a[0]] + a[1..] && b == [b[0]] + b[1..];
    }
  }

  /** Keys told apart by length or by a letter. */
  lemma CriterionKeys(c: Criterion)
    ensures DistinctBy(CriterionJson(c).fields, KeyOf)
  {
    assert Ascii("scenario")[0] != Ascii("expected")[0];
  }

  lemma CriterionInjective(x: Criterion, y: Criterion)
    requires Meaning(CriterionJson(x)) == Meaning(CriterionJson(y))
    ensures x == y
  {
    var s, t := CriterionJson(x).fields, CriterionJson(y).fields;
    CriterionKeys(x);
    SameKeysSameValues(s, t, 0);
    SameKeysSameValues(s, t, 1);
    SameKeysSameValues(s, t, 2);
    SameKeysSameValues(s, t, 3);
    SameKeysSameValues(s, t, 4);
  }

  lemma RequirementKeys(r: Requirement)
    ensures DistinctBy(RequirementJson(r).fields, KeyOf)
  {
  }

  lemma RequirementInjective(x: Requirement, y: Requirement)
    requires Meaning(RequirementJson(x)) == Meaning(RequirementJson(y))
    ensures x == y
  {
    var s, t := RequirementJson(x).fields, RequirementJson(y).fields;
    RequirementKeys(x);
    SameKeysSameValues(s, t, 0);
    SameKeysSameValues(s, t, 1);
    SameKeysSameValues(s, t, 2);
    assert Ascii("artifact")[0] != Ascii("citation")[0];
  }

  lemma BudgetKeys(b: TierBudget)
    ensures DistinctBy(BudgetJson(b).fields, KeyOf)
  {
    assert Ascii("maxRetrievalCalls")[12] != Ascii("maxRetrievalBytes")[12];
  }

  lemma BudgetInjective(x: TierBudget, y: TierBudget)
    requires Meaning(BudgetJson(x)) == Meaning(BudgetJson(y))
    ensures x == y
  {
    var s, t := BudgetJson(x).fields, BudgetJson(y).fields;
    BudgetKeys(x);
    SameKeysSameValues(s, t, 0);
    SameKeysSameValues(s, t, 1);
    SameKeysSameValues(s, t, 2);
    SameKeysSameValues(s, t, 3);
  }

  lemma PacketKeys(p: Packet)
    ensures DistinctBy(PacketFields(p), KeyOf)
  {
    var s := PacketFields(p);
    forall i, j | 0 <= i < j < |s| ensures KeyOf(s[i]) != KeyOf(s[j]) {
      if |s[i].key| == |s[j].key| {
        assert s[i].key[0] != s[j].key[0];
      }
    }
  }

  lemma TextsWellFormed(texts: seq<Text>)
    ensures WellFormed(Arr(Map(texts, TextJson)))
  {
  }

  lemma CriteriaWellFormed(criteria: seq<Criterion>)
    ensures WellFormed(Arr(Map(criteria, CriterionJson)))
  {
    forall c | c in criteria ensures WellFormed(CriterionJson(c)) {
      CriterionKeys(c);
    }
  }

  lemma RequirementsWellFormed(requirements: seq<Requirement>)
    ensures WellFormed(Arr(Map(requirements, RequirementJson)))
  {
    forall r | r in requirements ensures WellFormed(RequirementJson(r)) {
      RequirementKeys(r);
    }
  }

  lemma PacketFieldWellFormed(p: Packet, i: nat)
    requires i < |PacketFields(p)|
    ensures WellFormed(PacketFields(p)[i].json)
  {
    TextsWellFormed(p.allowedPaths);
    TextsWellFormed(p.referenceIds);
    TextsWellFormed(p.dependencyIds);
    TextsWellFormed(p.boundaryTags);
    CriteriaWellFormed(p.criteria);
    RequirementsWellFormed(p.evidenceRequirements);
    BudgetKeys(p.budgets);
  }

  lemma PacketWellFormed(p: Packet)
    ensures WellFormed(Obj(PacketFields(p)))
  {
    var s := PacketFields(p);
    PacketKeys(p);
    forall f | f in s ensures WellFormed(f.json) {
      var i :| 0 <= i < |s| && s[i] == f;
      PacketFieldWellFormed(p, i);
    }
  }

  lemma ListsInjective(p: Packet, q: Packet)
    requires SameValues(PacketFields(p), PacketFields(q))
    ensures p.allowedPaths == q.allowedPaths && p.referenceIds == q.referenceIds && p.dependencyIds == q.dependencyIds
    ensures p.boundaryTags == q.boundaryTags
    ensures p.criteria == q.criteria && p.evidenceRequirements == q.evidenceRequirements && p.budgets == q.budgets
  {
    TextListsInjective(p, q);
    RecordListsInjective(p, q);
  }

  lemma TextsInjective(a: seq<Text>, b: seq<Text>)
    requires Meaning(Arr(Map(a, TextJson))) == Meaning(Arr(Map(b, TextJson)))
    ensures a == b
  {
    ItemsInjective(a, b, TextJson);
  }

  lemma TextListsInjective(p: Packet, q: Packet)
    requires SameValues(PacketFields(p), PacketFields(q))
    ensures p.allowedPaths == q.allowedPaths && p.referenceIds == q.referenceIds && p.dependencyIds == q.dependencyIds
    ensures p.boundaryTags == q.boundaryTags
  {
    var s, t := PacketFields(p), PacketFields(q);
    assert Meaning(s[6].json) == Meaning(t[6].json) && Meaning(s[7].json) == Meaning(t[7].json);
    assert Meaning(s[8].json) == Meaning(t[8].json) && Meaning(s[10].json) == Meaning(t[10].json);
    TextsInjective(p.allowedPaths, q.allowedPaths);
    TextsInjective(p.referenceIds, q.referenceIds);
    TextsInjective(p.dependencyIds, q.dependencyIds);
    TextsInjective(p.boundaryTags, q.boundaryTags);
  }

  lemma RecordListsInjective(p: Packet, q: Packet)
    requires SameValues(PacketFields(p), PacketFields(q))
    ensures p.criteria == q.criteria && p.evidenceRequirements == q.evidenceRequirements && p.budgets == q.budgets
  {
    var s, t := PacketFields(p), PacketFields(q);
    forall x, y | Meaning(CriterionJson(x)) == Meaning(CriterionJson(y)) ensures x == y {
      CriterionInjective(x, y);
    }
    ItemsInjective(p.criteria, q.criteria, CriterionJson) by { assert Meaning(s[9].json) == Meaning(t[9].json); }
    forall x, y | Meaning(RequirementJson(x)) == Meaning(RequirementJson(y)) ensures x == y {
      RequirementInjective(x, y);
    }
    ItemsInjective(p.evidenceRequirements, q.evidenceRequirements, RequirementJson) by {
      assert Meaning(s[14].json) == Meaning(t[14].json);
    }
    BudgetInjective(p.budgets, q.budgets) by { assert Meaning(s[13].json) == Meaning(t[13].json); }
  }

  lemma PacketKeysFixed(p: Packet, q: Packet)
    ensures SameKeys(PacketFields(p), PacketFields(q)) && |PacketFields(p)| == 15
  {
  }

  lemma SameFields(s: seq<Field>, t: seq<Field>)
    requires SameKeys(s, t) && DistinctBy(s, KeyOf) && FieldsMeaning(s) == FieldsMeaning(t)
    ensures SameValues(s, t)
  {
    forall i | 0 <= i < |s| ensures Meaning(s[i].json) == Meaning(t[i].json) {
      SameKeysSameValues(s, t, i);
    }
  }

  lemma FieldsIdentifyPacket(p: Packet, q: Packet)
    requires FieldsMeaning(PacketFields(p)) == FieldsMeaning(PacketFields(q))
    ensures p == q
  {
    PacketKeys(p);
    PacketKeysFixed(p, q);
    SameFields(PacketFields(p), PacketFields(q));
    ListsInjective(p, q);
    ScalarsInjective(p, q);
  }

  /** Two packets have one text only if they are one packet. */
  lemma TextIdentifiesPacket(p: Packet, q: Packet)
    ensures PacketText(p) == PacketText(q) <==> p == q
  {
    if PacketText(p) == PacketText(q) {
      var a, b := Obj(PacketFields(p)), Obj(PacketFields(q));
      PacketWellFormed(p);
      PacketWellFormed(q);
      CanonicalFaithful(a, b);
      assert Meaning(a) == ObjectValue(FieldsMeaning(a.fields)) && Meaning(b) == ObjectValue(FieldsMeaning(b.fields));
      FieldsIdentifyPacket(p, q);
    }
  }

  lemma ScalarsInjective(p: Packet, q: Packet)
    requires SameValues(PacketFields(p), PacketFields(q))
    ensures p.runId == q.runId && p.taskId == q.taskId && p.generation == q.generation
    ensures p.objective == q.objective && p.deliverable == q.deliverable
    ensures p.publicBehavior == q.publicBehavior && p.tier == q.tier
  {
    var s, t := PacketFields(p), PacketFields(q);
    assert Meaning(s[1].json) == Meaning(t[1].json) && Meaning(s[2].json) == Meaning(t[2].json);
    assert Meaning(s[3].json) == Meaning(t[3].json) && Meaning(s[4].json) == Meaning(t[4].json);
    assert Meaning(s[5].json) == Meaning(t[5].json) && Meaning(s[11].json) == Meaning(t[11].json);
    assert Meaning(s[12].json) == Meaning(t[12].json);
    assert Ascii("FAST")[0] != Ascii("DEEP")[0];
  }
}
