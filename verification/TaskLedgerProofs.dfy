/** What every sequence of task-ledger transactions keeps, across owner changes. */
module TaskLedgerProofs {
  import opened Prelude
  import opened Domain
  import opened TaskLedger

  // ---------------------------------------------------------------------------
  // Whole runs
  // ---------------------------------------------------------------------------

  function Run(ops: seq<Op>): Entries {
    if ops == [] then [] else Step(Run(ops[..|ops| - 1]), ops[|ops| - 1])
  }

  // ---------------------------------------------------------------------------
  // Lookups and extension
  // ---------------------------------------------------------------------------

  /** Under unique keys a lookup finds the one fact there is. */
  lemma FindFactUnique(entries: Entries, e: Entry)
    requires LedgerOrdered(entries) && e in entries
    ensures FindFact(entries, e.owner, KeyOf(e.fact)) == Some(e.fact)
  {
    var found := FirstWhere(entries, (x: Entry) => x.owner == e.owner && KeyOf(x.fact) == KeyOf(e.fact));
    assert found.Some?;
    var i :| 0 <= i < |entries| && entries[i] == e;
    var j :| 0 <= j < |entries| && entries[j] == found.value;
    assert i == j;
  }

  lemma FoundFact(entries: Entries, owner: Owner, key: FactKey)
    ensures FindFact(entries, owner, key).Some? ==>
              exists e | e in entries :: e.owner == owner && e.fact == FindFact(entries, owner, key).value
    ensures FindFact(entries, owner, key).Some? ==> KeyOf(FindFact(entries, owner, key).value) == key
    ensures FindFact(entries, owner, key).None? ==>
              forall e | e in entries && e.owner == owner :: KeyOf(e.fact) != key
  {
  }

  lemma ExtendPrefix(entries: Entries, owner: Owner, facts: seq<Fact>, k: nat)
    requires k <= |facts|
    ensures Extend(entries, owner, facts)[..|entries| + k] == Extend(entries, owner, facts[..k])
    ensures k < |facts| ==> Extend(entries, owner, facts)[|entries| + k] == Entry(|entries| + k + 1, owner, facts[k])
  {
  }

  lemma {:induction false} NovelFacts(entries: Entries, owner: Owner, facts: seq<Fact>)
    requires Novel(entries, owner, facts).Some?
    ensures var novel := Novel(entries, owner, facts).value;
            && (forall n | n in novel :: n in facts && FindFact(entries, owner, KeyOf(n)).None?)
            && (forall i, j | 0 <= i < j < |novel| :: KeyOf(novel[i]) != KeyOf(novel[j]))
            && (forall f | f in facts :: f in novel || FindFact(entries, owner, KeyOf(f)) == Some(f))
  {
    if facts != [] {
      NovelFacts(entries, owner, facts[..|facts| - 1]);
      assert facts == facts[..|facts| - 1] + [facts[|facts| - 1]];
      var before := Novel(entries, owner, facts[..|facts| - 1]).value;
      assert forall i | 0 <= i < |before| :: before[i] in before;
    }
  }

  lemma ExtendOrdered(entries: Entries, owner: Owner, novel: seq<Fact>)
    requires LedgerOrdered(entries)
    requires forall n | n in novel :: FindFact(entries, owner, KeyOf(n)).None?
    requires forall i, j | 0 <= i < j < |novel| :: KeyOf(novel[i]) != KeyOf(novel[j])
    ensures LedgerOrdered(Extend(entries, owner, novel))
  {
    var r := Extend(entries, owner, novel);
    forall i, j | 0 <= i < j < |r| ensures r[i].owner != r[j].owner || KeyOf(r[i].fact) != KeyOf(r[j].fact) {
      if j >= |entries| {
        var n := novel[j - |entries|];
        assert n in novel;
        if i < |entries| {
          FoundFact(entries, owner, KeyOf(n));
          assert entries[i] in entries;
        }
      }
    }
  }

  lemma {:induction false} GenerationExtend(entries: Entries, owner: Owner, facts: seq<Fact>, who: Owner)
    requires forall f | f in facts :: !f.Reserved? && !f.IdentitiesBound?
    ensures Generation(Extend(entries, owner, facts), who) == Generation(entries, who)
  {
    var r := Extend(entries, owner, facts);
    if facts == [] {
      assert r == entries;
    } else {
      var before := facts[..|facts| - 1];
      ExtendPrefix(entries, owner, facts, |facts| - 1);
      assert r[..|r| - 1] == Extend(entries, owner, before);
      assert facts[|facts| - 1] in facts;
      GenerationExtend(entries, owner, before, who);
    }
  }

  // ---------------------------------------------------------------------------
  // Why each entry is there
  // ---------------------------------------------------------------------------

  ghost predicate HasAuthorization(prefix: Entries, owner: Owner, toolCallId: string, generation: nat) {
    exists e | e in prefix ::
      e.owner == owner && e.fact.Authorized? && e.fact.toolCallId == toolCallId && e.fact.taskGeneration == generation
  }

  ghost predicate HasReservation(prefix: Entries, owner: Owner, toolCallId: string, bindings: seq<IdentityBinding>) {
    exists e | e in prefix ::
      && e.owner == owner && e.fact.Reserved? && e.fact.toolCallId == toolCallId
      && FactValid(e.fact) && BindingsFit(e.fact, bindings)
  }

  ghost predicate HasJobReceipt(prefix: Entries, owner: Owner, toolCallId: string, agentId: string) {
    exists e | e in prefix ::
      && e.owner == owner && e.fact.ReceiptObserved? && e.fact.toolCallId == toolCallId
      && e.fact.receipt.JobReceipt? && e.fact.receipt.jobId == agentId
  }

  ghost predicate AllReceived(prefix: Entries, owner: Owner, toolCallId: string, bindings: seq<IdentityBinding>) {
    forall b | b in bindings :: HasJobReceipt(prefix, owner, toolCallId, b.agentId)
  }

  /** Every agent bound at the generation has a job receipt under one authorization of it. */
  ghost predicate ProvenBacked(prefix: Entries, owner: Owner, toolCallId: string, generation: nat) {
    && HasAuthorization(prefix, owner, toolCallId, generation)
    && exists e | e in prefix ::
         && e.owner == owner && e.sequence == generation && e.fact.IdentitiesBound?
         && AllReceived(prefix, owner, toolCallId, e.fact.bindings)
  }

  /** What held of the ledger when this entry was appended to it. */
  ghost predicate Justified(prefix: Entries, e: Entry) {
    match e.fact
    case Reserved(_, _, _) => FactValid(e.fact)
    case IdentitiesBound(t, bindings) => HasReservation(prefix, e.owner, t, bindings)
    case Authorized(_, control, generation, _, targets) =>
      && generation == Generation(prefix, e.owner) > 0
      && forall t | t in targets :: t in Owned(prefix, e.owner, control)
    case ReceiptObserved(t, _) => HasAuthorization(prefix, e.owner, t, Generation(prefix, e.owner))
    case CapabilityObserved(t, generation, proven, _) =>
      generation == Generation(prefix, e.owner) && (proven ==> ProvenBacked(prefix, e.owner, t, generation))
  }

  ghost predicate LedgerInv(entries: Entries) {
    && LedgerOrdered(entries)
    && forall i {:trigger Justified(entries[..i], entries[i])} | 0 <= i < |entries| :: Justified(entries[..i], entries[i])
  }

  lemma ExtendKeepsInv(entries: Entries, owner: Owner, novel: seq<Fact>)
    requires LedgerInv(entries) && LedgerOrdered(Extend(entries, owner, novel))
    requires forall k | 0 <= k < |novel| ::
               Justified(Extend(entries, owner, novel[..k]), Entry(|entries| + k + 1, owner, novel[k]))
    ensures LedgerInv(Extend(entries, owner, novel))
  {
    var r := Extend(entries, owner, novel);
    forall i | 0 <= i < |r| ensures Justified(r[..i], r[i]) {
      if i < |entries| {
        assert r[..i] == entries[..i];
      } else {
        ExtendPrefix(entries, owner, novel, i - |entries|);
      }
    }
  }

  // ---------------------------------------------------------------------------
  // Each action appends only justified entries
  // ---------------------------------------------------------------------------

  lemma MembersPersist(entries: Entries, owner: Owner, facts: seq<Fact>)
    ensures forall e | e in entries :: e in Extend(entries, owner, facts)
    ensures forall f | f in facts :: exists e | e in Extend(entries, owner, facts) :: e.owner == owner && e.fact == f
  {
    var r := Extend(entries, owner, facts);
    forall e | e in entries ensures e in r {
      var i :| 0 <= i < |entries| && entries[i] == e;
      assert r[i] == e;
    }
    forall f | f in facts ensures exists e | e in r :: e.owner == owner && e.fact == f {
      var i :| 0 <= i < |facts| && facts[i] == f;
      assert r[|entries| + i] in r;
    }
  }

  /** Receipts under a matching authorization are justified wherever they land in the batch. */
  lemma ReceiptJustified(entries: Entries, owner: Owner, toolCallId: string, batch: seq<Fact>, e: Entry)
    requires HasAuthorization(entries, owner, toolCallId, Generation(entries, owner))
    requires forall f | f in batch :: f.ReceiptObserved?
    requires e.owner == owner && e.fact.ReceiptObserved? && e.fact.toolCallId == toolCallId
    ensures Justified(Extend(entries, owner, batch), e)
  {
    GenerationExtend(entries, owner, batch, owner);
    MembersPersist(entries, owner, batch);
  }

  lemma MatchedAuthorization(entries: Entries, owner: Owner, toolCallId: string, inputKey: string, control: ControlKind)
    requires MatchingAuthorization(entries, owner, toolCallId, inputKey, control).Match?
    ensures HasAuthorization(entries, owner, toolCallId, Generation(entries, owner))
  {
    FoundFact(entries, owner, AuthorizedKey(toolCallId));
  }

  lemma ReceiptsKeepInv(entries: Entries, owner: Owner, toolCallId: string, facts: seq<Fact>, status: LedgerStatus)
    requires LedgerInv(entries) && HasAuthorization(entries, owner, toolCallId, Generation(entries, owner))
    requires forall f | f in facts :: f.ReceiptObserved? && f.toolCallId == toolCallId
    ensures LedgerInv(Transacted(entries, owner, Append(facts, status)))
  {
    if Novel(entries, owner, facts).Some? {
      var novel := Novel(entries, owner, facts).value;
      NovelFacts(entries, owner, facts);
      ExtendOrdered(entries, owner, novel);
      forall k | 0 <= k < |novel|
        ensures Justified(Extend(entries, owner, novel[..k]), Entry(|entries| + k + 1, owner, novel[k]))
      {
        assert novel[k] in novel;
        ReceiptJustified(entries, owner, toolCallId, novel[..k], Entry(|entries| + k + 1, owner, novel[k]));
      }
      ExtendKeepsInv(entries, owner, novel);
    }
  }

  /** Appending a single fact. */
  lemma SingleKeepsInv(entries: Entries, owner: Owner, fact: Fact, status: LedgerStatus)
    requires LedgerInv(entries)
    requires FactValid(fact) ==> Justified(entries, Entry(|entries| + 1, owner, fact))
    ensures LedgerInv(Transacted(entries, owner, Append([fact], status)))
  {
    if Novel(entries, owner, [fact]).Some? {
      var novel := Novel(entries, owner, [fact]).value;
      NovelFacts(entries, owner, [fact]);
      assert [fact][..0] == [];
      assert novel == [] || novel == [fact];
      if novel == [] {
        assert Extend(entries, owner, novel) == entries;
      } else if FactValid(fact) {
        ExtendOrdered(entries, owner, novel);
        assert Extend(entries, owner, novel[..0]) == entries;
        ExtendKeepsInv(entries, owner, novel);
      }
    }
  }

  lemma BindKeepsInv(
    entries: Entries, owner: Owner, toolCallId: string, bindings: seq<IdentityBinding>, asyncAvailable: bool)
    requires LedgerInv(entries)
    ensures LedgerInv(Transacted(entries, owner, DecideBind(entries, owner, toolCallId, bindings, asyncAvailable)))
  {
    var decision := DecideBind(entries, owner, toolCallId, bindings, asyncAvailable);
    if decision.Append? {
      var bound := IdentitiesBound(toolCallId, bindings);
      FoundFact(entries, owner, ReservedKey(toolCallId));
      ReservationsValid(entries, owner, toolCallId);
      var e :| e in entries && e.owner == owner && e.fact == FindFact(entries, owner, ReservedKey(toolCallId)).value;
      assert HasReservation(entries, owner, toolCallId, bindings);
      if asyncAvailable {
        SingleKeepsInv(entries, owner, bound, decision.status);
      } else {
        BlockedBindKeepsInv(entries, owner, bound, decision);
      }
    }
  }

  lemma ReservationsValid(entries: Entries, owner: Owner, toolCallId: string)
    requires LedgerInv(entries)
    ensures var found := FindFact(entries, owner, ReservedKey(toolCallId));
            found.Some? ==> found.value.Reserved? && FactValid(found.value)
  {
    FoundFact(entries, owner, ReservedKey(toolCallId));
    if FindFact(entries, owner, ReservedKey(toolCallId)).Some? {
      var e :| e in entries && e.owner == owner && e.fact == FindFact(entries, owner, ReservedKey(toolCallId)).value;
      var i :| 0 <= i < |entries| && entries[i] == e;
      assert Justified(entries[..i], entries[i]);
    }
  }

  lemma NovelPair(entries: Entries, owner: Owner, facts: seq<Fact>)
    requires |facts| == 2 && FindFact(entries, owner, KeyOf(facts[0])).None?
    requires Novel(entries, owner, facts).Some?
    ensures var novel := Novel(entries, owner, facts).value; novel == facts[..1] || novel == facts
  {
    var one := facts[..1];
    assert one[..0] == [];
    assert Novel(entries, owner, one) == Some([] + [one[0]]);
  }

  /** The binding and the blocked observation of its own generation. */
  lemma BlockedBindKeepsInv(entries: Entries, owner: Owner, bound: Fact, decision: Decision)
    requires LedgerInv(entries) && bound.IdentitiesBound?
    requires HasReservation(entries, owner, bound.toolCallId, bound.bindings)
    requires FindFact(entries, owner, BoundKey(bound.toolCallId)).None?
    requires decision.Append? &&
             decision.facts == [bound, CapabilityObserved(bound.toolCallId, |entries| + 1, false, "async_unavailable_or_inline")]
    ensures LedgerInv(Transacted(entries, owner, decision))
  {
    var facts := decision.facts;
    if Novel(entries, owner, facts).Some? {
      var novel := Novel(entries, owner, facts).value;
      NovelFacts(entries, owner, facts);
      NovelPair(entries, owner, facts);
      ExtendOrdered(entries, owner, novel);
      forall k | 0 <= k < |novel|
        ensures Justified(Extend(entries, owner, novel[..k]), Entry(|entries| + k + 1, owner, novel[k]))
      {
        if k == 0 {
          assert Extend(entries, owner, novel[..0]) == entries;
        } else {
          assert novel[..1] == [bound];
          GenerationAfterBind(entries, owner, bound);
        }
      }
      ExtendKeepsInv(entries, owner, novel);
    }
  }

  lemma GenerationAfterBind(entries: Entries, owner: Owner, bound: Fact)
    requires bound.IdentitiesBound?
    ensures Generation(Extend(entries, owner, [bound]), owner) == |entries| + 1
  {
    var one := Extend(entries, owner, [bound]);
    assert one[|one| - 1] == Entry(|entries| + 1, owner, bound);
  }

  // ---------------------------------------------------------------------------
  // Identities
  // ---------------------------------------------------------------------------

  /** Each identity is one of the bindings, with the job the binding names or a receipt returned. */
  ghost predicate IdentityOf(entries: Entries, owner: Owner, generation: nat, id: Identity, b: IdentityBinding) {
    && id.agentId == b.agentId && id.itemIndex == b.itemIndex
    && id.jobId == (if b.jobId.Some? then b.jobId
                    else if JobReturned(entries, owner, generation, b.agentId) then Some(b.agentId) else None)
  }

  lemma {:induction false} IdentitiesCover(
    entries: Entries, owner: Owner, generation: nat, toolCallId: string, requests: seq<WorkRequest>,
    bindings: seq<IdentityBinding>)
    requires forall b | b in bindings :: b.itemIndex < |requests|
    ensures var ids := IdentitiesOf(entries, owner, generation, toolCallId, requests, bindings);
            && |ids| == |bindings|
            && forall i | 0 <= i < |ids| :: IdentityOf(entries, owner, generation, ids[i], bindings[i]) && ids[i].toolCallId == toolCallId
  {
    if bindings != [] {
      var before := bindings[..|bindings| - 1];
      IdentitiesCover(entries, owner, generation, toolCallId, requests, before);
      assert bindings[|bindings| - 1] in bindings;
    }
  }

  lemma BoundUnique(entries: Entries, e: Entry)
    requires LedgerOrdered(entries) && e in entries && e.fact.IdentitiesBound?
    ensures BoundAt(entries, e.owner, e.sequence) == Some(e.fact)
  {
    var found := FirstWhere(entries, (x: Entry) =>
                              x.owner == e.owner && x.sequence == e.sequence && x.fact.IdentitiesBound?);
    assert found.Some?;
    var i :| 0 <= i < |entries| && entries[i] == e;
    var j :| 0 <= j < |entries| && entries[j] == found.value;
    assert i == j;
  }

  lemma BoundReservation(entries: Entries, e: Entry) returns (r: Entry)
    requires LedgerInv(entries) && e in entries && e.fact.IdentitiesBound?
    ensures r in entries && r.owner == e.owner && r.fact.Reserved? && r.fact.toolCallId == e.fact.toolCallId
    ensures forall b | b in e.fact.bindings :: b.itemIndex < |r.fact.requests|
  {
    var i :| 0 <= i < |entries| && entries[i] == e;
    assert Justified(entries[..i], entries[i]);
    assert HasReservation(entries[..i], e.owner, e.fact.toolCallId, e.fact.bindings);
    r :| r in entries[..i] && r.owner == e.owner && r.fact.Reserved? && r.fact.toolCallId == e.fact.toolCallId
         && FactValid(r.fact) && BindingsFit(r.fact, e.fact.bindings);
    forall b | b in e.fact.bindings ensures b.itemIndex < |r.fact.requests| {
      var k :| 0 <= k < |e.fact.bindings| && e.fact.bindings[k] == b;
    }
  }

  /** At a bound generation there is exactly one identity per binding. */
  lemma BoundIdentities(entries: Entries, e: Entry)
    requires LedgerInv(entries) && e in entries && e.fact.IdentitiesBound?
    ensures var ids := RuntimeIdentities(entries, e.owner, e.sequence);
            && |ids| == |e.fact.bindings|
            && (forall i | 0 <= i < |ids| :: IdentityOf(entries, e.owner, e.sequence, ids[i], e.fact.bindings[i]))
            && forall i | 0 <= i < |ids| :: ids[i].toolCallId == e.fact.toolCallId
  {
    var r := BoundReservation(entries, e);
    FindFactUnique(entries, r);
    BoundUnique(entries, e);
    IdentitiesCover(entries, e.owner, e.sequence, e.fact.toolCallId, r.fact.requests, e.fact.bindings);
  }

  /** Without a binding at the generation there are no identities. */
  lemma UnboundIdentities(entries: Entries, owner: Owner, generation: nat)
    requires RuntimeIdentities(entries, owner, generation) != []
    ensures exists e | e in entries :: e.owner == owner && e.sequence == generation && e.fact.IdentitiesBound?
  {
  }

  // ---------------------------------------------------------------------------
  // A complete snapshot proves the capability
  // ---------------------------------------------------------------------------

  lemma CompleteSnapshotCovers(entries: Entries, owner: Owner, jobs: seq<Job>, e: Entry)
    requires LedgerInv(entries) && e in entries && e.owner == owner && e.fact.IdentitiesBound?
    requires e.sequence == Generation(entries, owner)
    requires SnapshotComplete(OwnedAgents(RuntimeIdentities(entries, owner, e.sequence)), jobs)
    ensures forall b | b in e.fact.bindings :: exists j | j in jobs :: j.id == b.agentId
  {
    BoundIdentities(entries, e);
    var ids := RuntimeIdentities(entries, owner, e.sequence);
    forall b | b in e.fact.bindings ensures exists j | j in jobs :: j.id == b.agentId {
      var k :| 0 <= k < |e.fact.bindings| && e.fact.bindings[k] == b;
      assert ids[k] in ids && ids[k].agentId == b.agentId;
      assert b.agentId in OwnedAgents(ids);
      assert b.agentId in JobIds(jobs);
    }
  }

  lemma SnapshotKeepsInv(entries: Entries, owner: Owner, toolCallId: string, inputKey: string, jobs: seq<Job>)
    requires LedgerInv(entries)
    ensures LedgerInv(Transacted(entries, owner, DecideSnapshot(entries, owner, toolCallId, inputKey, jobs)))
  {
    var decision := DecideSnapshot(entries, owner, toolCallId, inputKey, jobs);
    if decision.Append? {
      MatchedAuthorization(entries, owner, toolCallId, inputKey, JobSnapshot);
      var generation := Generation(entries, owner);
      var ids := RuntimeIdentities(entries, owner, generation);
      if SnapshotComplete(OwnedAgents(ids), TaskJobs(jobs)) {
        assert ids != [];
        UnboundIdentities(entries, owner, generation);
        var e :| e in entries && e.owner == owner && e.sequence == generation && e.fact.IdentitiesBound?;
        CompleteSnapshotCovers(entries, owner, TaskJobs(jobs), e);
        ProofKeepsInv(entries, owner, toolCallId, TaskJobs(jobs), e, decision);
      } else {
        SingleKeepsInv(entries, owner, decision.facts[0], decision.status);
      }
    }
  }

  /** The receipts of a complete snapshot followed by the proven observation. */
  lemma ProofKeepsInv(
    entries: Entries, owner: Owner, toolCallId: string, jobs: seq<Job>, bound: Entry, decision: Decision)
    requires LedgerInv(entries) && bound in entries && bound.owner == owner && bound.fact.IdentitiesBound?
    requires bound.sequence == Generation(entries, owner)
    requires HasAuthorization(entries, owner, toolCallId, Generation(entries, owner))
    requires forall b | b in bound.fact.bindings :: exists j | j in jobs :: j.id == b.agentId
    requires decision.Append? && decision.facts ==
             JobReceipts(toolCallId, jobs)
             + [CapabilityObserved(toolCallId, Generation(entries, owner), true, "matching_job_snapshot")]
    ensures LedgerInv(Transacted(entries, owner, decision))
  {
    var facts, receipts := decision.facts, JobReceipts(toolCallId, jobs);
    var proof := facts[|receipts|];
    if Novel(entries, owner, facts).Some? {
      var novel := Novel(entries, owner, facts).value;
      var before := NovelLast(entries, owner, receipts, proof);
      NovelFacts(entries, owner, facts);
      NovelFacts(entries, owner, receipts);
      ExtendOrdered(entries, owner, novel);
      forall k | 0 <= k < |novel|
        ensures Justified(Extend(entries, owner, novel[..k]), Entry(|entries| + k + 1, owner, novel[k]))
      {
        assert novel[..k] == before[..k];
        SnapshotFactJustified(entries, owner, toolCallId, jobs, bound, before, proof, k);
      }
      ExtendKeepsInv(entries, owner, novel);
    }
  }

  lemma SnapshotFactJustified(
    entries: Entries, owner: Owner, toolCallId: string, jobs: seq<Job>, bound: Entry, before: seq<Fact>, proof: Fact, k: nat)
    requires LedgerInv(entries) && bound in entries && bound.owner == owner && bound.fact.IdentitiesBound?
    requires bound.sequence == Generation(entries, owner)
    requires HasAuthorization(entries, owner, toolCallId, Generation(entries, owner))
    requires forall b | b in bound.fact.bindings :: exists j | j in jobs :: j.id == b.agentId
    requires Novel(entries, owner, JobReceipts(toolCallId, jobs)) == Some(before)
    requires proof == CapabilityObserved(toolCallId, Generation(entries, owner), true, "matching_job_snapshot")
    requires k <= |before|
    ensures var fact := if k < |before| then before[k] else proof;
            Justified(Extend(entries, owner, before[..k]), Entry(|entries| + k + 1, owner, fact))
  {
    if k < |before| {
      NovelFacts(entries, owner, JobReceipts(toolCallId, jobs));
      assert before[k] in JobReceipts(toolCallId, jobs);
      ReceiptJustified(entries, owner, toolCallId, before[..k], Entry(|entries| + k + 1, owner, before[k]));
    } else {
      assert before[..k] == before;
      ProofJustified(entries, owner, toolCallId, jobs, bound, before);
    }
  }

  lemma NovelLast(entries: Entries, owner: Owner, facts: seq<Fact>, last: Fact) returns (before: seq<Fact>)
    requires Novel(entries, owner, facts + [last]).Some?
    ensures Novel(entries, owner, facts) == Some(before)
    ensures var novel := Novel(entries, owner, facts + [last]).value; novel == before || novel == before + [last]
  {
    assert (facts + [last])[..|facts|] == facts;
    before := Novel(entries, owner, facts).value;
  }

  lemma ProofJustified(
    entries: Entries, owner: Owner, toolCallId: string, jobs: seq<Job>, bound: Entry, before: seq<Fact>)
    requires LedgerInv(entries) && bound in entries && bound.owner == owner && bound.fact.IdentitiesBound?
    requires bound.sequence == Generation(entries, owner)
    requires HasAuthorization(entries, owner, toolCallId, Generation(entries, owner))
    requires forall b | b in bound.fact.bindings :: exists j | j in jobs :: j.id == b.agentId
    requires Novel(entries, owner, JobReceipts(toolCallId, jobs)) == Some(before)
    ensures var prefix := Extend(entries, owner, before);
            && Generation(prefix, owner) == Generation(entries, owner)
            && ProvenBacked(prefix, owner, toolCallId, Generation(entries, owner))
  {
    var receipts := JobReceipts(toolCallId, jobs);
    var prefix := Extend(entries, owner, before);
    NovelFacts(entries, owner, receipts);
    GenerationExtend(entries, owner, before, owner);
    MembersPersist(entries, owner, before);
    forall b | b in bound.fact.bindings ensures HasJobReceipt(prefix, owner, toolCallId, b.agentId) {
      var j :| j in jobs && j.id == b.agentId;
      var k :| 0 <= k < |jobs| && jobs[k] == j;
      var receipt := receipts[k];
      assert receipt in receipts;
      if receipt !in before {
        FoundFact(entries, owner, KeyOf(receipt));
      }
    }
    assert AllReceived(prefix, owner, toolCallId, bound.fact.bindings);
  }

  // ---------------------------------------------------------------------------
  // Every run
  // ---------------------------------------------------------------------------

  lemma ReserveKeepsInv(entries: Entries, owner: Owner, reservation: Fact, maxFanOut: nat)
    requires LedgerInv(entries) && reservation.Reserved?
    ensures LedgerInv(Transacted(entries, owner, DecideReserve(entries, owner, reservation, maxFanOut)))
  {
    var decision := DecideReserve(entries, owner, reservation, maxFanOut);
    if decision.Append? {
      SingleKeepsInv(entries, owner, reservation, decision.status);
    }
  }

  lemma AuthorizeKeepsInv(
    entries: Entries, owner: Owner, t: string, control: ControlKind, inputKey: string, targets: seq<string>)
    requires LedgerInv(entries)
    ensures LedgerInv(Transacted(entries, owner, DecideAuthorize(entries, owner, t, control, inputKey, targets)))
  {
    var decision := DecideAuthorize(entries, owner, t, control, inputKey, targets);
    if decision.Append? {
      SingleKeepsInv(entries, owner, decision.facts[0], decision.status);
    }
  }

  lemma HubWaitKeepsInv(
    entries: Entries, owner: Owner, t: string, inputKey: string, jobs: seq<string>, agents: seq<string>)
    requires LedgerInv(entries)
    ensures LedgerInv(Transacted(entries, owner, DecideHubWait(entries, owner, t, inputKey, jobs, agents)))
  {
    var decision := DecideHubWait(entries, owner, t, inputKey, jobs, agents);
    if decision.Append? {
      SingleKeepsInv(entries, owner, decision.facts[0], decision.status);
    }
  }

  lemma CancellationKeepsInv(
    entries: Entries, owner: Owner, t: string, inputKey: string, cancelled: seq<CancelResult>)
    requires LedgerInv(entries)
    ensures LedgerInv(Transacted(entries, owner, DecideCancellation(entries, owner, t, inputKey, cancelled)))
  {
    var decision := DecideCancellation(entries, owner, t, inputKey, cancelled);
    if decision.Append? {
      MatchedAuthorization(entries, owner, t, inputKey, JobCancel);
      ReceiptsKeepInv(entries, owner, t, decision.facts, decision.status);
    }
  }

  lemma IrcKeepsInv(entries: Entries, owner: Owner, t: string, inputKey: string, deliveries: seq<Delivery>)
    requires LedgerInv(entries)
    ensures LedgerInv(Transacted(entries, owner, DecideIrc(entries, owner, t, inputKey, deliveries)))
  {
    var decision := DecideIrc(entries, owner, t, inputKey, deliveries);
    if decision.Append? {
      MatchedAuthorization(entries, owner, t, inputKey, IrcSend);
      ReceiptsKeepInv(entries, owner, t, decision.facts, decision.status);
    }
  }

  lemma ReserveStep(entries: Entries, op: Op)
    requires LedgerInv(entries) && op.action.Reserve?
    ensures LedgerInv(Step(entries, op))
  {
    if op.action.reservation.Reserved? {
      ReserveKeepsInv(entries, op.owner, op.action.reservation, op.action.maxFanOut);
    }
  }

  lemma BindStep(entries: Entries, op: Op)
    requires LedgerInv(entries) && op.action.Bind?
    ensures LedgerInv(Step(entries, op))
  {
    BindKeepsInv(entries, op.owner, op.action.toolCallId, op.action.bindings, op.action.asyncAvailable);
  }

  lemma AuthorizeStep(entries: Entries, op: Op)
    requires LedgerInv(entries) && op.action.Authorize?
    ensures LedgerInv(Step(entries, op))
  {
    AuthorizeKeepsInv(entries, op.owner, op.action.toolCallId, op.action.control, op.action.inputKey, op.action.targets);
  }

  lemma HubWaitStep(entries: Entries, op: Op)
    requires LedgerInv(entries) && op.action.HubWait?
    ensures LedgerInv(Step(entries, op))
  {
    HubWaitKeepsInv(entries, op.owner, op.action.toolCallId, op.action.inputKey, op.action.jobTargets, op.action.agentTargets);
  }

  lemma SnapshotStep(entries: Entries, op: Op)
    requires LedgerInv(entries) && op.action.Snapshot?
    ensures LedgerInv(Step(entries, op))
  {
    SnapshotKeepsInv(entries, op.owner, op.action.toolCallId, op.action.inputKey, op.action.jobs);
  }

  lemma CancellationStep(entries: Entries, op: Op)
    requires LedgerInv(entries) && op.action.Cancellation?
    ensures LedgerInv(Step(entries, op))
  {
    CancellationKeepsInv(entries, op.owner, op.action.toolCallId, op.action.inputKey, op.action.cancelled);
  }

  lemma IrcStep(entries: Entries, op: Op)
    requires LedgerInv(entries) && op.action.Irc?
    ensures LedgerInv(Step(entries, op))
  {
    IrcKeepsInv(entries, op.owner, op.action.toolCallId, op.action.inputKey, op.action.deliveries);
  }

  lemma StepKeepsInv(entries: Entries, op: Op)
    requires LedgerInv(entries)
    ensures LedgerInv(Step(entries, op))
  {
    match op.action
    case Reserve(_, _) => ReserveStep(entries, op);
    case Bind(_, _, _) => BindStep(entries, op);
    case Authorize(_, _, _, _) => AuthorizeStep(entries, op);
    case HubWait(_, _, _, _) => HubWaitStep(entries, op);
    case Snapshot(_, _, _) => SnapshotStep(entries, op);
    case Cancellation(_, _, _) => CancellationStep(entries, op);
    case Irc(_, _, _) => IrcStep(entries, op);
  }

  /** Over any sequence of actions by any owners: sequences run 1..n, keys are unique per owner epoch,
      every authorization aimed only at what its owner held in the generation of that moment, and
      every receipt and proof was appended under an authorization of the generation of that moment. */
  lemma {:induction false} EveryRunKeepsInv(ops: seq<Op>)
    ensures LedgerInv(Run(ops))
  {
    if ops != [] {
      EveryRunKeepsInv(ops[..|ops| - 1]);
      StepKeepsInv(Run(ops[..|ops| - 1]), ops[|ops| - 1]);
    }
  }

  /** Every receipt was appended while an authorization of its own call, made in the generation still
      current, stood in the ledger, and everything that authorization aimed at was owned. */
  lemma EveryReceiptAuthorized(ops: seq<Op>, i: nat)
    requires i < |Run(ops)| && Run(ops)[i].fact.ReceiptObserved?
    ensures exists j: nat | j < i ::
              var entries, receipt, a := Run(ops), Run(ops)[i], Run(ops)[j];
              && a.owner == receipt.owner && a.fact.Authorized? && a.fact.toolCallId == receipt.fact.toolCallId
              && a.fact.taskGeneration == Generation(entries[..j], a.owner) == Generation(entries[..i], a.owner)
              && forall t | t in a.fact.targets :: t in Owned(entries[..j], a.owner, a.fact.control)
  {
    EveryRunKeepsInv(ops);
    var entries, receipt := Run(ops), Run(ops)[i];
    assert Justified(entries[..i], entries[i]);
    var a :| a in entries[..i] && a.owner == receipt.owner && a.fact.Authorized?
             && a.fact.toolCallId == receipt.fact.toolCallId
             && a.fact.taskGeneration == Generation(entries[..i], receipt.owner);
    var j :| 0 <= j < i && entries[..i][j] == a;
    assert Justified(entries[..j], entries[j]);
    assert Run(ops)[j] == a;
  }

  /** A transaction only appends, and what it appends it appends whole. */
  lemma StepAppendsAllOrNothing(entries: Entries, op: Op)
    ensures entries <= Step(entries, op)
    ensures Step(entries, op) != entries ==>
              var decision := Decide(entries, op.owner, op.action);
              decision.Append? &&
              forall f | f in decision.facts ::
                exists e | e in Step(entries, op) :: e.owner == op.owner && e.fact == f
  {
    var decision := Decide(entries, op.owner, op.action);
    if Step(entries, op) != entries {
      var novel := Novel(entries, op.owner, decision.facts).value;
      NovelFacts(entries, op.owner, decision.facts);
      MembersPersist(entries, op.owner, novel);
      forall f | f in decision.facts
        ensures exists e | e in Step(entries, op) :: e.owner == op.owner && e.fact == f
      {
        if f !in novel {
          FoundFact(entries, op.owner, KeyOf(f));
        }
      }
    }
  }

  /** Proven means real: every agent bound at the current generation has a job receipt, and every
      runtime identity has a job. */
  lemma ProvenCapabilityIsReal(ops: seq<Op>, owner: Owner)
    requires RuntimeCapability(Run(ops), owner).Observed? && RuntimeCapability(Run(ops), owner).proven
    ensures var entries, generation := Run(ops), Generation(Run(ops), owner);
            && (exists e | e in entries ::
                  && e.owner == owner && e.sequence == generation && e.fact.IdentitiesBound?
                  && |RuntimeIdentities(entries, owner, generation)| == |e.fact.bindings|
                  && forall b | b in e.fact.bindings :: JobReturned(entries, owner, generation, b.agentId))
            && (forall id | id in RuntimeIdentities(entries, owner, generation) :: id.jobId.Some?)
  {
    var entries, generation := Run(ops), Generation(Run(ops), owner);
    EveryRunKeepsInv(ops);
    var latest := LastWhere(entries, (e: Entry) =>
                              e.owner == owner && e.fact.CapabilityObserved? && e.fact.taskGeneration == Generation(entries, owner)).value;
    var i :| 0 <= i < |entries| && entries[i] == latest;
    assert Justified(entries[..i], entries[i]);
    BackedIsReal(entries, owner, generation, latest.fact.toolCallId, i);
  }

  lemma BackedIsReal(entries: Entries, owner: Owner, generation: nat, toolCallId: string, i: nat)
    requires LedgerInv(entries) && i <= |entries| && ProvenBacked(entries[..i], owner, toolCallId, generation)
    ensures exists e | e in entries ::
              && e.owner == owner && e.sequence == generation && e.fact.IdentitiesBound?
              && |RuntimeIdentities(entries, owner, generation)| == |e.fact.bindings|
              && forall b | b in e.fact.bindings :: JobReturned(entries, owner, generation, b.agentId)
    ensures forall id | id in RuntimeIdentities(entries, owner, generation) :: id.jobId.Some?
  {
    var e := BackedReceipts(entries, owner, generation, toolCallId, i);
    BoundIdentities(entries, e);
    var ids := RuntimeIdentities(entries, owner, generation);
    forall id | id in ids ensures id.jobId.Some? {
      var k :| 0 <= k < |ids| && ids[k] == id;
      assert IdentityOf(entries, owner, generation, ids[k], e.fact.bindings[k]);
      assert e.fact.bindings[k] in e.fact.bindings;
    }
  }

  lemma BackedReceipts(entries: Entries, owner: Owner, generation: nat, toolCallId: string, i: nat) returns (e: Entry)
    requires LedgerOrdered(entries) && i <= |entries| && ProvenBacked(entries[..i], owner, toolCallId, generation)
    ensures e in entries && e.owner == owner && e.sequence == generation && e.fact.IdentitiesBound?
    ensures forall b | b in e.fact.bindings :: JobReturned(entries, owner, generation, b.agentId)
  {
    var prefix := entries[..i];
    e :| e in prefix && e.owner == owner && e.sequence == generation && e.fact.IdentitiesBound?
         && AllReceived(prefix, owner, toolCallId, e.fact.bindings);
    var a :| a in prefix && a.owner == owner && a.fact.Authorized? && a.fact.toolCallId == toolCallId
             && a.fact.taskGeneration == generation;
    FindFactUnique(entries, a);
    forall b | b in e.fact.bindings ensures JobReturned(entries, owner, generation, b.agentId) {
      assert HasJobReceipt(prefix, owner, toolCallId, b.agentId);
    }
  }

  // ---------------------------------------------------------------------------
  // Fan-out
  // ---------------------------------------------------------------------------

  lemma {:induction false} ReservedExtend(entries: Entries, owner: Owner, facts: seq<Fact>, who: Owner)
    requires forall f | f in facts :: !f.Reserved?
    ensures ReservedItems(Extend(entries, owner, facts), who) == ReservedItems(entries, who)
  {
    var r := Extend(entries, owner, facts);
    if facts == [] {
      assert r == entries;
    } else {
      var before := facts[..|facts| - 1];
      ExtendPrefix(entries, owner, facts, |facts| - 1);
      assert r[..|r| - 1] == Extend(entries, owner, before);
      assert facts[|facts| - 1] in facts;
      ReservedExtend(entries, owner, before, who);
    }
  }

  /** No decision but a reservation's appends a reservation. */
  lemma OnlyReserveReserves(entries: Entries, owner: Owner, action: Action)
    requires !action.Reserve? && Decide(entries, owner, action).Append?
    ensures forall f | f in Decide(entries, owner, action).facts :: !f.Reserved?
  {
    match action
    case Bind(_, _, _) =>
    case Authorize(_, _, _, _) =>
    case HubWait(_, _, _, _) =>
    case Snapshot(t, inputKey, jobs) => SnapshotReservesNothing(entries, owner, t, inputKey, jobs);
    case Cancellation(_, _, _) =>
    case Irc(_, _, _) =>
  }

  lemma SnapshotReservesNothing(entries: Entries, owner: Owner, t: string, inputKey: string, jobs: seq<Job>)
    requires DecideSnapshot(entries, owner, t, inputKey, jobs).Append?
    ensures forall f | f in DecideSnapshot(entries, owner, t, inputKey, jobs).facts :: !f.Reserved?
  {
  }

  lemma ReserveAdds(entries: Entries, owner: Owner, reservation: Fact, maxFanOut: nat, who: Owner)
    requires reservation.Reserved? && DecideReserve(entries, owner, reservation, maxFanOut).Append?
    ensures var r := Transacted(entries, owner, DecideReserve(entries, owner, reservation, maxFanOut));
            ReservedItems(r, who) == ReservedItems(entries, who) || ReservedItems(r, who) <= maxFanOut
  {
    var facts := [reservation];
    assert facts[..0] == [];
    assert Novel(entries, owner, facts) == Some([] + [reservation]);
    var r := Extend(entries, owner, facts);
    assert r[..|r| - 1] == entries && r[|r| - 1] == Entry(|entries| + 1, owner, reservation);
  }

  /** Only a reservation that fits under its limit adds to the reserved items. */
  lemma StepReserves(entries: Entries, op: Op, who: Owner)
    ensures || ReservedItems(Step(entries, op), who) == ReservedItems(entries, who)
            || (op.action.Reserve? && ReservedItems(Step(entries, op), who) <= op.action.maxFanOut)
  {
    var decision := Decide(entries, op.owner, op.action);
    if op.action.Reserve? {
      if decision.Append? {
        ReserveAdds(entries, op.owner, op.action.reservation, op.action.maxFanOut, who);
      }
    } else {
      TransactedReserves(entries, op, decision, who);
    }
  }

  lemma TransactedReserves(entries: Entries, op: Op, decision: Decision, who: Owner)
    requires !op.action.Reserve? && decision == Decide(entries, op.owner, op.action)
    ensures ReservedItems(Transacted(entries, op.owner, decision), who) == ReservedItems(entries, who)
  {
    if decision.Append? && Novel(entries, op.owner, decision.facts).Some? {
      OnlyReserveReserves(entries, op.owner, op.action);
      NovelFacts(entries, op.owner, decision.facts);
      ReservedExtend(entries, op.owner, Novel(entries, op.owner, decision.facts).value, who);
    }
  }

  /** With every reservation made under a limit of at most `limit`, no owner epoch ever holds more. */
  lemma {:induction false} FanOutBounded(ops: seq<Op>, limit: nat, who: Owner)
    requires forall op | op in ops && op.action.Reserve? :: op.action.maxFanOut <= limit
    ensures ReservedItems(Run(ops), who) <= limit
  {
    if ops != [] {
      assert ops[|ops| - 1] in ops;
      FanOutBounded(ops[..|ops| - 1], limit, who);
      StepReserves(Run(ops[..|ops| - 1]), ops[|ops| - 1], who);
    }
  }
}
