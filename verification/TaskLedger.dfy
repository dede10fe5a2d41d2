/** The append-only task ledger of a run: reservations, identity bindings, authorizations, receipts and
    capability observations, scoped by owner epoch and by task generation. */
module TaskLedger {
  import opened Prelude
  import opened Domain

  const MAX_SAFE_INTEGER := 0x1f_ffff_ffff_ffff

  datatype WorkRequest = WorkRequest(itemIndex: nat, requestedName: Option<string>, agentType: Option<string>)

  datatype IdentityBinding = IdentityBinding(itemIndex: nat, agentId: string, jobId: Option<string>)

  datatype ControlKind = JobSnapshot | JobCancel | IrcSend | IrcTarget

  datatype JobStatus = JobRunning | JobCompleted | JobFailed | JobCancelled

  datatype IrcOutcome = Injected | Woken | Revived | IrcFailed

  datatype Receipt =
    | JobReceipt(jobId: string, status: JobStatus)
    | CancelReceipt(cancelledJobId: string)
    | IrcReceipt(agentId: string, outcome: IrcOutcome)

  datatype Fact =
    | Reserved(toolCallId: string, itemCount: nat, requests: seq<WorkRequest>)
    | IdentitiesBound(toolCallId: string, bindings: seq<IdentityBinding>)
    | Authorized(toolCallId: string, control: ControlKind, taskGeneration: nat, inputKey: string, targets: seq<string>)
    | ReceiptObserved(toolCallId: string, receipt: Receipt)
    | CapabilityObserved(toolCallId: string, taskGeneration: nat, proven: bool, reason: string)

  datatype FactKey =
    | ReservedKey(toolCallId: string) | BoundKey(toolCallId: string) | AuthorizedKey(toolCallId: string)
    | CapabilityKey(toolCallId: string)
    | JobKey(toolCallId: string, target: string) | CancelKey(toolCallId: string, target: string)
    | IrcKey(toolCallId: string, target: string)

  function KeyOf(fact: Fact): FactKey {
    match fact
    case Reserved(t, _, _) => ReservedKey(t)
    case IdentitiesBound(t, _) => BoundKey(t)
    case Authorized(t, _, _, _, _) => AuthorizedKey(t)
    case CapabilityObserved(t, _, _, _) => CapabilityKey(t)
    case ReceiptObserved(t, JobReceipt(id, _)) => JobKey(t, id)
    case ReceiptObserved(t, CancelReceipt(id)) => CancelKey(t, id)
    case ReceiptObserved(t, IrcReceipt(id, _)) => IrcKey(t, id)
  }

  /** What the fact schema demands. */
  predicate FactValid(fact: Fact) {
    match fact
    case Reserved(_, itemCount, requests) =>
      itemCount > 0 && itemCount == |requests| && forall i | 0 <= i < |requests| :: requests[i].itemIndex == i
    case IdentitiesBound(_, bindings) => bindings != []
    case Authorized(_, _, generation, _, _) => generation > 0
    case CapabilityObserved(_, generation, _, _) => generation > 0
    case ReceiptObserved(_, _) => true
  }

  datatype Entry = Entry(sequence: nat, owner: Owner, fact: Fact)

  type Entries = seq<Entry>

  /** Sequences run 1..n and no owner epoch holds two facts under one key. */
  predicate LedgerOrdered(entries: Entries) {
    && (forall i | 0 <= i < |entries| :: entries[i].sequence == i + 1)
    && forall i, j | 0 <= i < j < |entries| ::
         entries[i].owner != entries[j].owner || KeyOf(entries[i].fact) != KeyOf(entries[j].fact)
  }

  // ---------------------------------------------------------------------------
  // Views of the current owner
  // ---------------------------------------------------------------------------

  /** The sequence of the owner's newest reservation or binding; 0 when there is none. */
  function Generation(entries: Entries, owner: Owner): nat {
    if entries == [] then 0
    else
      var last := entries[|entries| - 1];
      if last.owner == owner && (last.fact.Reserved? || last.fact.IdentitiesBound?) then last.sequence
      else Generation(entries[..|entries| - 1], owner)
  }

  function FindFact(entries: Entries, owner: Owner, key: FactKey): Option<Fact> {
    match FirstWhere(entries, (e: Entry) => e.owner == owner && KeyOf(e.fact) == key)
    case None => None
    case Some(e) => Some(e.fact)
  }

  function ReservedItems(entries: Entries, owner: Owner): nat {
    if entries == [] then 0
    else
      var last := entries[|entries| - 1];
      ReservedItems(entries[..|entries| - 1], owner)
      + if last.owner == owner && last.fact.Reserved? then last.fact.itemCount else 0
  }

  datatype Identity = Identity(toolCallId: string, itemIndex: nat, agentId: string, jobId: Option<string>)

  /** Some job receipt under an authorization of this generation returned `agentId` as its job. */
  predicate JobReturned(entries: Entries, owner: Owner, generation: nat, agentId: string) {
    exists e | e in entries ::
      && e.owner == owner && e.fact.ReceiptObserved? && e.fact.receipt.JobReceipt? && e.fact.receipt.jobId == agentId
      && var a := FindFact(entries, owner, AuthorizedKey(e.fact.toolCallId));
      a.Some? && a.value.Authorized? && a.value.taskGeneration == generation
  }

  function IdentitiesOf(
    entries: Entries, owner: Owner, generation: nat, toolCallId: string, requests: seq<WorkRequest>,
    bindings: seq<IdentityBinding>): seq<Identity>
  {
    if bindings == [] then []
    else
      var b := bindings[|bindings| - 1];
      var before := IdentitiesOf(entries, owner, generation, toolCallId, requests, bindings[..|bindings| - 1]);
      if b.itemIndex >= |requests| then before
      else
        var jobId := if b.jobId.Some? then b.jobId
          else if JobReturned(entries, owner, generation, b.agentId) then Some(b.agentId) else None;
        before + [Identity(toolCallId, b.itemIndex, b.agentId, jobId)]
  }

  function BoundAt(entries: Entries, owner: Owner, generation: nat): Option<Fact> {
    match FirstWhere(entries, (e: Entry) => e.owner == owner && e.sequence == generation && e.fact.IdentitiesBound?)
    case None => None
    case Some(e) => Some(e.fact)
  }

  function RuntimeIdentities(entries: Entries, owner: Owner, generation: nat): seq<Identity> {
    match BoundAt(entries, owner, generation)
    case None => []
    case Some(bound) =>
      match FindFact(entries, owner, ReservedKey(bound.toolCallId))
      case None => []
      case Some(reservation) =>
        if !reservation.Reserved? || !bound.IdentitiesBound? then []
        else IdentitiesOf(entries, owner, generation, bound.toolCallId, reservation.requests, bound.bindings)
  }

  function OwnedAgents(identities: seq<Identity>): set<string> {
    set id | id in identities :: id.agentId
  }

  function OwnedJobs(identities: seq<Identity>): set<string> {
    set id | id in identities && id.jobId.Some? :: id.jobId.value
  }

  datatype Capability = Unknown | Observed(proven: bool, reason: string)

  function RuntimeCapability(entries: Entries, owner: Owner): Capability {
    match LastWhere(entries, (e: Entry) =>
                      e.owner == owner && e.fact.CapabilityObserved?
                      && e.fact.taskGeneration == Generation(entries, owner))
    case None => Unknown
    case Some(e) => if e.fact.CapabilityObserved? then Observed(e.fact.proven, e.fact.reason) else Unknown
  }

  // ---------------------------------------------------------------------------
  // Decisions
  // ---------------------------------------------------------------------------

  datatype LedgerStatus =
    | ReserveDone | ReserveReplayed | ReserveLimit | FactConflict
    | BindPending | BindBlocked | MissingReservation
    | ControlAuthorized | Unowned | UnownedJob | UnownedAgent | NoGeneration
    | Recorded | Uncorrelated | StaleGeneration | MappingIncomplete | ReceiptMissing

  datatype Decision = Return(status: LedgerStatus) | Append(facts: seq<Fact>, status: LedgerStatus)

  function DecideReserve(entries: Entries, owner: Owner, reservation: Fact, maxFanOut: nat): Decision
    requires reservation.Reserved?
  {
    match FindFact(entries, owner, ReservedKey(reservation.toolCallId))
    case Some(existing) => Return(if existing == reservation then ReserveReplayed else FactConflict)
    case None =>
      var total := ReservedItems(entries, owner) + reservation.itemCount;
      if total > MAX_SAFE_INTEGER || total > maxFanOut then Return(ReserveLimit)
      else Append([reservation], ReserveDone)
  }

  predicate BindingsFit(reservation: Fact, bindings: seq<IdentityBinding>)
    requires reservation.Reserved?
  {
    && |bindings| == reservation.itemCount
    && (forall i | 0 <= i < |bindings| :: bindings[i].itemIndex == i)
    && forall i, j | 0 <= i < j < |bindings| :: bindings[i].agentId != bindings[j].agentId
  }

  function DecideBind(
    entries: Entries, owner: Owner, toolCallId: string, bindings: seq<IdentityBinding>, asyncAvailable: bool): Decision
  {
    var done := if asyncAvailable then BindPending else BindBlocked;
    match FindFact(entries, owner, ReservedKey(toolCallId))
    case None => Return(MissingReservation)
    case Some(reservation) =>
      if !reservation.Reserved? || !BindingsFit(reservation, bindings) then Return(FactConflict)
      else
        var fact := IdentitiesBound(toolCallId, bindings);
        match FindFact(entries, owner, BoundKey(toolCallId))
        case Some(existing) => Return(if existing == fact then done else FactConflict)
        case None =>
          if asyncAvailable then Append([fact], done)
          else
            var blocked := CapabilityObserved(toolCallId, |entries| + 1, false, "async_unavailable_or_inline");
            Append([fact, blocked], done)
  }

  /** What an authorization may aim at: agents for messages, jobs for job control. */
  function Owned(entries: Entries, owner: Owner, control: ControlKind): set<string> {
    var identities := RuntimeIdentities(entries, owner, Generation(entries, owner));
    if control.IrcSend? || control.IrcTarget? then OwnedAgents(identities) else OwnedJobs(identities)
  }

  function DecideAuthorize(
    entries: Entries, owner: Owner, toolCallId: string, control: ControlKind, inputKey: string, targets: seq<string>): Decision
  {
    var generation := Generation(entries, owner);
    if generation == 0 then Return(NoGeneration)
    else if exists t | t in targets :: t !in Owned(entries, owner, control) then Return(Unowned)
    else Append([Authorized(toolCallId, control, generation, inputKey, targets)], ControlAuthorized)
  }

  function DecideHubWait(
    entries: Entries, owner: Owner, toolCallId: string, inputKey: string, jobTargets: seq<string>,
    agentTargets: seq<string>): Decision
  {
    var generation := Generation(entries, owner);
    if generation == 0 then Return(NoGeneration)
    else if exists t | t in jobTargets :: t !in Owned(entries, owner, JobSnapshot) then Return(UnownedJob)
    else if exists t | t in agentTargets :: t !in Owned(entries, owner, IrcSend) then Return(UnownedAgent)
    else Append([Authorized(toolCallId, JobSnapshot, generation, inputKey, jobTargets)], ControlAuthorized)
  }

  datatype Matched = Match(authorization: Fact) | NoMatch(status: LedgerStatus)

  function MatchingAuthorization(
    entries: Entries, owner: Owner, toolCallId: string, inputKey: string, control: ControlKind): Matched
  {
    match FindFact(entries, owner, AuthorizedKey(toolCallId))
    case None => NoMatch(Uncorrelated)
    case Some(a) =>
      if !a.Authorized? || a.control != control || a.inputKey != inputKey then NoMatch(Uncorrelated)
      else if a.taskGeneration != Generation(entries, owner) then NoMatch(StaleGeneration)
      else Match(a)
  }

  datatype Job = Job(id: string, isTask: bool, status: JobStatus)

  function TaskJobs(jobs: seq<Job>): seq<Job> {
    Filter(jobs, (j: Job) => j.isTask)
  }

  function JobIds(jobs: seq<Job>): set<string> {
    set j | j in jobs :: j.id
  }

  /** The snapshot names each expected agent exactly once and nothing else. */
  predicate SnapshotComplete(expected: set<string>, taskJobs: seq<Job>) {
    && expected != {} && |JobIds(taskJobs)| == |taskJobs|
    && |JobIds(taskJobs)| == |expected| && expected <= JobIds(taskJobs)
  }

  function JobReceipts(toolCallId: string, jobs: seq<Job>): seq<Fact> {
    Map(jobs, (j: Job) => ReceiptObserved(toolCallId, JobReceipt(j.id, j.status)))
  }

  function DecideSnapshot(
    entries: Entries, owner: Owner, toolCallId: string, inputKey: string, jobs: seq<Job>): Decision
  {
    match MatchingAuthorization(entries, owner, toolCallId, inputKey, JobSnapshot)
    case NoMatch(status) => Return(status)
    case Match(a) =>
      var generation := Generation(entries, owner);
      var expected := OwnedAgents(RuntimeIdentities(entries, owner, generation));
      if !SnapshotComplete(expected, TaskJobs(jobs)) then
        Append([CapabilityObserved(toolCallId, generation, false, "identity_mapping_incomplete")], MappingIncomplete)
      else
        Append(JobReceipts(toolCallId, TaskJobs(jobs))
               + [CapabilityObserved(toolCallId, generation, true, "matching_job_snapshot")], Recorded)
  }

  datatype CancelResult = CancelResult(id: string, done: bool)

  function DecideCancellation(
    entries: Entries, owner: Owner, toolCallId: string, inputKey: string, cancelled: seq<CancelResult>): Decision
  {
    match MatchingAuthorization(entries, owner, toolCallId, inputKey, JobCancel)
    case NoMatch(status) => Return(status)
    case Match(a) =>
      if !a.Authorized? || exists t | t in a.targets :: CancelResult(t, true) !in cancelled then Return(ReceiptMissing)
      else Append(Map(a.targets, (t: string) => ReceiptObserved(toolCallId, CancelReceipt(t))), Recorded)
  }

  datatype Delivery = Delivery(agentId: string, outcome: IrcOutcome)

  function DecideIrc(
    entries: Entries, owner: Owner, toolCallId: string, inputKey: string, deliveries: seq<Delivery>): Decision
  {
    match MatchingAuthorization(entries, owner, toolCallId, inputKey, IrcSend)
    case NoMatch(status) => Return(status)
    case Match(a) =>
      if !a.Authorized? then Return(ReceiptMissing)
      else
        var expected := set t | t in a.targets;
        if |deliveries| != |expected| || exists d | d in deliveries :: d.agentId !in expected then Return(ReceiptMissing)
        else
          Append(Map(deliveries, (d: Delivery) => ReceiptObserved(toolCallId, IrcReceipt(d.agentId, d.outcome))), Recorded)
  }

  // ---------------------------------------------------------------------------
  // Merging facts into the ledger
  // ---------------------------------------------------------------------------

  /** The facts not yet in the ledger, in order; None when a key is already taken by something else. */
  function Novel(entries: Entries, owner: Owner, facts: seq<Fact>): Option<seq<Fact>> {
    if facts == [] then Some([])
    else
      match Novel(entries, owner, facts[..|facts| - 1])
      case None => None
      case Some(novel) =>
        var fact := facts[|facts| - 1];
        match FindFact(entries, owner, KeyOf(fact))
        case Some(existing) => if existing == fact then Some(novel) else None
        case None =>
          if exists n | n in novel :: KeyOf(n) == KeyOf(fact) then None else Some(novel + [fact])
  }

  function Extend(entries: Entries, owner: Owner, facts: seq<Fact>): Entries {
    entries + seq(|facts|, i requires 0 <= i < |facts| => Entry(|entries| + i + 1, owner, facts[i]))
  }

  /** The ledger after a decision: unchanged, or extended by every novel fact at once. A conflict or a
      fact the schema refuses leaves it unchanged. */
  function Transacted(entries: Entries, owner: Owner, decision: Decision): Entries {
    match decision
    case Return(_) => entries
    case Append(facts, _) =>
      match Novel(entries, owner, facts)
      case None => entries
      case Some(novel) =>
        if exists n | n in novel :: !FactValid(n) then entries else Extend(entries, owner, novel)
  }

  datatype Action =
    | Reserve(reservation: Fact, maxFanOut: nat)
    | Bind(toolCallId: string, bindings: seq<IdentityBinding>, asyncAvailable: bool)
    | Authorize(toolCallId: string, control: ControlKind, inputKey: string, targets: seq<string>)
    | HubWait(toolCallId: string, inputKey: string, jobTargets: seq<string>, agentTargets: seq<string>)
    | Snapshot(toolCallId: string, inputKey: string, jobs: seq<Job>)
    | Cancellation(toolCallId: string, inputKey: string, cancelled: seq<CancelResult>)
    | Irc(toolCallId: string, inputKey: string, deliveries: seq<Delivery>)

  /** An action by whoever owns the run at that moment. */
  datatype Op = Op(owner: Owner, action: Action)

  function Decide(entries: Entries, owner: Owner, action: Action): Decision {
    match action
    case Reserve(reservation, maxFanOut) =>
      if reservation.Reserved? then DecideReserve(entries, owner, reservation, maxFanOut) else Return(FactConflict)
    case Bind(t, bindings, asyncAvailable) => DecideBind(entries, owner, t, bindings, asyncAvailable)
    case Authorize(t, control, inputKey, targets) => DecideAuthorize(entries, owner, t, control, inputKey, targets)
    case HubWait(t, inputKey, jobs, agents) => DecideHubWait(entries, owner, t, inputKey, jobs, agents)
    case Snapshot(t, inputKey, jobs) => DecideSnapshot(entries, owner, t, inputKey, jobs)
    case Cancellation(t, inputKey, cancelled) => DecideCancellation(entries, owner, t, inputKey, cancelled)
    case Irc(t, inputKey, deliveries) => DecideIrc(entries, owner, t, inputKey, deliveries)
  }

  function Step(entries: Entries, op: Op): Entries {
    Transacted(entries, op.owner, Decide(entries, op.owner, op.action))
  }

  datatype Transaction = Scope(status: LedgerStatus, changed: bool) | Conflict | SchemaError

  /** One run's ledger file; `owner` is the owner of the run the session resolves to. */
  class Sidecar {
    var entries: Entries
    var owner: Owner

    /** Opens what the file holds; a missing file holds no entries. */
    constructor (entries: Entries, owner: Owner)
      ensures this.entries == entries && this.owner == owner
    {
      this.entries, this.owner := entries, owner;
    }

    method Merge(facts: seq<Fact>) returns (novel: Option<seq<Fact>>)
      ensures novel == Novel(entries, owner, facts)
    {
      var found: seq<Fact> := [];
      for i := 0 to |facts|
        invariant Novel(entries, owner, facts[..i]) == Some(found)
      {
        assert facts[..i + 1][..i] == facts[..i];
        var existing := FindFact(entries, owner, KeyOf(facts[i]));
        if existing.Some? {
          if existing.value != facts[i] {
            NovelStops(entries, owner, facts, i + 1);
            return None;
          }
        } else {
          if exists n | n in found :: KeyOf(n) == KeyOf(facts[i]) {
            NovelStops(entries, owner, facts, i + 1);
            return None;
          }
          found := found + [facts[i]];
        }
      }
      assert facts[..|facts|] == facts;
      return Some(found);
    }

    method Transact(decision: Decision) returns (result: Transaction)
      modifies this
      ensures owner == old(owner)
      ensures entries == Transacted(old(entries), owner, decision)
      ensures result.Scope? ==> result.status == decision.status && result.changed == (entries != old(entries))
      ensures !result.Scope? ==> entries == old(entries)
    {
      if decision.Return? {
        return Scope(decision.status, false);
      }
      var novel := Merge(decision.facts);
      if novel.None? {
        return Conflict;
      }
      if novel.value == [] {
        assert Extend(entries, owner, []) == entries;
        return Scope(decision.status, false);
      }
      if exists n | n in novel.value :: !FactValid(n) {
        return SchemaError;
      }
      entries := Extend(entries, owner, novel.value);
      return Scope(decision.status, true);
    }

    /** One operation of the ledger: decided on what is there, then merged. */
    method Perform(action: Action) returns (result: Transaction)
      modifies this
      ensures owner == old(owner)
      ensures entries == Step(old(entries), Op(owner, action))
      ensures result.Scope? ==> result.status == Decide(old(entries), owner, action).status
      ensures !result.Scope? ==> entries == old(entries)
    {
      result := Transact(Decide(entries, owner, action));
    }

    /** Adoption moves the run to another session and the next epoch. */
    method Adopt(sessionId: string)
      modifies this
      ensures entries == old(entries) && owner == Owner(sessionId, old(owner).epoch + 1)
    {
      owner := Owner(sessionId, owner.epoch + 1);
    }
  }

  lemma {:induction false} NovelStops(entries: Entries, owner: Owner, facts: seq<Fact>, i: nat)
    requires i <= |facts| && Novel(entries, owner, facts[..i]).None?
    ensures Novel(entries, owner, facts).None?
    decreases |facts|
  {
    if i < |facts| {
      assert facts[..|facts| - 1][..i] == facts[..i];
      NovelStops(entries, owner, facts[..|facts| - 1], i);
    } else {
      assert facts[..i] == facts;
    }
  }
}
