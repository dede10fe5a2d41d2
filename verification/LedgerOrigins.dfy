/** What each entry of the task ledger came from, and exactly when each operation records something. */
module LedgerOrigins {
  import opened Prelude
  import opened Domain
  import opened TaskLedger
  import opened TaskLedgerProofs

  // ---------------------------------------------------------------------------
  // Where facts come from
  // ---------------------------------------------------------------------------

  /** The action reported this fact. */
  ghost predicate CameFrom(action: Action, fact: Fact) {
    match fact
    case Reserved(_, _, _) => action.Reserve? && action.reservation == fact
    case IdentitiesBound(t, bindings) => action.Bind? && action.toolCallId == t && action.bindings == bindings
    case Authorized(t, control, _, inputKey, targets) =>
      || action == Authorize(t, control, inputKey, targets)
      || (action.HubWait? && control.JobSnapshot? && action.toolCallId == t && action.inputKey == inputKey
          && action.jobTargets == targets)
    case ReceiptObserved(t, JobReceipt(id, status)) =>
      action.Snapshot? && action.toolCallId == t && Job(id, true, status) in action.jobs
    case ReceiptObserved(t, CancelReceipt(id)) =>
      action.Cancellation? && action.toolCallId == t && CancelResult(id, true) in action.cancelled
    case ReceiptObserved(t, IrcReceipt(agentId, outcome)) =>
      action.Irc? && action.toolCallId == t && Delivery(agentId, outcome) in action.deliveries
    case CapabilityObserved(t, _, proven, reason) =>
      || (action.Snapshot? && action.toolCallId == t
          && reason == if proven then "matching_job_snapshot" else "identity_mapping_incomplete")
      || (action.Bind? && action.toolCallId == t && !action.asyncAvailable && !proven
          && reason == "async_unavailable_or_inline")
  }

  /** The task jobs of a snapshot are its jobs that are tasks. */
  lemma TaskJobsAre(jobs: seq<Job>, j: Job)
    ensures j in TaskJobs(jobs) <==> j in jobs && j.isTask
  {
  }

  lemma SnapshotFacts(entries: Entries, owner: Owner, action: Action, fact: Fact)
    requires action.Snapshot? && Decide(entries, owner, action).Append? && fact in Decide(entries, owner, action).facts
    ensures CameFrom(action, fact)
  {
    var jobs, t := TaskJobs(action.jobs), action.toolCallId;
    if fact in JobReceipts(t, jobs) {
      var i :| 0 <= i < |jobs| && JobReceipts(t, jobs)[i] == fact;
      TaskJobsAre(action.jobs, jobs[i]);
      assert jobs[i] in jobs;
      assert jobs[i] == Job(jobs[i].id, true, jobs[i].status);
    }
  }

  lemma CancellationFacts(entries: Entries, owner: Owner, action: Action, fact: Fact)
    requires action.Cancellation? && Decide(entries, owner, action).Append? && fact in Decide(entries, owner, action).facts
    ensures CameFrom(action, fact)
  {
    var facts := Decide(entries, owner, action).facts;
    var i :| 0 <= i < |facts| && facts[i] == fact;
    var a := MatchingAuthorization(entries, owner, action.toolCallId, action.inputKey, JobCancel).authorization;
    assert fact == ReceiptObserved(action.toolCallId, CancelReceipt(a.targets[i]));
  }

  lemma IrcFacts(entries: Entries, owner: Owner, action: Action, fact: Fact)
    requires action.Irc? && Decide(entries, owner, action).Append? && fact in Decide(entries, owner, action).facts
    ensures CameFrom(action, fact)
  {
    var facts := Decide(entries, owner, action).facts;
    var i :| 0 <= i < |facts| && facts[i] == fact;
    assert action.deliveries[i] == Delivery(action.deliveries[i].agentId, action.deliveries[i].outcome);
  }

  lemma DecisionFacts(entries: Entries, owner: Owner, action: Action, fact: Fact)
    requires Decide(entries, owner, action).Append? && fact in Decide(entries, owner, action).facts
    ensures CameFrom(action, fact)
  {
    match action
    case Snapshot(_, _, _) => SnapshotFacts(entries, owner, action, fact);
    case Cancellation(_, _, _) => CancellationFacts(entries, owner, action, fact);
    case Irc(_, _, _) => IrcFacts(entries, owner, action, fact);
    case _ =>
  }

  /** Over any sequence of actions by any owners, every entry came from an action of its owner that reported
      just that: a cancelled job was reported done, a delivery has the outcome reported, a job receipt is a
      task job of the snapshot with its status, an authorization is as asked for. */
  lemma {:induction false} EveryFactWasReported(ops: seq<Op>, i: nat)
    requires i < |TaskLedgerProofs.Run(ops)|
    ensures exists op :: op in ops && op.owner == TaskLedgerProofs.Run(ops)[i].owner && CameFrom(op.action, TaskLedgerProofs.Run(ops)[i].fact)
  {
    var before, last := ops[..|ops| - 1], ops[|ops| - 1];
    var prior := TaskLedgerProofs.Run(before);
    StepAppendsAllOrNothing(prior, last);
    if i < |prior| {
      EveryFactWasReported(before, i);
      var op :| op in before && op.owner == prior[i].owner && CameFrom(op.action, prior[i].fact);
      assert op in ops && TaskLedgerProofs.Run(ops)[i] == prior[i];
    } else {
      var decision := Decide(prior, last.owner, last.action);
      var novel := Novel(prior, last.owner, decision.facts).value;
      NovelFacts(prior, last.owner, decision.facts);
      assert TaskLedgerProofs.Run(ops)[i] == Entry(i + 1, last.owner, novel[i - |prior|]);
      assert novel[i - |prior|] in novel;
      DecisionFacts(prior, last.owner, last.action, novel[i - |prior|]);
      assert last in ops;
    }
  }

  // ---------------------------------------------------------------------------
  // Authorizations
  // ---------------------------------------------------------------------------

  /** The ledger holds an authorization of this call, for this control and input. */
  ghost predicate AuthorizedAt(entries: Entries, owner: Owner, toolCallId: string, control: ControlKind, inputKey: string,
                               generation: nat, targets: seq<string>) {
    exists e :: e in entries && e.owner == owner && e.fact == Authorized(toolCallId, control, generation, inputKey, targets)
  }

  lemma AuthorizationFound(entries: Entries, owner: Owner, toolCallId: string, control: ControlKind, inputKey: string,
                           generation: nat, targets: seq<string>)
    requires LedgerOrdered(entries)
    ensures AuthorizedAt(entries, owner, toolCallId, control, inputKey, generation, targets) <==>
            FindFact(entries, owner, AuthorizedKey(toolCallId)) == Some(Authorized(toolCallId, control, generation, inputKey, targets))
  {
    FoundFact(entries, owner, AuthorizedKey(toolCallId));
    if AuthorizedAt(entries, owner, toolCallId, control, inputKey, generation, targets) {
      var e :| e in entries && e.owner == owner && e.fact == Authorized(toolCallId, control, generation, inputKey, targets);
      FindFactUnique(entries, e);
    }
  }

  /** A result matches exactly the authorization of its call, control and input in the current generation. */
  lemma MatchIff(entries: Entries, owner: Owner, toolCallId: string, inputKey: string, control: ControlKind, targets: seq<string>)
    requires LedgerOrdered(entries)
    ensures MatchingAuthorization(entries, owner, toolCallId, inputKey, control)
              == Match(Authorized(toolCallId, control, Generation(entries, owner), inputKey, targets)) <==>
            AuthorizedAt(entries, owner, toolCallId, control, inputKey, Generation(entries, owner), targets)
  {
    AuthorizationFound(entries, owner, toolCallId, control, inputKey, Generation(entries, owner), targets);
    FoundFact(entries, owner, AuthorizedKey(toolCallId));
  }

  /** Otherwise the generation is stale if there is such an authorization of another one, and the result is
      uncorrelated if there is none. */
  lemma MismatchIff(entries: Entries, owner: Owner, toolCallId: string, inputKey: string, control: ControlKind)
    requires LedgerOrdered(entries)
    ensures var m := MatchingAuthorization(entries, owner, toolCallId, inputKey, control);
            && (m.NoMatch? ==> m.status.StaleGeneration? || m.status.Uncorrelated?)
            && (m == NoMatch(StaleGeneration) <==>
                  exists g, targets :: g != Generation(entries, owner)
                                       && AuthorizedAt(entries, owner, toolCallId, control, inputKey, g, targets))
            && (m.Match? ==> m.authorization.Authorized?
                             && m.authorization == Authorized(toolCallId, control, Generation(entries, owner), inputKey, m.authorization.targets))
  {
    FoundFact(entries, owner, AuthorizedKey(toolCallId));
    var found := FindFact(entries, owner, AuthorizedKey(toolCallId));
    if found.Some? && found.value.Authorized? {
      var a := found.value;
      AuthorizationFound(entries, owner, toolCallId, a.control, a.inputKey, a.taskGeneration, a.targets);
    }
    forall g, targets | AuthorizedAt(entries, owner, toolCallId, control, inputKey, g, targets)
      ensures found == Some(Authorized(toolCallId, control, g, inputKey, targets))
    {
      AuthorizationFound(entries, owner, toolCallId, control, inputKey, g, targets);
    }
  }

  // ---------------------------------------------------------------------------
  // When a result is recorded
  // ---------------------------------------------------------------------------

  /** A cancellation is recorded exactly when its current authorization's targets were all reported done, and
      then as one receipt per target. */
  lemma CancellationIff(entries: Entries, owner: Owner, toolCallId: string, inputKey: string, cancelled: seq<CancelResult>)
    requires LedgerOrdered(entries)
    ensures var decision := DecideCancellation(entries, owner, toolCallId, inputKey, cancelled);
            && (decision.status.Recorded? <==>
                  exists targets ::
                    && AuthorizedAt(entries, owner, toolCallId, JobCancel, inputKey, Generation(entries, owner), targets)
                    && forall t | t in targets :: CancelResult(t, true) in cancelled)
            && (decision.status.Recorded? <==> decision.Append?)
  {
    MismatchIff(entries, owner, toolCallId, inputKey, JobCancel);
    var m := MatchingAuthorization(entries, owner, toolCallId, inputKey, JobCancel);
    if m.Match? {
      MatchIff(entries, owner, toolCallId, inputKey, JobCancel, m.authorization.targets);
    }
    forall targets | AuthorizedAt(entries, owner, toolCallId, JobCancel, inputKey, Generation(entries, owner), targets)
      ensures m == Match(Authorized(toolCallId, JobCancel, Generation(entries, owner), inputKey, targets))
    {
      MatchIff(entries, owner, toolCallId, inputKey, JobCancel, targets);
    }
  }

  lemma CancellationReceipts(entries: Entries, owner: Owner, toolCallId: string, inputKey: string,
                             cancelled: seq<CancelResult>, targets: seq<string>)
    requires LedgerOrdered(entries) && DecideCancellation(entries, owner, toolCallId, inputKey, cancelled).Append?
    requires AuthorizedAt(entries, owner, toolCallId, JobCancel, inputKey, Generation(entries, owner), targets)
    ensures var facts := DecideCancellation(entries, owner, toolCallId, inputKey, cancelled).facts;
            |facts| == |targets| && forall i | 0 <= i < |targets| :: facts[i] == ReceiptObserved(toolCallId, CancelReceipt(targets[i]))
  {
    MatchIff(entries, owner, toolCallId, inputKey, JobCancel, targets);
  }

  /** Deliveries are recorded exactly when there are as many as the current authorization has distinct
      targets and each went to one of them, and then as reported. */
  lemma IrcIff(entries: Entries, owner: Owner, toolCallId: string, inputKey: string, deliveries: seq<Delivery>)
    requires LedgerOrdered(entries)
    ensures var decision := DecideIrc(entries, owner, toolCallId, inputKey, deliveries);
            && (decision.status.Recorded? <==>
                  exists targets ::
                    && AuthorizedAt(entries, owner, toolCallId, IrcSend, inputKey, Generation(entries, owner), targets)
                    && |deliveries| == |set t | t in targets| && forall d | d in deliveries :: d.agentId in targets)
            && (decision.Append? <==> decision.status.Recorded?)
            && (decision.Append? ==>
                  |decision.facts| == |deliveries| &&
                  forall i | 0 <= i < |deliveries| ::
                    decision.facts[i] == ReceiptObserved(toolCallId, IrcReceipt(deliveries[i].agentId, deliveries[i].outcome)))
  {
    MismatchIff(entries, owner, toolCallId, inputKey, IrcSend);
    var m := MatchingAuthorization(entries, owner, toolCallId, inputKey, IrcSend);
    if m.Match? {
      MatchIff(entries, owner, toolCallId, inputKey, IrcSend, m.authorization.targets);
    }
    forall targets | AuthorizedAt(entries, owner, toolCallId, IrcSend, inputKey, Generation(entries, owner), targets)
      ensures m == Match(Authorized(toolCallId, IrcSend, Generation(entries, owner), inputKey, targets))
    {
      MatchIff(entries, owner, toolCallId, inputKey, IrcSend, targets);
    }
  }

  /** The task jobs of a snapshot name each expected agent exactly once and nothing else. */
  ghost predicate NamesExactly(expected: set<string>, jobs: seq<Job>) {
    && expected != {} && IdsDiffer(jobs)
    && forall id :: id in expected <==> exists j :: j in jobs && j.id == id
  }

  ghost predicate IdsDiffer(jobs: seq<Job>) { forall i, j | 0 <= i < j < |jobs| :: jobs[i].id != jobs[j].id }

  lemma {:induction false} JobIdCount(jobs: seq<Job>)
    ensures |JobIds(jobs)| <= |jobs|
    ensures |JobIds(jobs)| == |jobs| <==> IdsDiffer(jobs)
  {
    if jobs != [] {
      JobIdCount(jobs[..|jobs| - 1]);
      JobIdStep(jobs);
    }
  }

  lemma JobIdStep(jobs: seq<Job>)
    requires jobs != []
    ensures var before, last := jobs[..|jobs| - 1], jobs[|jobs| - 1];
            && JobIds(jobs) == JobIds(before) + {last.id}
            && (IdsDiffer(jobs) <==> IdsDiffer(before) && last.id !in JobIds(before))
  {
    var before, last := jobs[..|jobs| - 1], jobs[|jobs| - 1];
    assert jobs == before + [last];
    if last.id in JobIds(before) {
      var k :| 0 <= k < |before| && before[k].id == last.id;
      assert jobs[k].id == jobs[|jobs| - 1].id;
    }
    if IdsDiffer(before) && last.id !in JobIds(before) {
      assert forall i | 0 <= i < |before| :: before[i] in before;
    }
  }

  lemma SubsetOfSameSize(a: set<string>, b: set<string>)
    requires a <= b && |a| == |b|
    ensures a == b
  {
    if x :| x in b && x !in a {
      assert |b - {x}| == |b| - 1;
      Smaller(a, b - {x});
    }
  }

  lemma {:induction false} Smaller(a: set<string>, b: set<string>)
    requires a <= b
    ensures |a| <= |b|
  {
    if x :| x in a {
      Smaller(a - {x}, b - {x});
    }
  }

  lemma CompleteIff(expected: set<string>, jobs: seq<Job>)
    ensures SnapshotComplete(expected, jobs) <==> NamesExactly(expected, jobs)
  {
    JobIdCount(jobs);
    if SnapshotComplete(expected, jobs) {
      SubsetOfSameSize(expected, JobIds(jobs));
    }
    if NamesExactly(expected, jobs) {
      assert expected == JobIds(jobs);
    }
  }

  /** A job snapshot is recorded exactly when it is authorized in the current generation and its task jobs are
      the agents of that generation; if it is authorized and they are not, that is what is observed. */
  lemma SnapshotIff(entries: Entries, owner: Owner, toolCallId: string, inputKey: string, jobs: seq<Job>)
    requires LedgerOrdered(entries)
    ensures var decision := DecideSnapshot(entries, owner, toolCallId, inputKey, jobs);
            var generation := Generation(entries, owner);
            var authorized := exists targets :: AuthorizedAt(entries, owner, toolCallId, JobSnapshot, inputKey, generation, targets);
            var complete := NamesExactly(OwnedAgents(RuntimeIdentities(entries, owner, generation)), TaskJobs(jobs));
            && (decision.status.Recorded? <==> authorized && complete)
            && (decision.status.MappingIncomplete? <==> authorized && !complete)
            && (decision.Append? <==> authorized)
            && (decision.Append? ==>
                  decision.facts == (if complete then JobReceipts(toolCallId, TaskJobs(jobs)) else [])
                                    + [CapabilityObserved(toolCallId, generation, complete,
                                                          if complete then "matching_job_snapshot" else "identity_mapping_incomplete")])
  {
    MismatchIff(entries, owner, toolCallId, inputKey, JobSnapshot);
    CompleteIff(OwnedAgents(RuntimeIdentities(entries, owner, Generation(entries, owner))), TaskJobs(jobs));
    var m := MatchingAuthorization(entries, owner, toolCallId, inputKey, JobSnapshot);
    if m.Match? {
      MatchIff(entries, owner, toolCallId, inputKey, JobSnapshot, m.authorization.targets);
    }
    forall targets | AuthorizedAt(entries, owner, toolCallId, JobSnapshot, inputKey, Generation(entries, owner), targets)
      ensures m.Match?
    {
      MatchIff(entries, owner, toolCallId, inputKey, JobSnapshot, targets);
    }
  }

  // ---------------------------------------------------------------------------
  // Generations, identities and what is owned
  // ---------------------------------------------------------------------------

  ghost predicate StartsGeneration(e: Entry, owner: Owner) {
    e.owner == owner && (e.fact.Reserved? || e.fact.IdentitiesBound?)
  }

  /** The generation is the number of the owner's newest reservation or binding, or zero without one. */
  lemma {:induction false} GenerationIff(entries: Entries, owner: Owner)
    requires forall i | 0 <= i < |entries| :: entries[i].sequence == i + 1
    ensures var g := Generation(entries, owner);
            && g <= |entries| && (g > 0 ==> StartsGeneration(entries[g - 1], owner))
            && forall i | g <= i < |entries| :: !StartsGeneration(entries[i], owner)
  {
    if entries != [] {
      var before := entries[..|entries| - 1];
      GenerationIff(before, owner);
      assert forall i | 0 <= i < |before| :: before[i] == entries[i];
    }
  }

  /** A job receipt for the agent under an authorization of the generation. */
  ghost predicate JobSeen(entries: Entries, owner: Owner, generation: nat, agentId: string) {
    exists r, a :: r in entries && a in entries && r.owner == owner && a.owner == owner
                   && r.fact.ReceiptObserved? && r.fact.receipt.JobReceipt? && r.fact.receipt.jobId == agentId
                   && a.fact.Authorized? && a.fact.toolCallId == r.fact.toolCallId && a.fact.taskGeneration == generation
  }

  lemma JobReturnedIff(entries: Entries, owner: Owner, generation: nat, agentId: string)
    requires LedgerOrdered(entries)
    ensures JobReturned(entries, owner, generation, agentId) <==> JobSeen(entries, owner, generation, agentId)
  {
    if JobReturned(entries, owner, generation, agentId) {
      ReturnedIsSeen(entries, owner, generation, agentId);
    }
    if JobSeen(entries, owner, generation, agentId) {
      SeenIsReturned(entries, owner, generation, agentId);
    }
  }

  lemma ReturnedIsSeen(entries: Entries, owner: Owner, generation: nat, agentId: string)
    requires JobReturned(entries, owner, generation, agentId)
    ensures JobSeen(entries, owner, generation, agentId)
  {
    var r :| r in entries && r.owner == owner && r.fact.ReceiptObserved? && r.fact.receipt.JobReceipt?
             && r.fact.receipt.jobId == agentId
             && var a := FindFact(entries, owner, AuthorizedKey(r.fact.toolCallId));
             a.Some? && a.value.Authorized? && a.value.taskGeneration == generation;
    FoundFact(entries, owner, AuthorizedKey(r.fact.toolCallId));
    var fact := FindFact(entries, owner, AuthorizedKey(r.fact.toolCallId)).value;
    var a :| a in entries && a.owner == owner && a.fact == fact;
    assert a.fact.toolCallId == r.fact.toolCallId;
  }

  lemma SeenIsReturned(entries: Entries, owner: Owner, generation: nat, agentId: string)
    requires LedgerOrdered(entries) && JobSeen(entries, owner, generation, agentId)
    ensures JobReturned(entries, owner, generation, agentId)
  {
    var r, a :| r in entries && a in entries && r.owner == owner && a.owner == owner
                && r.fact.ReceiptObserved? && r.fact.receipt.JobReceipt? && r.fact.receipt.jobId == agentId
                && a.fact.Authorized? && a.fact.toolCallId == r.fact.toolCallId && a.fact.taskGeneration == generation;
    FindFactUnique(entries, a);
  }

  /** What the owner may aim at under a binding: an agent by its name; a job by the name the binding gives it
      or, without one, by the agent's name once a job receipt has shown it. */
  ghost predicate Reaches(entries: Entries, e: Entry, control: ControlKind, target: string)
    requires e.fact.IdentitiesBound?
  {
    exists b :: b in e.fact.bindings && ReachedBy(entries, e, control, target, b)
  }

  ghost predicate ReachedBy(entries: Entries, e: Entry, control: ControlKind, target: string, b: IdentityBinding) {
    if control in {IrcSend, IrcTarget} then b.agentId == target
    else if b.jobId.Some? then b.jobId.value == target
    else b.agentId == target && JobSeen(entries, e.owner, e.sequence, b.agentId)
  }

  /** Something is owned exactly when the current generation is a binding that reaches it. */
  lemma OwnedIff(entries: Entries, owner: Owner, control: ControlKind, target: string)
    requires LedgerInv(entries)
    ensures target in Owned(entries, owner, control) <==> ReachesNow(entries, owner, control, target)
  {
    var generation := Generation(entries, owner);
    if target in Owned(entries, owner, control) {
      assert RuntimeIdentities(entries, owner, generation) != [];
      UnboundIdentities(entries, owner, generation);
      var e :| e in entries && e.owner == owner && e.sequence == generation && e.fact.IdentitiesBound?;
      OwnedUnder(entries, e, control, target);
    }
    if e :| e in entries && e.owner == owner && e.sequence == generation && e.fact.IdentitiesBound?
            && Reaches(entries, e, control, target) {
      OwnedUnder(entries, e, control, target);
    }
  }

  /** The identity of a binding. */
  lemma IdentityReaches(entries: Entries, e: Entry, k: nat)
    requires LedgerInv(entries) && e in entries && e.fact.IdentitiesBound? && k < |e.fact.bindings|
    ensures var ids, b := RuntimeIdentities(entries, e.owner, e.sequence), e.fact.bindings[k];
            && |ids| == |e.fact.bindings| && ids[k].agentId == b.agentId
            && forall t :: ids[k].jobId == Some(t) <==>
                 if b.jobId.Some? then b.jobId.value == t else b.agentId == t && JobSeen(entries, e.owner, e.sequence, b.agentId)
  {
    BoundIdentities(entries, e);
    assert IdentityOf(entries, e.owner, e.sequence, RuntimeIdentities(entries, e.owner, e.sequence)[k], e.fact.bindings[k]);
    JobReturnedIff(entries, e.owner, e.sequence, e.fact.bindings[k].agentId);
  }

  lemma OwnedByIdentity(entries: Entries, owner: Owner, control: ControlKind, target: string)
    ensures target in Owned(entries, owner, control) <==>
            exists id :: id in RuntimeIdentities(entries, owner, Generation(entries, owner))
                         && if control in {IrcSend, IrcTarget} then id.agentId == target else id.jobId == Some(target)
  {
  }

  lemma OwnedUnder(entries: Entries, e: Entry, control: ControlKind, target: string)
    requires LedgerInv(entries) && e in entries && e.fact.IdentitiesBound? && e.sequence == Generation(entries, e.owner)
    ensures target in Owned(entries, e.owner, control) <==> Reaches(entries, e, control, target)
  {
    OwnedByIdentity(entries, e.owner, control, target);
    var ids, bindings := RuntimeIdentities(entries, e.owner, e.sequence), e.fact.bindings;
    assert |ids| == |bindings| by { BoundIdentities(entries, e); }
    if id :| id in ids && if control in {IrcSend, IrcTarget} then id.agentId == target else id.jobId == Some(target) {
      var k :| 0 <= k < |ids| && ids[k] == id;
      IdentityReaches(entries, e, k);
      assert bindings[k] in bindings;
    }
    if b :| b in bindings && ReachedBy(entries, e, control, target, b) {
      var k :| 0 <= k < |bindings| && bindings[k] == b;
      IdentityReaches(entries, e, k);
      assert ids[k] in ids;
    }
  }

  /** The capability is what the last observation of the current generation says, and unknown without one. */
  lemma CapabilityIff(entries: Entries, owner: Owner)
    ensures var generation, capability := Generation(entries, owner), RuntimeCapability(entries, owner);
            && (capability == Unknown <==> !exists e :: e in entries && Observes(e, owner, generation))
            && (capability.Observed? ==>
                  exists i | 0 <= i < |entries| ::
                    && Observes(entries[i], owner, generation)
                    && capability == Observed(entries[i].fact.proven, entries[i].fact.reason)
                    && forall j | i < j < |entries| :: !Observes(entries[j], owner, generation))
  {
    var found := LastWhere(entries, (e: Entry) =>
                             e.owner == owner && e.fact.CapabilityObserved?
                             && e.fact.taskGeneration == Generation(entries, owner));
    if found.Some? {
      assert Observes(found.value, owner, Generation(entries, owner));
    }
  }

  ghost predicate Observes(e: Entry, owner: Owner, generation: nat) {
    e.owner == owner && e.fact.CapabilityObserved? && e.fact.taskGeneration == generation
  }

  // ---------------------------------------------------------------------------
  // When something is reserved, bound or authorized
  // ---------------------------------------------------------------------------

  ghost predicate InLedger(entries: Entries, owner: Owner, fact: Fact) {
    exists e :: e in entries && e.owner == owner && e.fact == fact
  }

  ghost predicate ReservedCall(entries: Entries, owner: Owner, toolCallId: string) {
    exists e :: e in entries && e.owner == owner && e.fact.Reserved? && e.fact.toolCallId == toolCallId
  }

  lemma ReservationFound(entries: Entries, owner: Owner, toolCallId: string)
    requires LedgerOrdered(entries)
    ensures var found := FindFact(entries, owner, ReservedKey(toolCallId));
            && (found.Some? <==> ReservedCall(entries, owner, toolCallId))
            && (found.Some? ==> found.value.Reserved? && found.value.toolCallId == toolCallId)
            && forall f: Fact | f.Reserved? && f.toolCallId == toolCallId :: found == Some(f) <==> InLedger(entries, owner, f)
  {
    var found := FindFact(entries, owner, ReservedKey(toolCallId));
    FoundFact(entries, owner, ReservedKey(toolCallId));
    forall f: Fact | f.Reserved? && f.toolCallId == toolCallId ensures found == Some(f) <==> InLedger(entries, owner, f) {
      if InLedger(entries, owner, f) {
        var e :| e in entries && e.owner == owner && e.fact == f;
        FindFactUnique(entries, e);
      }
    }
    if ReservedCall(entries, owner, toolCallId) {
      var e :| e in entries && e.owner == owner && e.fact.Reserved? && e.fact.toolCallId == toolCallId;
      FindFactUnique(entries, e);
    }
  }

  /** A reservation is made exactly for a call without one, within the limit; the same again is a replay, and
      another one under the call a conflict. */
  lemma ReserveIff(entries: Entries, owner: Owner, reservation: Fact, maxFanOut: nat)
    requires LedgerOrdered(entries) && reservation.Reserved?
    ensures var decision := DecideReserve(entries, owner, reservation, maxFanOut);
            var taken := ReservedCall(entries, owner, reservation.toolCallId);
            var total := ReservedItems(entries, owner) + reservation.itemCount;
            && (decision == Append([reservation], ReserveDone) <==> !taken && total <= maxFanOut && total <= MAX_SAFE_INTEGER)
            && (decision == Return(ReserveLimit) <==> !taken && (total > maxFanOut || total > MAX_SAFE_INTEGER))
            && (decision == Return(ReserveReplayed) <==> InLedger(entries, owner, reservation))
            && (decision == Return(FactConflict) <==> taken && !InLedger(entries, owner, reservation))
  {
    ReservationFound(entries, owner, reservation.toolCallId);
  }

  /** The bindings number the reserved items in order, each to an agent of its own. */
  ghost predicate Fits(entries: Entries, owner: Owner, toolCallId: string, bindings: seq<IdentityBinding>) {
    exists e :: e in entries && e.owner == owner && e.fact.Reserved? && e.fact.toolCallId == toolCallId
                && |bindings| == e.fact.itemCount && (forall i | 0 <= i < |bindings| :: bindings[i].itemIndex == i)
                && forall i, j | 0 <= i < j < |bindings| :: bindings[i].agentId != bindings[j].agentId
  }

  lemma FitsFound(entries: Entries, owner: Owner, toolCallId: string, bindings: seq<IdentityBinding>)
    requires LedgerOrdered(entries)
    ensures var found := FindFact(entries, owner, ReservedKey(toolCallId));
            Fits(entries, owner, toolCallId, bindings) <==> found.Some? && found.value.Reserved? && BindingsFit(found.value, bindings)
  {
    ReservationFound(entries, owner, toolCallId);
    FoundFact(entries, owner, ReservedKey(toolCallId));
    if Fits(entries, owner, toolCallId, bindings) {
      var e :| e in entries && e.owner == owner && e.fact.Reserved? && e.fact.toolCallId == toolCallId
               && |bindings| == e.fact.itemCount && (forall i | 0 <= i < |bindings| :: bindings[i].itemIndex == i)
               && forall i, j | 0 <= i < j < |bindings| :: bindings[i].agentId != bindings[j].agentId;
      FindFactUnique(entries, e);
    }
  }

  /** Identities are bound exactly for a reserved call they fit and that has none; without asynchronous jobs
      the binding is observed as blocked in its own generation. */
  lemma BindIff(entries: Entries, owner: Owner, toolCallId: string, bindings: seq<IdentityBinding>, asyncAvailable: bool)
    requires LedgerOrdered(entries)
    ensures var decision := DecideBind(entries, owner, toolCallId, bindings, asyncAvailable);
            var bound := IdentitiesBound(toolCallId, bindings);
            var unbound := !exists e :: e in entries && e.owner == owner && e.fact.IdentitiesBound? && e.fact.toolCallId == toolCallId;
            && (decision == Return(MissingReservation) <==> !ReservedCall(entries, owner, toolCallId))
            && (decision.Append? <==> Fits(entries, owner, toolCallId, bindings) && unbound)
            && (decision.Append? ==>
                  decision == if asyncAvailable then Append([bound], BindPending)
                              else Append([bound, CapabilityObserved(toolCallId, |entries| + 1, false, "async_unavailable_or_inline")],
                                          BindBlocked))
            && (decision.Return? && decision.status in {BindPending, BindBlocked} <==>
                  Fits(entries, owner, toolCallId, bindings) && InLedger(entries, owner, bound))
  {
    FitsFound(entries, owner, toolCallId, bindings);
    ReservationFound(entries, owner, toolCallId);
    FoundFact(entries, owner, BoundKey(toolCallId));
    forall e | e in entries && e.owner == owner && e.fact.IdentitiesBound? && e.fact.toolCallId == toolCallId
      ensures FindFact(entries, owner, BoundKey(toolCallId)) == Some(e.fact)
    {
      FindFactUnique(entries, e);
    }
  }

  /** The owner's current generation is a binding that reaches the target. */
  ghost predicate ReachesNow(entries: Entries, owner: Owner, control: ControlKind, target: string) {
    exists e :: e in entries && e.owner == owner && e.sequence == Generation(entries, owner)
                && e.fact.IdentitiesBound? && Reaches(entries, e, control, target)
  }

  /** Control is authorized exactly in a generation that reaches every target, and recorded as asked for. */
  lemma AuthorizeIff(entries: Entries, owner: Owner, toolCallId: string, control: ControlKind, inputKey: string, targets: seq<string>)
    requires LedgerInv(entries)
    ensures var decision := DecideAuthorize(entries, owner, toolCallId, control, inputKey, targets);
            var generation := Generation(entries, owner);
            && (decision.status.ControlAuthorized? <==>
                  generation > 0 && forall t | t in targets :: ReachesNow(entries, owner, control, t))
            && (decision.status.NoGeneration? <==> generation == 0)
            && (decision.Append? <==> decision.status.ControlAuthorized?)
            && (decision.Append? ==> decision.facts == [Authorized(toolCallId, control, generation, inputKey, targets)])
  {
    forall t ensures t in Owned(entries, owner, control) <==> ReachesNow(entries, owner, control, t) {
      OwnedIff(entries, owner, control, t);
    }
  }

  /** Waiting on the hub is authorized exactly in a generation that reaches every job and every agent; an
      unreached job is reported before an unreached agent; what is recorded is the job snapshot it may take. */
  lemma HubWaitIff(entries: Entries, owner: Owner, toolCallId: string, inputKey: string, jobTargets: seq<string>, agentTargets: seq<string>)
    requires LedgerInv(entries)
    ensures var decision := DecideHubWait(entries, owner, toolCallId, inputKey, jobTargets, agentTargets);
            var generation := Generation(entries, owner);
            var jobs := forall t | t in jobTargets :: ReachesNow(entries, owner, JobSnapshot, t);
            var agents := forall t | t in agentTargets :: ReachesNow(entries, owner, IrcSend, t);
            && (decision.status.ControlAuthorized? <==> generation > 0 && jobs && agents)
            && (decision.status.UnownedJob? <==> generation > 0 && !jobs)
            && (decision.status.UnownedAgent? <==> generation > 0 && jobs && !agents)
            && (decision.Append? <==> decision.status.ControlAuthorized?)
            && (decision.Append? ==> decision.facts == [Authorized(toolCallId, JobSnapshot, generation, inputKey, jobTargets)])
  {
    forall t ensures t in Owned(entries, owner, JobSnapshot) <==> ReachesNow(entries, owner, JobSnapshot, t) {
      OwnedIff(entries, owner, JobSnapshot, t);
    }
    forall t ensures t in Owned(entries, owner, IrcSend) <==> ReachesNow(entries, owner, IrcSend, t) {
      OwnedIff(entries, owner, IrcSend, t);
    }
  }

  // ---------------------------------------------------------------------------
  // Keys and conflicts
  // ---------------------------------------------------------------------------

  /** Two facts share a key exactly when they are of one kind and call and, for receipts, one target. */
  lemma SameKeyIff(f: Fact, g: Fact)
    ensures KeyOf(f) == KeyOf(g) <==>
            && f.toolCallId == g.toolCallId
            && (f.Reserved? <==> g.Reserved?) && (f.IdentitiesBound? <==> g.IdentitiesBound?)
            && (f.Authorized? <==> g.Authorized?) && (f.CapabilityObserved? <==> g.CapabilityObserved?)
            && (f.ReceiptObserved? && g.ReceiptObserved? ==>
                  match (f.receipt, g.receipt)
                  case (JobReceipt(a, _), JobReceipt(b, _)) => a == b
                  case (CancelReceipt(a), CancelReceipt(b)) => a == b
                  case (IrcReceipt(a, _), IrcReceipt(b, _)) => a == b
                  case _ => false)
  {
  }

  /** The owner has another fact under the key. */
  ghost predicate Contradicted(entries: Entries, owner: Owner, fact: Fact) {
    exists e :: e in entries && e.owner == owner && KeyOf(e.fact) == KeyOf(fact) && e.fact != fact
  }

  ghost predicate KeyFree(entries: Entries, owner: Owner, fact: Fact) {
    forall e | e in entries && e.owner == owner :: KeyOf(e.fact) != KeyOf(fact)
  }

  lemma LookupIff(entries: Entries, owner: Owner, fact: Fact)
    requires LedgerOrdered(entries)
    ensures FindFact(entries, owner, KeyOf(fact)).None? <==> KeyFree(entries, owner, fact)
    ensures FindFact(entries, owner, KeyOf(fact)) == Some(fact) <==> InLedger(entries, owner, fact)
    ensures FindFact(entries, owner, KeyOf(fact)).Some? && FindFact(entries, owner, KeyOf(fact)).value != fact <==>
            Contradicted(entries, owner, fact)
  {
    FoundFact(entries, owner, KeyOf(fact));
    forall e | e in entries && e.owner == owner && KeyOf(e.fact) == KeyOf(fact)
      ensures FindFact(entries, owner, KeyOf(fact)) == Some(e.fact)
    {
      FindFactUnique(entries, e);
    }
  }

  ghost predicate Contradicts(entries: Entries, owner: Owner, facts: seq<Fact>) {
    exists i | 0 <= i < |facts| :: Contradicted(entries, owner, facts[i])
  }

  ghost predicate RepeatsKey(facts: seq<Fact>, key: FactKey) {
    exists i | 0 <= i < |facts| :: KeyOf(facts[i]) == key
  }

  ghost predicate RepeatsNewKey(entries: Entries, owner: Owner, facts: seq<Fact>) {
    exists j | 0 <= j < |facts| :: KeyFree(entries, owner, facts[j]) && RepeatsKey(facts[..j], KeyOf(facts[j]))
  }

  lemma ConflictSteps(entries: Entries, owner: Owner, facts: seq<Fact>)
    requires facts != []
    ensures var before, last := facts[..|facts| - 1], facts[|facts| - 1];
            && (Contradicts(entries, owner, facts) <==> Contradicts(entries, owner, before) || Contradicted(entries, owner, last))
            && (RepeatsNewKey(entries, owner, facts) <==>
                  || RepeatsNewKey(entries, owner, before)
                  || (KeyFree(entries, owner, last) && RepeatsKey(before, KeyOf(last))))
  {
    var before := facts[..|facts| - 1];
    assert forall i | 0 <= i < |before| :: before[i] == facts[i];
    assert forall j | 0 <= j < |before| :: before[..j] == facts[..j];
  }

  /** A merge conflicts exactly when a fact contradicts the ledger or repeats the key of a new one. */
  lemma {:induction false} MergeConflictIff(entries: Entries, owner: Owner, facts: seq<Fact>)
    requires LedgerOrdered(entries)
    ensures Novel(entries, owner, facts).None? <==> Contradicts(entries, owner, facts) || RepeatsNewKey(entries, owner, facts)
  {
    if facts != [] {
      var before, last := facts[..|facts| - 1], facts[|facts| - 1];
      MergeConflictIff(entries, owner, before);
      ConflictSteps(entries, owner, facts);
      LookupIff(entries, owner, last);
      if Novel(entries, owner, before).Some? && KeyFree(entries, owner, last) {
        NovelRepeats(entries, owner, before, last);
      }
    }
  }

  /** A new key is repeated among the new facts exactly when it is repeated at all. */
  lemma NovelRepeats(entries: Entries, owner: Owner, before: seq<Fact>, last: Fact)
    requires LedgerOrdered(entries) && Novel(entries, owner, before).Some? && KeyFree(entries, owner, last)
    ensures (exists n | n in Novel(entries, owner, before).value :: KeyOf(n) == KeyOf(last)) <==>
            RepeatsKey(before, KeyOf(last))
  {
    var novel := Novel(entries, owner, before).value;
    NovelFacts(entries, owner, before);
    if n :| n in novel && KeyOf(n) == KeyOf(last) {
      var i :| 0 <= i < |before| && before[i] == n;
    }
    if i :| 0 <= i < |before| && KeyOf(before[i]) == KeyOf(last) {
      assert before[i] in before;
      LookupIff(entries, owner, last);
    }
  }
}
