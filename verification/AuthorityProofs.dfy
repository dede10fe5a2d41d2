/** What the receipt authority selects from a ledger, said of the ledger's entries. */
module AuthorityProofs {
  import opened Prelude
  import opened Domain
  import opened ReceiptAuthority

  /** The entry is evidence for the task from the run's owner epoch, captured at the run's expected head. */
  ghost predicate Proves(a: Acceptance, run: Run, taskId: string) {
    && a.taskId == Some(taskId)
    && Owner(a.ownerSessionId, a.ownerEpoch) == run.owner
    && run.version.V2? && run.version.expectedHead == Some(a.captureCommit)
  }

  /** And it is of the given generation and of the run's present attempt. */
  ghost predicate ProvesNow(a: Acceptance, run: Run, generation: nat, taskId: string) {
    Proves(a, run, taskId) && a.taskGeneration == generation > 0 && a.attempt == run.progressRevision
  }

  /** `a` is the last entry that proves the task now. */
  ghost predicate LastProof(a: Acceptance, run: Run, authority: Authority, taskId: string) {
    exists i | 0 <= i < |authority.accepted| ::
      && authority.accepted[i] == a && ProvesNow(a, run, authority.taskGeneration, taskId)
      && forall j | i < j < |authority.accepted| :: !ProvesNow(authority.accepted[j], run, authority.taskGeneration, taskId)
  }

  ghost predicate HasProof(run: Run, authority: Authority, taskId: string) {
    exists a :: a in authority.accepted && ProvesNow(a, run, authority.taskGeneration, taskId)
  }

  lemma CurrentAcceptanceIff(run: Run, authority: Authority, taskId: string)
    ensures CurrentAcceptance(run, authority, taskId).Some? <==> HasProof(run, authority, taskId)
    ensures forall a :: CurrentAcceptance(run, authority, taskId) == Some(a) ==> LastProof(a, run, authority, taskId)
  {
    CurrentIsProof(run, authority, taskId);
    var found := CurrentAcceptance(run, authority, taskId);
    if found.Some? {
      var i :| 0 <= i < |authority.accepted| && authority.accepted[i] == found.value
               && forall j | i < j < |authority.accepted| :: !IsCurrent(run, authority, taskId, authority.accepted[j]);
      assert ProvesNow(found.value, run, authority.taskGeneration, taskId);
    }
  }

  lemma CurrentIsProof(run: Run, authority: Authority, taskId: string)
    ensures forall a :: authority.taskGeneration > 0 ==>
              (IsCurrent(run, authority, taskId, a) <==> ProvesNow(a, run, authority.taskGeneration, taskId))
  {
  }

  /** The last entry that proves the task at all. */
  ghost predicate LastEver(a: Acceptance, run: Run, authority: Authority, taskId: string) {
    exists i | 0 <= i < |authority.accepted| ::
      && authority.accepted[i] == a && Proves(a, run, taskId)
      && forall j | i < j < |authority.accepted| :: !Proves(authority.accepted[j], run, taskId)
  }

  lemma LatestAcceptanceIff(run: Run, authority: Authority, taskId: string)
    ensures LatestAcceptance(run, authority, taskId).Some? <==> Proved(run, authority, taskId)
    ensures forall a :: LatestAcceptance(run, authority, taskId) == Some(a) ==> LastEver(a, run, authority, taskId)
  {
    assert forall a :: MatchesRun(run, a) && a.taskId == Some(taskId) <==> Proves(a, run, taskId);
    var found := LatestAcceptance(run, authority, taskId);
    if found.Some? {
      var i :| 0 <= i < |authority.accepted| && authority.accepted[i] == found.value
               && forall j | i < j < |authority.accepted| ::
                    !(MatchesRun(run, authority.accepted[j]) && authority.accepted[j].taskId == Some(taskId));
      assert Proves(found.value, run, taskId);
    }
  }

  ghost predicate Proved(run: Run, authority: Authority, taskId: string) {
    exists a :: a in authority.accepted && Proves(a, run, taskId)
  }

  /** A plan is complete when every task is proved and the last one is proved now. */
  ghost predicate PlanProved(run: Run, authority: Authority)
    requires run.payload.StartWork?
  {
    var taskIds := run.payload.plan.taskIds;
    && taskIds != [] && HasProof(run, authority, taskIds[|taskIds| - 1])
    && forall t | t in taskIds :: Proved(run, authority, t)
  }

  lemma AllProvedIff(run: Run, authority: Authority, taskIds: seq<string>)
    ensures (exists t | t in taskIds :: LatestAcceptance(run, authority, t).None?) <==>
            !forall t | t in taskIds :: Proved(run, authority, t)
  {
    forall t ensures LatestAcceptance(run, authority, t).Some? <==> Proved(run, authority, t) {
      LatestAcceptanceIff(run, authority, t);
    }
  }

  /** Completion ids exist exactly when the plan is proved. */
  lemma CompletionIdsIff(run: Run, authority: Authority)
    requires run.payload.StartWork?
    ensures StartCompletionAcceptanceIds(run, authority).Some? <==> PlanProved(run, authority)
  {
    var taskIds := run.payload.plan.taskIds;
    AllProvedIff(run, authority, taskIds);
    if taskIds != [] {
      CurrentAcceptanceIff(run, authority, taskIds[|taskIds| - 1]);
    }
  }

  /** And they name each task's last proof, in plan order. */
  lemma CompletionIdsNameProofs(run: Run, authority: Authority)
    requires run.payload.StartWork? && StartCompletionAcceptanceIds(run, authority).Some?
    ensures CompletionNames(run, authority, StartCompletionAcceptanceIds(run, authority).value)
  {
    var taskIds, ids := run.payload.plan.taskIds, StartCompletionAcceptanceIds(run, authority).value;
    forall i | 0 <= i < |taskIds| ensures NamesLast(ids[i], run, authority, taskIds[i]) {
      assert taskIds[i] in taskIds;
      LatestAcceptanceIff(run, authority, taskIds[i]);
      assert LastEver(LatestAcceptance(run, authority, taskIds[i]).value, run, authority, taskIds[i]);
    }
  }

  ghost predicate NamesLast(key: AcceptanceKey, run: Run, authority: Authority, taskId: string) {
    exists a :: LastEver(a, run, authority, taskId) && a.idempotencyKey == key
  }

  ghost predicate CompletionNames(run: Run, authority: Authority, ids: seq<AcceptanceKey>)
    requires run.payload.StartWork?
  {
    var taskIds := run.payload.plan.taskIds;
    |ids| == |taskIds| && forall i | 0 <= i < |ids| :: NamesLast(ids[i], run, authority, taskIds[i])
  }

  /** The task was rejected for the third time in this epoch and generation, is left to the parent, and has
      not been proved since. */
  ghost predicate Exhausts(r: Rejection, run: Run, authority: Authority) {
    && r.ownerEpoch == run.owner.epoch && r.taskGeneration == authority.taskGeneration > 0
    && r.count == 3 && r.status.NeedsParentDecision? && !HasProof(run, authority, r.taskId)
  }

  ghost predicate LastExhausted(r: Rejection, run: Run, authority: Authority) {
    exists i | 0 <= i < |authority.rejected| ::
      && authority.rejected[i] == r && Exhausts(r, run, authority)
      && forall j | i < j < |authority.rejected| :: !Exhausts(authority.rejected[j], run, authority)
  }

  lemma ExhaustedTaskIff(run: Run, authority: Authority)
    ensures ExhaustedTaskId(run, authority).Some? <==> exists r :: r in authority.rejected && Exhausts(r, run, authority)
    ensures forall t :: ExhaustedTaskId(run, authority) == Some(t) ==>
              exists r :: LastExhausted(r, run, authority) && r.taskId == t
  {
    if authority.taskGeneration > 0 {
      forall r ensures ExhaustedEntry(run, authority, r) <==> Exhausts(r, run, authority) {
        CurrentAcceptanceIff(run, authority, r.taskId);
      }
      var found := LastWhere(authority.rejected, (entry: Rejection) => ExhaustedEntry(run, authority, entry));
      assert ExhaustedTaskId(run, authority).Some? == found.Some?;
      if found.Some? {
        var i :| 0 <= i < |authority.rejected| && authority.rejected[i] == found.value
                 && forall j | i < j < |authority.rejected| :: !ExhaustedEntry(run, authority, authority.rejected[j]);
        assert LastExhausted(found.value, run, authority);
      } else {
        assert forall r | r in authority.rejected :: !ExhaustedEntry(run, authority, r);
      }
    }
  }
}
