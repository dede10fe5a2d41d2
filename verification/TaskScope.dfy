/** Which run, and so which owner and ledger, a session's task operations act on. */
module TaskScope {
  import opened Prelude
  import opened Domain
  import opened StateTransition
  import opened TransactionStore
  import StoreProofs
  import TaskLedger
  import TaskLedgerProofs

  datatype Scope = NoScope | ScopeConflict | ScopeOf(run: Run)

  function SessionEntries(index: Index, sessionId: string): seq<IndexEntry> {
    Filter(index.entries, (e: IndexEntry) => e.sessionId == sessionId)
  }

  predicate EntryAgrees(e: IndexEntry, run: Run) {
    && run.revision == e.runRevision && run.transactionRevision == e.transactionRevision
    && run.Workflow() == e.workflow && run.owner == Owner(e.sessionId, e.ownerEpoch)
  }

  function ResolveScope(d: Disk, sessionId: string): Scope {
    var entries := SessionEntries(IndexOf(d), sessionId);
    if entries == [] then NoScope
    else if |entries| != 1 then ScopeConflict
    else
      match RunOf(d, entries[0].runId)
      case None => ScopeConflict
      case Some(run) => if EntryAgrees(entries[0], run) then ScopeOf(run) else ScopeConflict
  }

  /** On a healthy store a session's scope is in conflict if and only if the session holds entries of both
      workflows; otherwise it is the session's one listed run, or nothing. */
  lemma ScopeConflictIff(d: Disk, sessionId: string)
    requires StoreProofs.StoreInv(d) && !StoreProofs.Behind(d)
    ensures var entries := SessionEntries(IndexOf(d), sessionId);
            && (ResolveScope(d, sessionId).NoScope? <==> entries == [])
            && (ResolveScope(d, sessionId).ScopeConflict? <==> |entries| >= 2)
            && (ResolveScope(d, sessionId).ScopeOf? ==>
                  var run := ResolveScope(d, sessionId).run;
                  && run.runId in d.runs && d.runs[run.runId] == run && !run.payload.status.Terminal()
                  && run.owner.sessionId == sessionId)
  {
    var entries := SessionEntries(IndexOf(d), sessionId);
    if |entries| == 1 {
      assert entries[0] in entries && entries[0] in IndexOf(d).entries;
      assert StoreProofs.EntryProjects(entries[0], d.runs[entries[0].runId]);
    }
  }

  type Ledgers = map<string, TaskLedger.Entries>

  function LedgerOf(ledgers: Ledgers, runId: string): TaskLedger.Entries {
    if runId in ledgers then ledgers[runId] else []
  }

  /** A session's operation on the store as it stands: the ledger of the run it resolves to takes the
      operation under that run's current owner; every other ledger is untouched. */
  function LedgersAfter(d: Disk, ledgers: Ledgers, sessionId: string, action: TaskLedger.Action): Ledgers {
    match ResolveScope(d, sessionId)
    case NoScope | ScopeConflict => ledgers
    case ScopeOf(run) =>
      var before := LedgerOf(ledgers, run.runId);
      var after := TaskLedger.Step(before, TaskLedger.Op(run.owner, action));
      if after == before then ledgers else ledgers[run.runId := after]
  }

  datatype TaskResult = Nothing | InConflict | Did(result: TaskLedger.Transaction)

  /** The sidecar files of all runs. */
  class TaskStore {
    var ledgers: Ledgers

    constructor ()
      ensures ledgers == map[]
    {
      ledgers := map[];
    }

    method Operate(d: Disk, sessionId: string, action: TaskLedger.Action) returns (result: TaskResult)
      modifies this
      ensures ledgers == LedgersAfter(d, old(ledgers), sessionId, action)
      ensures match ResolveScope(d, sessionId)
              case NoScope => result == Nothing
              case ScopeConflict => result == InConflict
              case ScopeOf(run) => result.Did?
    {
      match ResolveScope(d, sessionId)
      case NoScope =>
        result := Nothing;
      case ScopeConflict =>
        result := InConflict;
      case ScopeOf(run) =>
        var before := LedgerOf(ledgers, run.runId);
        var sidecar := new TaskLedger.Sidecar(before, run.owner);
        var outcome := sidecar.Perform(action);
        if sidecar.entries != before {
          ledgers := ledgers[run.runId := sidecar.entries];
        }
        result := Did(outcome);
    }
  }

  /** A session's operation, with the store it finds. */
  datatype TaskStep = TaskStep(d: Disk, sessionId: string, action: TaskLedger.Action)

  function LedgersRun(steps: seq<TaskStep>): Ledgers {
    if steps == [] then map[]
    else
      var last := steps[|steps| - 1];
      LedgersAfter(last.d, LedgersRun(steps[..|steps| - 1]), last.sessionId, last.action)
  }

  /** Whatever sessions do, and however runs change hands between their operations, every run's ledger
      keeps its invariant: justified entries, numbered 1..n, with unique keys per owner epoch. */
  lemma {:induction false} EveryLedgerKeepsInv(steps: seq<TaskStep>, runId: string)
    ensures TaskLedgerProofs.LedgerInv(LedgerOf(LedgersRun(steps), runId))
  {
    if steps != [] {
      var last, before := steps[|steps| - 1], LedgersRun(steps[..|steps| - 1]);
      EveryLedgerKeepsInv(steps[..|steps| - 1], runId);
      var scope := ResolveScope(last.d, last.sessionId);
      if scope.ScopeOf? && scope.run.runId == runId {
        TaskLedgerProofs.StepKeepsInv(LedgerOf(before, runId), TaskLedger.Op(scope.run.owner, last.action));
      }
    }
  }
}
