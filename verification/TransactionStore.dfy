/** The event-sourced store: commit appends an event, then replaces the run, then the index;
    repair finishes a commit that was cut between those writes. */
module TransactionStore {
  import opened Prelude
  import opened Domain
  import opened ReceiptAuthority
  import opened StateTransition

  /** The state directory. `log` is the event directory in sequence order; a missing index file is None. */
  datatype Disk = Disk(log: seq<Event>, runs: map<string, Run>, index: Option<Index>)

  datatype Write = AppendEvent(event: Event) | ReplaceRun(run: Run) | ReplaceIndex(index: Index)

  function Apply(d: Disk, w: Write): Disk {
    match w
    case AppendEvent(event) => d.(log := d.log + [event])
    case ReplaceRun(run) => d.(runs := d.runs[run.runId := run])
    case ReplaceIndex(index) => d.(index := Some(index))
  }

  function ApplyAll(d: Disk, ws: seq<Write>): Disk
    decreases |ws|
  {
    if ws == [] then d else ApplyAll(Apply(d, ws[0]), ws[1..])
  }

  // ---------------------------------------------------------------------------
  // Reads; a decoding failure is an exception in the program
  // ---------------------------------------------------------------------------

  /** The index the directory stands for: version 1 and empty before the first write. */
  function IndexOf(d: Disk): Index {
    if d.index.None? then Index(None, 0, []) else d.index.value
  }

  predicate IndexReadable(d: Disk) {
    && IndexValid(IndexOf(d).entries)
    && (IndexOf(d).migrationRevision.Some? ==> IndexOf(d).migrationRevision.value > 0)
  }

  /** Every event decodes and the sequence numbers run 1, 2, 3, ... */
  predicate LogReadable(log: seq<Event>) {
    forall i | 0 <= i < |log| :: EventDecodes(log[i]) && log[i].sequence == i + 1
  }

  predicate RunReadable(d: Disk, runId: string) {
    runId in d.runs ==> RunDecodes(d.runs[runId])
  }

  function RunOf(d: Disk, runId: string): Option<Run> {
    if runId in d.runs then Some(d.runs[runId]) else None
  }

  // ---------------------------------------------------------------------------
  // Commit and repair as the list of writes they intend
  // ---------------------------------------------------------------------------

  datatype StoreError =
    | TransitionRefused(error: TransitionError)
    | StateDiverged | IdempotencyConflict | NotRepairable | RepairIndexConflict | RunConflict

  datatype Outcome =
    | Committed(run: Run, index: Index)
    | Replayed(run: Run, index: Index)
    | Repaired(run: Run, index: Index)
    | Rejected(error: StoreError)
    | DecodeError
    | CutShort

  datatype Intent = Intent(outcome: Outcome, writes: seq<Write>)

  function EventSemantics(e: Event): Event {
    e.(eventId := "", sequence := 0, at := "")
  }

  /** The authority handed to the reducer: read only for receipt-bound events on an existing run. */
  function AuthorityFor(m: Mutation, current: Option<Run>, receipts: Authority): Option<Authority> {
    if ReceiptBound(m) && current.Some? then Some(receipts) else None
  }

  function PrepareOn(d: Disk, event: Event, receipts: Authority): Transition {
    var current := RunOf(d, event.runId);
    PrepareTransition(IndexOf(d), current, event, AuthorityFor(event.mutation, current, receipts))
  }

  function CommitIntent(d: Disk, event: Event, receipts: Authority): Intent {
    if !IndexReadable(d) || !LogReadable(d.log) then Intent(DecodeError, [])
    else
      match FirstWhere(d.log, (e: Event) => e.eventId == event.eventId)
      case Some(replay) =>
        if EventSemantics(replay) != EventSemantics(event) then Intent(Rejected(IdempotencyConflict), [])
        else if !RunReadable(d, event.runId) then Intent(DecodeError, [])
        else if event.runId !in d.runs then Intent(Rejected(StateDiverged), [])
        else Intent(Replayed(d.runs[event.runId], IndexOf(d)), [])
      case None =>
        if |d.log| != IndexOf(d).revision then Intent(Rejected(StateDiverged), [])
        else if !RunReadable(d, event.runId) then Intent(DecodeError, [])
        else
          var persisted := PersistedEventForIndex(IndexOf(d), event);
          match PrepareOn(d, persisted, receipts)
          case Refused(error) => Intent(Rejected(TransitionRefused(error)), [])
          case Prepared(run, index) =>
            Intent(Committed(run, index), [AppendEvent(persisted), ReplaceRun(run), ReplaceIndex(index)])
  }

  function RepairIntent(d: Disk, receipts: Authority): Intent {
    if !IndexReadable(d) || !LogReadable(d.log) then Intent(DecodeError, [])
    else
      var index := IndexOf(d);
      if d.log == [] || |d.log| != index.revision + 1 then Intent(Rejected(NotRepairable), [])
      else
        var event := d.log[|d.log| - 1];
        if event.expected.indexRevision != index.revision then Intent(Rejected(RepairIndexConflict), [])
        else if !RunReadable(d, event.runId) then Intent(DecodeError, [])
        else
          var current := RunOf(d, event.runId);
          if current.Some? && current.value.transactionRevision == event.sequence then
            var run := current.value;
            if run.runId != event.runId || run.Workflow() != event.workflow then Intent(Rejected(RunConflict), [])
            else
              var next := DeriveIndex(index, run, event.sequence);
              Intent(Repaired(run, next), [ReplaceIndex(next)])
          else
            match PrepareOn(d, event, receipts)
            case Refused(error) => Intent(Rejected(TransitionRefused(error)), [])
            case Prepared(run, _) =>
              var next := DeriveIndex(index, run, event.sequence);
              Intent(Repaired(run, next), [ReplaceRun(run), ReplaceIndex(next)])
  }

  /** The disk after the first `cut` intended writes; a cut past the last write is no cut. */
  function CutAt(d: Disk, intent: Intent, cut: nat): Disk {
    ApplyAll(d, Take(intent.writes, cut))
  }

  datatype Inspection = Healthy(revision: nat) | Repairable(sequence: nat) | MultipleEventsAhead | IndexAhead | Corrupt

  function InspectRecovery(d: Disk): Inspection {
    if !IndexReadable(d) || !LogReadable(d.log) then Corrupt
    else
      var revision := IndexOf(d).revision;
      if |d.log| == revision then Healthy(revision)
      else if |d.log| == revision + 1 then Repairable(|d.log|)
      else if |d.log| > revision then MultipleEventsAhead
      else IndexAhead
  }

  // ---------------------------------------------------------------------------
  // The store itself
  // ---------------------------------------------------------------------------

  /** `fuse` counts the writes that still reach the disk before the process is cut or its deadline
      expires; the operations run under the repository lock, so no other writer interleaves. */
  class Store {
    var log: seq<Event>
    var runs: map<string, Run>
    var index: Option<Index>
    var fuse: nat

    function State(): Disk
      reads this
    {
      Disk(log, runs, index)
    }

    /** Opens whatever the directory holds. */
    constructor (d: Disk, fuse: nat)
      ensures State() == d && this.fuse == fuse
    {
      log, runs, index := d.log, d.runs, d.index;
      this.fuse := fuse;
    }

    method Persist(w: Write) returns (done: bool)
      modifies this
      ensures done == (old(fuse) > 0)
      ensures done ==> State() == Apply(old(State()), w) && fuse == old(fuse) - 1
      ensures !done ==> State() == old(State()) && fuse == 0
    {
      if fuse == 0 {
        return false;
      }
      fuse := fuse - 1;
      match w {
        case AppendEvent(event) => log := log + [event];
        case ReplaceRun(run) => runs := runs[run.runId := run];
        case ReplaceIndex(next) => index := Some(next);
      }
      return true;
    }

    method Commit(event: Event, receipts: Authority) returns (outcome: Outcome)
      modifies this
      ensures var intent := CommitIntent(old(State()), event, receipts);
              && State() == CutAt(old(State()), intent, old(fuse))
              && outcome == (if old(fuse) < |intent.writes| then CutShort else intent.outcome)
    {
      if !IndexReadable(State()) || !LogReadable(log) {
        return DecodeError;
      }
      var active := IndexOf(State());
      var replay := FirstWhere(log, (e: Event) => e.eventId == event.eventId);
      if replay.Some? && EventSemantics(replay.value) != EventSemantics(event) {
        return Rejected(IdempotencyConflict);
      }
      if replay.None? && |log| != active.revision {
        return Rejected(StateDiverged);
      }
      if !RunReadable(State(), event.runId) {
        return DecodeError;
      }
      var current := RunOf(State(), event.runId);
      if replay.Some? {
        return if current.None? then Rejected(StateDiverged) else Replayed(current.value, active);
      }
      var persisted := PersistedEventForIndex(active, event);
      var authority := AuthorityFor(persisted.mutation, current, receipts);
      var prepared := PrepareTransition(active, RunOf(State(), persisted.runId), persisted, authority);
      if prepared.Refused? {
        return Rejected(TransitionRefused(prepared.error));
      }
      ghost var before := State();
      ghost var ws := CommitIntent(before, event, receipts).writes;
      assert ws == [AppendEvent(persisted), ReplaceRun(prepared.run), ReplaceIndex(prepared.index)];
      ApplyPrefixes3(before, ws);
      var done := Persist(AppendEvent(persisted));
      if !done {
        return CutShort;
      }
      done := Persist(ReplaceRun(prepared.run));
      if !done {
        return CutShort;
      }
      done := Persist(ReplaceIndex(prepared.index));
      if !done {
        return CutShort;
      }
      return Committed(prepared.run, prepared.index);
    }

    method Repair(receipts: Authority) returns (outcome: Outcome)
      modifies this
      ensures var intent := RepairIntent(old(State()), receipts);
              && State() == CutAt(old(State()), intent, old(fuse))
              && outcome == (if old(fuse) < |intent.writes| then CutShort else intent.outcome)
    {
      ghost var before := State();
      ghost var ws := RepairIntent(before, receipts).writes;
      ApplyPrefixes2(before, ws);
      if !IndexReadable(State()) || !LogReadable(log) {
        return DecodeError;
      }
      var active := IndexOf(State());
      if log == [] || log[|log| - 1].sequence != active.revision + 1 {
        return Rejected(NotRepairable);
      }
      var event := log[|log| - 1];
      if event.expected.indexRevision != active.revision {
        return Rejected(RepairIndexConflict);
      }
      if !RunReadable(State(), event.runId) {
        return DecodeError;
      }
      var current := RunOf(State(), event.runId);
      var run: Run;
      var runPublished := current.Some? && current.value.transactionRevision == event.sequence;
      if runPublished {
        run := current.value;
        if run.runId != event.runId || run.Workflow() != event.workflow {
          return Rejected(RunConflict);
        }
      } else {
        var prepared := PrepareTransition(active, current, event, AuthorityFor(event.mutation, current, receipts));
        if prepared.Refused? {
          return Rejected(TransitionRefused(prepared.error));
        }
        run := prepared.run;
      }
      var next := DeriveIndex(active, run, event.sequence);
      if !runPublished {
        var done := Persist(ReplaceRun(run));
        if !done {
          return CutShort;
        }
      }
      var done := Persist(ReplaceIndex(next));
      return if done then Repaired(run, next) else CutShort;
    }
  }

  /** Cutting after `n + 1` writes is one write, then cutting the rest after `n`. */
  lemma CutStep(d: Disk, ws: seq<Write>, n: nat)
    requires ws != []
    ensures ApplyAll(d, Take(ws, n + 1)) == ApplyAll(Apply(d, ws[0]), Take(ws[1..], n))
    ensures ApplyAll(d, Take(ws, 0)) == d
  {
    assert Take(ws, n + 1)[1..] == Take(ws[1..], n);
  }

  lemma ApplyPrefixes2(d: Disk, ws: seq<Write>)
    requires |ws| <= 2
    ensures forall cut: nat ::
              ApplyAll(d, Take(ws, cut)) ==
              if cut == 0 || ws == [] then d
              else if cut == 1 || |ws| == 1 then Apply(d, ws[0])
              else Apply(Apply(d, ws[0]), ws[1])
  {
    forall cut: nat | cut > 0 && ws != []
      ensures ApplyAll(d, Take(ws, cut)) ==
              if cut == 1 || |ws| == 1 then Apply(d, ws[0]) else Apply(Apply(d, ws[0]), ws[1])
    {
      CutStep(d, ws, cut - 1);
      if |ws| == 2 && cut > 1 {
        CutStep(Apply(d, ws[0]), ws[1..], cut - 2);
      }
    }
  }

  lemma ApplyPrefixes3(d: Disk, ws: seq<Write>)
    requires |ws| == 3
    ensures forall cut: nat ::
              ApplyAll(d, Take(ws, cut)) ==
              if cut == 0 then d
              else if cut == 1 then Apply(d, ws[0])
              else if cut == 2 then Apply(Apply(d, ws[0]), ws[1])
              else Apply(Apply(Apply(d, ws[0]), ws[1]), ws[2])
  {
    forall cut: nat | cut > 0
      ensures ApplyAll(d, Take(ws, cut)) ==
              if cut == 1 then Apply(d, ws[0])
              else if cut == 2 then Apply(Apply(d, ws[0]), ws[1])
              else Apply(Apply(Apply(d, ws[0]), ws[1]), ws[2])
    {
      CutStep(d, ws, cut - 1);
      ApplyPrefixes2(Apply(d, ws[0]), ws[1..]);
    }
  }
}
