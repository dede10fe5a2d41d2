/** The retrieval budget of a task packet: metering of results and the guard that authorizes calls before
    and observes them after, per session. */
module RetrievalBudget {
  import opened Prelude
  import opened Ordinal
  import opened TaskPacket

  datatype Budget = Budget(tier: TaskTier, generalCalls: nat, retrievalCalls: nat, retrievalBytes: nat)

  predicate BudgetValid(b: Budget) {
    var limits := TierBudgets(b.tier);
    && b.generalCalls <= limits.maxCalls && b.retrievalCalls <= limits.maxRetrievalCalls
    && b.retrievalCalls <= b.generalCalls && b.retrievalBytes <= limits.maxRetrievalBytes
  }

  function CreateBudget(tier: TaskTier): Budget { Budget(tier, 0, 0, 0) }

  datatype RetrievalResult = Delivered(content: Text) | EmptyResult | StatusResult

  const MAX_CONTENT := 160 * 1024

  predicate ResultValid(r: RetrievalResult) {
    r.Delivered? ==> 1 <= |r.content| <= MAX_CONTENT
  }

  datatype RefusalCode =
    | MalformedRetrievalBudget | MalformedRetrievalResult | GeneralCallBudgetExceeded
    | RetrievalCallBudgetExceeded | RetrievalByteBudgetExceeded

  datatype Metering = Metered(budget: Budget) | Unmetered(code: RefusalCode)

  function Meter(b: Budget, result: RetrievalResult): Metering {
    if !BudgetValid(b) then Unmetered(MalformedRetrievalBudget)
    else if !ResultValid(result) then Unmetered(MalformedRetrievalResult)
    else
      var limits := TierBudgets(b.tier);
      if b.generalCalls + 1 > limits.maxCalls then Unmetered(GeneralCallBudgetExceeded)
      else if !result.Delivered? then Metered(b.(generalCalls := b.generalCalls + 1))
      else if b.retrievalCalls + 1 > limits.maxRetrievalCalls then Unmetered(RetrievalCallBudgetExceeded)
      else
        var bytes := b.retrievalBytes + Utf8Length(result.content);
        if bytes > limits.maxRetrievalBytes then Unmetered(RetrievalByteBudgetExceeded)
        else Metered(b.(generalCalls := b.generalCalls + 1, retrievalCalls := b.retrievalCalls + 1, retrievalBytes := bytes))
  }

  datatype ObservedOutcome = ObservedEmpty | ObservedStatus | ObservedDelivered | ObservedRefusal(code: RefusalCode)

  datatype Observation = Observation(toolCallId: string, deliveredBytes: nat, outcome: ObservedOutcome)

  datatype Session = Session(
    packet: Packet, packetHash: string, budget: Budget, terminal: Option<RefusalCode>, pending: set<string>,
    seen: set<string>, observations: seq<Observation>)

  function NewSession(packet: Packet, packetHash: string): Session {
    Session(packet, packetHash, CreateBudget(packet.tier), None, {}, {}, [])
  }

  datatype Part = TextPart(text: Text) | ImagePart(data: Text)

  function Joined(parts: seq<Part>): Text {
    if parts == [] then []
    else (match parts[0] case TextPart(text) => text case ImagePart(data) => data) + Joined(parts[1..])
  }

  datatype Answer =
    | Allowed | DuplicateCall | Blocked(code: RefusalCode)
    | Quiet | MeteredAnswer(budget: Budget) | RefusedAnswer(code: RefusalCode)

  /** The session and the answer after a call asks to start. */
  function Authorized(s: Session, toolCallId: string): (Session, Answer) {
    if s.terminal.Some? then (s, Blocked(s.terminal.value))
    else if toolCallId in s.seen then (s, DuplicateCall)
    else if s.budget.generalCalls + |s.pending| + 1 > s.packet.budgets.maxCalls then
      (s.(terminal := Some(GeneralCallBudgetExceeded)), Blocked(GeneralCallBudgetExceeded))
    else (s.(seen := s.seen + {toolCallId}, pending := s.pending + {toolCallId}), Allowed)
  }

  function ResultOf(statusOnly: bool, content: Text): RetrievalResult {
    if statusOnly then StatusResult else if |content| == 0 then EmptyResult else Delivered(content)
  }

  function OutcomeOf(result: RetrievalResult, metering: Metering): ObservedOutcome {
    match metering
    case Unmetered(code) => ObservedRefusal(code)
    case Metered(_) =>
      match result
      case Delivered(_) => ObservedDelivered
      case EmptyResult => ObservedEmpty
      case StatusResult => ObservedStatus
  }

  /** The session and the answer after a call's result comes back. */
  function ObservedResult(s: Session, toolCallId: string, statusOnly: bool, parts: seq<Part>): (Session, Answer) {
    if s.terminal.Some? then (s, RefusedAnswer(s.terminal.value))
    else if toolCallId !in s.pending then (s, Quiet)
    else
      var content := Joined(parts);
      var result := ResultOf(statusOnly, content);
      var metering := Meter(s.budget, result);
      var observation := Observation(toolCallId, Utf8Length(content), OutcomeOf(result, metering));
      var after := s.(pending := s.pending - {toolCallId}, observations := s.observations + [observation]);
      match metering
      case Unmetered(code) => (after.(terminal := Some(code)), RefusedAnswer(code))
      case Metered(budget) => (after.(budget := budget), MeteredAnswer(budget))
  }

  /** The guard: one budget state per session, changed in place. */
  class Guard {
    var states: map<string, Session>

    constructor ()
      ensures states == map[]
    {
      states := map[];
    }

    /** A packet already active in the session keeps its budget. */
    method Activate(sessionId: string, packet: Packet, packetHash: string)
      modifies this
      ensures sessionId in old(states) && old(states)[sessionId].packetHash == packetHash ==> states == old(states)
      ensures !(sessionId in old(states) && old(states)[sessionId].packetHash == packetHash) ==>
                states == old(states)[sessionId := NewSession(packet, packetHash)]
    {
      if sessionId in states && states[sessionId].packetHash == packetHash {
        return;
      }
      states := states[sessionId := Session(packet, packetHash, CreateBudget(packet.tier), None, {}, {}, [])];
    }

    method Clear(sessionId: string)
      modifies this
      ensures states == old(states) - {sessionId}
    {
      states := states - {sessionId};
    }

    method Authorize(sessionId: string, toolCallId: string) returns (answer: Answer)
      modifies this
      ensures sessionId !in old(states) ==> states == old(states) && answer == Allowed
      ensures sessionId in old(states) ==>
                var (after, a) := Authorized(old(states)[sessionId], toolCallId);
                states == old(states)[sessionId := after] && answer == a
    {
      if sessionId !in states {
        return Allowed;
      }
      var state := states[sessionId];
      if state.terminal.Some? {
        assert states == states[sessionId := state];
        return Blocked(state.terminal.value);
      }
      if toolCallId in state.seen {
        assert states == states[sessionId := state];
        return DuplicateCall;
      }
      var projected := state.budget.generalCalls + |state.pending| + 1;
      if projected > state.packet.budgets.maxCalls {
        states := states[sessionId := state.(terminal := Some(GeneralCallBudgetExceeded))];
        return Blocked(GeneralCallBudgetExceeded);
      }
      state := state.(seen := state.seen + {toolCallId});
      state := state.(pending := state.pending + {toolCallId});
      states := states[sessionId := state];
      return Allowed;
    }

    method Observe(sessionId: string, toolCallId: string, statusOnly: bool, parts: seq<Part>) returns (answer: Answer)
      modifies this
      ensures sessionId !in old(states) ==> states == old(states) && answer == Quiet
      ensures sessionId in old(states) ==>
                var (after, a) := ObservedResult(old(states)[sessionId], toolCallId, statusOnly, parts);
                states == old(states)[sessionId := after] && answer == a
    {
      if sessionId !in states {
        return Quiet;
      }
      var state := states[sessionId];
      if state.terminal.Some? {
        assert states == states[sessionId := state];
        return RefusedAnswer(state.terminal.value);
      }
      if toolCallId !in state.pending {
        assert states == states[sessionId := state];
        return Quiet;
      }
      state := state.(pending := state.pending - {toolCallId});
      var content := Joined(parts);
      var result := ResultOf(statusOnly, content);
      var metering := Meter(state.budget, result);
      state := state.(observations :=
        state.observations + [Observation(toolCallId, Utf8Length(content), OutcomeOf(result, metering))]);
      match metering
      case Unmetered(code) =>
        states := states[sessionId := state.(terminal := Some(code))];
        answer := RefusedAnswer(code);
      case Metered(budget) =>
        states := states[sessionId := state.(budget := budget)];
        answer := MeteredAnswer(budget);
    }
  }
}
