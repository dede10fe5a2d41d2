/** What every interleaving of authorizations and observations keeps. */
module RetrievalBudgetProofs {
  import opened Prelude
  import opened TaskPacket
  import opened RetrievalBudget

  /** Metering succeeds exactly when a well-formed result fits, and then the budget stays valid. */
  lemma MeterIff(b: Budget, result: RetrievalResult)
    requires BudgetValid(b)
    ensures var limits := TierBudgets(b.tier);
            Meter(b, result).Metered? <==>
              && ResultValid(result) && b.generalCalls < limits.maxCalls
              && (result.Delivered? ==>
                    && b.retrievalCalls < limits.maxRetrievalCalls
                    && b.retrievalBytes + Utf8Length(result.content) <= limits.maxRetrievalBytes)
    ensures Meter(b, result).Metered? ==> BudgetValid(Meter(b, result).budget) && Meter(b, result).budget.tier == b.tier
  {
  }

  /** And the refusal says which limit it would break, the general one before the others. */
  lemma MeterCode(b: Budget, result: RetrievalResult)
    requires BudgetValid(b) && Meter(b, result).Unmetered?
    ensures var limits, code := TierBudgets(b.tier), Meter(b, result).code;
            if result.Delivered? && !(1 <= |result.content| <= 163840) then code == MalformedRetrievalResult
            else if b.generalCalls == limits.maxCalls then code == GeneralCallBudgetExceeded
            else
              && result.Delivered?
              && code == if b.retrievalCalls == limits.maxRetrievalCalls then RetrievalCallBudgetExceeded
                         else RetrievalByteBudgetExceeded
  {
  }

  /** A call may start exactly once, while nothing was refused and the tier has room for it. */
  lemma AskIff(s: Session, id: string)
    ensures var (after, answer) := Authorized(s, id);
            var room := s.budget.generalCalls + |s.pending| < s.packet.budgets.maxCalls;
            && (answer == Allowed <==> s.terminal.None? && id !in s.seen && room)
            && (answer == Allowed ==> after == s.(pending := s.pending + {id}, seen := s.seen + {id}))
            && (answer == DuplicateCall <==> s.terminal.None? && id in s.seen)
            && (s.terminal.None? && id !in s.seen && !room ==>
                  after == s.(terminal := Some(GeneralCallBudgetExceeded)) && answer == Blocked(GeneralCallBudgetExceeded))
  {
  }

  /** What the answer to a pending call costs: one general call; and, if it delivers content, one retrieval and
      the bytes of that content. */
  lemma AnswerCosts(s: Session, id: string, statusOnly: bool, parts: seq<Part>)
    requires BudgetValid(s.budget) && s.terminal.None? && id in s.pending
    ensures var (after, answer) := ObservedResult(s, id, statusOnly, parts);
            var content := Joined(parts);
            var delivers := !statusOnly && content != [];
            && after.pending == s.pending - {id} && after.seen == s.seen && after.packet == s.packet
            && |after.observations| == |s.observations| + 1 && s.observations <= after.observations
            && after.observations[|s.observations|].toolCallId == id
            && after.observations[|s.observations|].deliveredBytes == Utf8Length(content)
            && (answer.MeteredAnswer? <==> after.terminal.None?)
            && (answer.MeteredAnswer? ==>
                  && after.budget == Budget(s.budget.tier, s.budget.generalCalls + 1,
                                            s.budget.retrievalCalls + (if delivers then 1 else 0),
                                            s.budget.retrievalBytes + (if delivers then Utf8Length(content) else 0))
                  && answer.budget == after.budget
                  && after.observations[|s.observations|].outcome ==
                     if delivers then ObservedDelivered else if statusOnly then ObservedStatus else ObservedEmpty)
            && (!answer.MeteredAnswer? ==>
                  && after.budget == s.budget && answer.RefusedAnswer? && after.terminal == Some(answer.code)
                  && after.observations[|s.observations|].outcome == ObservedRefusal(answer.code))
  {
    var result := ResultOf(statusOnly, Joined(parts));
    MeterIff(s.budget, result);
  }

  /** An answer to a call that is not pending changes nothing. */
  lemma StrayAnswer(s: Session, id: string, statusOnly: bool, parts: seq<Part>)
    requires s.terminal.None? && id !in s.pending
    ensures ObservedResult(s, id, statusOnly, parts) == (s, Quiet)
  {
  }

  /** The content is the texts and image data of the parts, in order. */
  lemma {:induction false} JoinedAppends(a: seq<Part>, b: seq<Part>)
    ensures Joined(a + b) == Joined(a) + Joined(b)
    ensures forall text :: Joined([TextPart(text)]) == text && Joined([ImagePart(text)]) == text
  {
    forall text ensures Joined([TextPart(text)]) == text && Joined([ImagePart(text)]) == text {
      assert [TextPart(text)][1..] == [] && [ImagePart(text)][1..] == [];
    }
    if a == [] {
      assert a + b == b;
    } else {
      assert (a + b)[1..] == a[1..] + b;
      JoinedAppends(a[1..], b);
    }
  }

  datatype Op = Ask(toolCallId: string) | Answered(toolCallId: string, statusOnly: bool, parts: seq<Part>)

  function Step(s: Session, op: Op): Session {
    match op
    case Ask(id) => Authorized(s, id).0
    case Answered(id, statusOnly, parts) => ObservedResult(s, id, statusOnly, parts).0
  }

  function Run(packet: Packet, packetHash: string, ops: seq<Op>): Session {
    if ops == [] then NewSession(packet, packetHash)
    else Step(Run(packet, packetHash, ops[..|ops| - 1]), ops[|ops| - 1])
  }

  function BytesDelivered(observations: seq<Observation>): nat {
    if observations == [] then 0
    else
      var last := observations[|observations| - 1];
      BytesDelivered(observations[..|observations| - 1])
      + if last.outcome.ObservedDelivered? then last.deliveredBytes else 0
  }

  function CountMetered(observations: seq<Observation>): nat {
    if observations == [] then 0
    else
      CountMetered(observations[..|observations| - 1])
      + if observations[|observations| - 1].outcome.ObservedRefusal? then 0 else 1
  }

  function CountDelivered(observations: seq<Observation>): nat {
    if observations == [] then 0
    else
      CountDelivered(observations[..|observations| - 1])
      + if observations[|observations| - 1].outcome.ObservedDelivered? then 1 else 0
  }

  function IdOf(o: Observation): string { o.toolCallId }

  ghost predicate SessionInv(s: Session) { BudgetInv(s) && CallsInv(s) }

  /** The budget is valid, leaves room for the pending calls and counts what was observed. */
  ghost predicate BudgetInv(s: Session) {
    && PacketRules(s.packet) && s.budget.tier == s.packet.tier && BudgetValid(s.budget)
    && s.budget.generalCalls + |s.pending| <= TierBudgets(s.packet.tier).maxCalls
    && s.budget.generalCalls == CountMetered(s.observations)
    && s.budget.retrievalCalls == CountDelivered(s.observations)
    && s.budget.retrievalBytes == BytesDelivered(s.observations)
  }

  /** Calls are seen once, pending or observed but not both, and a refusal is terminal. */
  ghost predicate CallsInv(s: Session) {
    && s.pending <= s.seen
    && Distinct(Map(s.observations, IdOf))
    && (forall o | o in s.observations :: o.toolCallId in s.seen && o.toolCallId !in s.pending)
    && (forall o | o in s.observations && o.outcome.ObservedRefusal? :: s.terminal == Some(o.outcome.code))
  }

  lemma AskKeepsInv(s: Session, id: string)
    requires SessionInv(s)
    ensures SessionInv(Authorized(s, id).0)
  {
    if s.terminal.None? && id !in s.seen {
      assert id !in s.pending;
      assert |s.pending + {id}| == |s.pending| + 1;
    }
  }

  lemma AnswerKeepsInv(s: Session, id: string, statusOnly: bool, parts: seq<Part>)
    requires SessionInv(s)
    ensures SessionInv(ObservedResult(s, id, statusOnly, parts).0)
  {
    if s.terminal.None? && id in s.pending {
      AnswerKeepsBudget(s, id, statusOnly, parts);
      AnswerKeepsCalls(s, id, statusOnly, parts);
    }
  }

  lemma AnswerKeepsBudget(s: Session, id: string, statusOnly: bool, parts: seq<Part>)
    requires BudgetInv(s) && s.terminal.None? && id in s.pending
    ensures BudgetInv(ObservedResult(s, id, statusOnly, parts).0)
  {
    var result, metering := ResultOf(statusOnly, Joined(parts)), Meter(s.budget, ResultOf(statusOnly, Joined(parts)));
    Counted(s.observations, Observation(id, Utf8Length(Joined(parts)), OutcomeOf(result, metering)));
    assert s.pending == (s.pending - {id}) + {id} && |s.pending - {id}| == |s.pending| - 1;
    MeterIff(s.budget, result);
  }

  /** One more observation counts for itself. */
  lemma Counted(observations: seq<Observation>, o: Observation)
    ensures CountMetered(observations + [o]) == CountMetered(observations) + if o.outcome.ObservedRefusal? then 0 else 1
    ensures CountDelivered(observations + [o])
         == CountDelivered(observations) + if o.outcome.ObservedDelivered? then 1 else 0
    ensures BytesDelivered(observations + [o])
         == BytesDelivered(observations) + if o.outcome.ObservedDelivered? then o.deliveredBytes else 0
  {
    assert (observations + [o])[..|observations|] == observations;
  }

  lemma AnswerKeepsCalls(s: Session, id: string, statusOnly: bool, parts: seq<Part>)
    requires CallsInv(s) && s.terminal.None? && id in s.pending
    ensures CallsInv(ObservedResult(s, id, statusOnly, parts).0)
  {
    var after := ObservedResult(s, id, statusOnly, parts).0;
    IdsStayDistinct(s.observations, after.observations[|s.observations|]);
  }

  lemma IdsStayDistinct(observations: seq<Observation>, last: Observation)
    requires Distinct(Map(observations, IdOf))
    requires forall o | o in observations :: o.toolCallId != last.toolCallId
    ensures Distinct(Map(observations + [last], IdOf))
  {
    var before, ids := Map(observations, IdOf), Map(observations + [last], IdOf);
    forall i, j | 0 <= i < j < |ids| ensures ids[i] != ids[j] {
      assert observations[i] in observations;
      if j < |observations| {
        assert before[i] != before[j];
      }
    }
  }

  /** Over every interleaving: general plus pending calls stay within the tier, the budget counts exactly
      what the observations delivered, and no call id is metered twice. */
  lemma {:induction false} EveryRunKeepsBudget(packet: Packet, packetHash: string, ops: seq<Op>)
    requires PacketRules(packet)
    ensures SessionInv(Run(packet, packetHash, ops)) && Run(packet, packetHash, ops).packet == packet
  {
    if ops == [] {
    } else {
      var s := Run(packet, packetHash, ops[..|ops| - 1]);
      EveryRunKeepsBudget(packet, packetHash, ops[..|ops| - 1]);
      match ops[|ops| - 1]
      case Ask(id) => AskKeepsInv(s, id);
      case Answered(id, statusOnly, parts) => AnswerKeepsInv(s, id, statusOnly, parts);
    }
  }

  /** Metering an authorized call never finds the general budget spent or the budget malformed: those
      refusals can only come from the authorization. */
  lemma MeteringNeverOverrunsGeneral(
    packet: Packet, packetHash: string, ops: seq<Op>, id: string, statusOnly: bool, parts: seq<Part>)
    requires PacketRules(packet) && id in Run(packet, packetHash, ops).pending
    ensures var metering := Meter(Run(packet, packetHash, ops).budget, ResultOf(statusOnly, Joined(parts)));
            metering.Unmetered? ==>
              && metering.code != GeneralCallBudgetExceeded && metering.code != MalformedRetrievalBudget
              && !statusOnly && Joined(parts) != []
  {
    EveryRunKeepsBudget(packet, packetHash, ops);
    var s := Run(packet, packetHash, ops);
    assert s.pending == (s.pending - {id}) + {id} && |s.pending - {id}| == |s.pending| - 1;
  }

  /** Once a session has a terminal code nothing changes it any more. */
  lemma {:induction false} TerminalFreezes(packet: Packet, packetHash: string, ops: seq<Op>, more: seq<Op>)
    requires Run(packet, packetHash, ops).terminal.Some?
    ensures Run(packet, packetHash, ops + more) == Run(packet, packetHash, ops)
  {
    if more == [] {
      assert ops + more == ops;
    } else {
      TerminalFreezes(packet, packetHash, ops, more[..|more| - 1]);
      assert (ops + more)[..|ops + more| - 1] == ops + more[..|more| - 1];
    }
  }

  /** The total delivered to a session never exceeds its tier's allowance. */
  lemma DeliveredWithinTier(packet: Packet, packetHash: string, ops: seq<Op>)
    requires PacketRules(packet)
    ensures var s, limits := Run(packet, packetHash, ops), TierBudgets(packet.tier);
            && BytesDelivered(s.observations) <= limits.maxRetrievalBytes
            && CountDelivered(s.observations) <= limits.maxRetrievalCalls
            && CountMetered(s.observations) + |s.pending| <= limits.maxCalls
  {
    EveryRunKeepsBudget(packet, packetHash, ops);
  }

  // ---------------------------------------------------------------------------
  // The guard over all its sessions
  // ---------------------------------------------------------------------------

  datatype GuardOp =
    | ActivateOp(sessionId: string, packet: Packet, packetHash: string)
    | ClearOp(sessionId: string)
    | SessionOp(sessionId: string, op: Op)

  type States = map<string, Session>

  function Activated(states: States, sessionId: string, packet: Packet, packetHash: string): States {
    if sessionId in states && states[sessionId].packetHash == packetHash then states
    else states[sessionId := NewSession(packet, packetHash)]
  }

  function GuardStep(states: States, op: GuardOp): States {
    match op
    case ActivateOp(sessionId, packet, packetHash) => Activated(states, sessionId, packet, packetHash)
    case ClearOp(sessionId) => states - {sessionId}
    case SessionOp(sessionId, op) =>
      if sessionId in states then states[sessionId := Step(states[sessionId], op)] else states
  }

  function GuardRun(ops: seq<GuardOp>): States {
    if ops == [] then map[] else GuardStep(GuardRun(ops[..|ops| - 1]), ops[|ops| - 1])
  }

  /** The guard's methods are these steps. */
  method PerformOp(guard: Guard, op: GuardOp)
    modifies guard
    ensures guard.states == GuardStep(old(guard.states), op)
  {
    match op
    case ActivateOp(sessionId, packet, packetHash) => guard.Activate(sessionId, packet, packetHash);
    case ClearOp(sessionId) => guard.Clear(sessionId);
    case SessionOp(sessionId, Ask(id)) => var _ := guard.Authorize(sessionId, id);
    case SessionOp(sessionId, Answered(id, statusOnly, parts)) =>
      var _ := guard.Observe(sessionId, id, statusOnly, parts);
  }

  /** The activation a session is in, with what was asked and answered in it. */
  datatype Activation = Activation(packet: Packet, packetHash: string, ops: seq<Op>)

  /** Clearing ends an activation; activating ends it exactly if the packet is another one. */
  function CurrentActivation(ops: seq<GuardOp>, sessionId: string): Option<Activation> {
    if ops == [] then None
    else
      var prior, last := CurrentActivation(ops[..|ops| - 1], sessionId), ops[|ops| - 1];
      if last.sessionId != sessionId then prior
      else
        match last
        case ActivateOp(_, packet, packetHash) =>
          if prior.Some? && prior.value.packetHash == packetHash then prior
          else Some(Activation(packet, packetHash, []))
        case ClearOp(_) => None
        case SessionOp(_, op) =>
          if prior.Some? then Some(prior.value.(ops := prior.value.ops + [op])) else None
  }

  lemma {:induction false} HashIsKept(packet: Packet, packetHash: string, ops: seq<Op>)
    ensures Run(packet, packetHash, ops).packetHash == packetHash && Run(packet, packetHash, ops).packet == packet
  {
    if ops != [] {
      HashIsKept(packet, packetHash, ops[..|ops| - 1]);
    }
  }

  lemma RunNext(packet: Packet, packetHash: string, ops: seq<Op>, op: Op)
    ensures Run(packet, packetHash, ops + [op]) == Step(Run(packet, packetHash, ops), op)
  {
    assert (ops + [op])[..|ops|] == ops;
  }

  /** However sessions interleave, activate and clear, a session's state is the run of its current
      activation alone. */
  lemma {:induction false} SessionIsItsActivation(ops: seq<GuardOp>, sessionId: string)
    ensures var current := CurrentActivation(ops, sessionId);
            && (sessionId in GuardRun(ops) <==> current.Some?)
            && (current.Some? ==>
                  GuardRun(ops)[sessionId] == Run(current.value.packet, current.value.packetHash, current.value.ops))
  {
    if ops != [] {
      var before, last := ops[..|ops| - 1], ops[|ops| - 1];
      SessionIsItsActivation(before, sessionId);
      var prior := CurrentActivation(before, sessionId);
      if prior.Some? {
        HashIsKept(prior.value.packet, prior.value.packetHash, prior.value.ops);
        if last.SessionOp? {
          RunNext(prior.value.packet, prior.value.packetHash, prior.value.ops, last.op);
        }
      }
    }
  }

  lemma {:induction false} ActivationsObeyRules(ops: seq<GuardOp>, sessionId: string)
    requires forall op | op in ops && op.ActivateOp? :: PacketRules(op.packet)
    ensures CurrentActivation(ops, sessionId).Some? ==> PacketRules(CurrentActivation(ops, sessionId).value.packet)
  {
    if ops != [] {
      assert ops[|ops| - 1] in ops;
      ActivationsObeyRules(ops[..|ops| - 1], sessionId);
    }
  }

  /** So every session of the guard is always within the budget of its activation. */
  lemma EverySessionWithinBudget(ops: seq<GuardOp>, sessionId: string)
    requires forall op | op in ops && op.ActivateOp? :: PacketRules(op.packet)
    requires sessionId in GuardRun(ops)
    ensures SessionInv(GuardRun(ops)[sessionId])
  {
    SessionIsItsActivation(ops, sessionId);
    ActivationsObeyRules(ops, sessionId);
    var current := CurrentActivation(ops, sessionId).value;
    EveryRunKeepsBudget(current.packet, current.packetHash, current.ops);
  }

  /** The spending of one state continues in the other: same packet, nothing observed or seen is forgotten,
      no counter falls. */
  ghost predicate CarriesOver(before: Session, after: Session) {
    && after.packetHash == before.packetHash && after.packet == before.packet
    && before.observations <= after.observations && before.seen <= after.seen
    && before.budget.generalCalls <= after.budget.generalCalls
    && before.budget.retrievalCalls <= after.budget.retrievalCalls
    && before.budget.retrievalBytes <= after.budget.retrievalBytes
  }

  lemma StepCarriesOver(s: Session, op: Op)
    ensures CarriesOver(s, Step(s, op))
  {
  }

  /** A session's counters carry over a step if and only if the step neither clears the session nor
      activates another packet in it. */
  lemma CarriesOverIff(states: States, op: GuardOp, sessionId: string)
    requires sessionId in states
    ensures (sessionId in GuardStep(states, op) && CarriesOver(states[sessionId], GuardStep(states, op)[sessionId])) <==>
            !(op.sessionId == sessionId
              && (op.ClearOp? || (op.ActivateOp? && op.packetHash != states[sessionId].packetHash)))
  {
    if op.SessionOp? {
      StepCarriesOver(states[sessionId], op.op);
    }
  }

  /** The budget belongs to an activation, not to a packet: after one metered call, activating another
      packet and then the first again leaves nothing spent. */
  lemma SwitchingPacketsRestartsTheBudget(sessionId: string, a: Packet, b: Packet, ha: string, hb: string)
    requires PacketRules(a) && ha != hb
    ensures var spent := [ActivateOp(sessionId, a, ha), SessionOp(sessionId, Ask("call")),
                          SessionOp(sessionId, Answered("call", true, []))];
            var switched := spent + [ActivateOp(sessionId, b, hb)] + [ActivateOp(sessionId, a, ha)];
            && sessionId in GuardRun(spent) && GuardRun(spent)[sessionId].budget.generalCalls == 1
            && sessionId in GuardRun(switched) && GuardRun(switched)[sessionId] == NewSession(a, ha)
  {
    var spent := [ActivateOp(sessionId, a, ha), SessionOp(sessionId, Ask("call")),
                  SessionOp(sessionId, Answered("call", true, []))];
    OneCallSpent(sessionId, a, ha);
    GuardNext(spent, ActivateOp(sessionId, b, hb));
    GuardNext(spent + [ActivateOp(sessionId, b, hb)], ActivateOp(sessionId, a, ha));
  }

  lemma GuardNext(ops: seq<GuardOp>, op: GuardOp)
    ensures GuardRun(ops + [op]) == GuardStep(GuardRun(ops), op)
  {
    assert (ops + [op])[..|ops|] == ops;
  }

  lemma OneCallSpent(sessionId: string, a: Packet, ha: string)
    requires PacketRules(a)
    ensures var spent := GuardRun([ActivateOp(sessionId, a, ha), SessionOp(sessionId, Ask("call")),
                                   SessionOp(sessionId, Answered("call", true, []))]);
            sessionId in spent && spent[sessionId].packetHash == ha && spent[sessionId].budget.generalCalls == 1
  {
    var activate, ask := ActivateOp(sessionId, a, ha), SessionOp(sessionId, Ask("call"));
    var answer := SessionOp(sessionId, Answered("call", true, []));
    GuardNext([], activate);
    assert [] + [activate] == [activate];
    GuardNext([activate], ask);
    assert [activate] + [ask] == [activate, ask];
    GuardNext([activate, ask], answer);
    assert [activate, ask] + [answer] == [activate, ask, answer];
    var asked := Authorized(NewSession(a, ha), "call").0;
    assert asked.pending == {"call"};
    assert Meter(asked.budget, StatusResult).Metered?;
  }
}
