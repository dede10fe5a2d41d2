/** The evaluation bundle verifier: trial cardinality, the matching of workflow calls with usage and
    proxy rows, and the per-trial reconciliation of tokens. */
module Bundle {
  import opened Prelude

  datatype Code =
    | ActorRoutePolicy | HardGateFailed | ModelConfigHashMismatch | ScenarioAuthorityMismatch | SettingsHashMismatch
    | ScopeBindingMismatch | TargetCommitMismatch | TrialCardinality | UnknownModel | UsageCallMissing
    | UsageCallUnexpected | UsageFieldsMissing | WireSamplingMismatch | ZeroReferenceUsage

  /** The reconciliation key of a call. */
  datatype CallKey = CallKey(scopeId: string, route: string, proxyCallId: nat)

  datatype Bucket = WorkflowBucket | CriticBucket

  datatype Call = Call(key: CallKey, actorId: string, bucket: Bucket)

  datatype Usage = Usage(key: CallKey, promptTokens: nat, completionTokens: nat, reasoningTokens: nat, cachedTokens: nat)

  datatype Proxy = Proxy(
    key: CallKey, temperature: int, topP: int, seed: int, seedSource: string, settingsHash: string,
    modelConfigHash: string, targetCommit: string, terminal: string, modelId: string, returnedModelId: string,
    modelRevision: string, returnedRevision: string)

  datatype Outcome = PASS | FAIL | BLOCKED | NOT_COMPARABLE

  datatype Trial = Trial(
    scenarioId: string, profileId: string, trial: int, scopeId: string, targetCommit: string, outcome: Outcome,
    calls: seq<Call>, scopeHash: string, settingsHash: string, modelConfigHash: string, workflowTokens: nat)

  datatype Price = Price(modelId: string, modelRevision: string, inputNanos: nat, outputNanos: nat)

  datatype Manifest = Manifest(settingsHash: string, modelConfigHash: string, targetCommit: string, prices: seq<Price>)

  datatype Evaluation = Evaluation(manifest: Manifest, trials: seq<Trial>, usage: seq<Usage>, proxy: seq<Proxy>)

  datatype ActorCalls = ActorCalls(actorId: string, maxCalls: nat, bucket: Bucket)

  datatype Authority = Authority(workflowCallCount: nat, actorCalls: seq<ActorCalls>)

  /** The frozen tables: scenarios with their authorities, profiles, and the hash of a scope. */
  datatype Tables = Tables(
    scenarioIds: seq<string>, profileIds: seq<string>, authorities: map<string, Authority>, metric: set<string>,
    hash: string -> string)

  function FrozenRoute(actorId: string): string { "/actor/" + actorId }

  // ---------------------------------------------------------------------------
  // Trial cardinality
  // ---------------------------------------------------------------------------

  datatype TrialKey = TrialKey(scenarioId: string, profileId: string, trial: int)

  function TrialKeyOf(t: Trial): TrialKey { TrialKey(t.scenarioId, t.profileId, t.trial) }

  function ScopeOf(t: Trial): string { t.scopeId }

  function Members<T>(s: seq<T>): set<T> { set x | x in s }

  ghost predicate Expected(tables: Tables, k: TrialKey) {
    k.scenarioId in tables.scenarioIds && k.profileId in tables.profileIds && 1 <= k.trial <= 3
  }

  predicate RightCount(tables: Tables, bundle: Evaluation) {
    |bundle.trials| == |tables.scenarioIds| * |tables.profileIds| * 3
  }

  predicate ScopesDiffer(bundle: Evaluation) {
    |Members(Map(bundle.trials, ScopeOf))| == |bundle.trials|
  }

  ghost predicate TrialsCover(tables: Tables, bundle: Evaluation) {
    forall k :: k in Members(Map(bundle.trials, TrialKeyOf)) <==> Expected(tables, k)
  }

  method VerifyTrialCardinality(tables: Tables, bundle: Evaluation) returns (code: Option<Code>)
    ensures code == if !RightCount(tables, bundle) then Some(TrialCardinality)
                    else if !ScopesDiffer(bundle) then Some(ScopeBindingMismatch)
                    else if TrialsCover(tables, bundle) then None else Some(TrialCardinality)
  {
    if |bundle.trials| != |tables.scenarioIds| * |tables.profileIds| * 3 {
      return Some(TrialCardinality);
    }
    var expected: set<TrialKey> := {};
    for i := 0 to |tables.scenarioIds|
      invariant forall k :: k in expected <==>
                  k.scenarioId in tables.scenarioIds[..i] && k.profileId in tables.profileIds && 1 <= k.trial <= 3
    {
      var before := expected;
      for j := 0 to |tables.profileIds|
        invariant forall k :: k in expected <==>
                    (k in before
                     || (k.scenarioId == tables.scenarioIds[i] && k.profileId in tables.profileIds[..j] && 1 <= k.trial <= 3))
      {
        var s, p := tables.scenarioIds[i], tables.profileIds[j];
        expected := expected + {TrialKey(s, p, 1), TrialKey(s, p, 2), TrialKey(s, p, 3)};
      }
    }
    var actual := Members(Map(bundle.trials, TrialKeyOf));
    if |Members(Map(bundle.trials, ScopeOf))| != |bundle.trials| {
      return Some(ScopeBindingMismatch);
    }
    SameSizeSubset(expected, actual);
    if |actual| == |expected| && forall k | k in expected :: k in actual {
      return None;
    }
    return Some(TrialCardinality);
  }

  lemma SameSizeSubset<T>(a: set<T>, b: set<T>)
    ensures |a| == |b| && a <= b <==> a == b
  {
    if |a| == |b| && a <= b {
      if x :| x in b && x !in a {
        assert a <= b - {x};
        Smaller(a, b - {x});
      }
    }
  }

  lemma {:induction false} Smaller<T>(a: set<T>, b: set<T>)
    requires a <= b
    ensures |a| <= |b|
  {
    if x :| x in a {
      Smaller(a - {x}, b - {x});
    }
  }

  // ---------------------------------------------------------------------------
  // Calls, usage rows and proxy rows
  // ---------------------------------------------------------------------------

  function WorkflowCalls(trials: seq<Trial>): seq<Call> {
    if trials == [] then [] else trials[0].calls + WorkflowCalls(trials[1..])
  }

  function CallKeyOf(c: Call): CallKey { c.key }

  function UsageKeyOf(u: Usage): CallKey { u.key }

  function ProxyKeyOf(p: Proxy): CallKey { p.key }

  function VerifyCalls(bundle: Evaluation): Option<Code> {
    var calls := WorkflowCalls(bundle.trials);
    var expectedKeys := Members(Map(calls, CallKeyOf));
    var usageKeys := Members(Map(bundle.usage, UsageKeyOf));
    var proxyKeys := Members(Map(bundle.proxy, ProxyKeyOf));
    if exists k | k in expectedKeys :: k !in usageKeys || k !in proxyKeys then Some(UsageCallMissing)
    else if (exists k | k in usageKeys :: k !in expectedKeys) || (exists k | k in proxyKeys :: k !in expectedKeys) then
      Some(UsageCallUnexpected)
    else if exists i | 0 <= i < |bundle.proxy| :: bundle.proxy[i].key.proxyCallId != i + 1 then Some(UsageCallUnexpected)
    else if |expectedKeys| != |calls| || |usageKeys| != |bundle.usage| || |proxyKeys| != |bundle.proxy| then
      Some(UsageCallUnexpected)
    else None
  }

  // ---------------------------------------------------------------------------
  // Reconciling each trial
  // ---------------------------------------------------------------------------

  /** A map built from rows, the last row of a key winning. */
  function UsageByKey(usage: seq<Usage>): map<CallKey, Usage> {
    if usage == [] then map[]
    else UsageByKey(usage[..|usage| - 1])[usage[|usage| - 1].key := usage[|usage| - 1]]
  }

  function ProxyByKey(proxy: seq<Proxy>): map<CallKey, Proxy> {
    if proxy == [] then map[]
    else ProxyByKey(proxy[..|proxy| - 1])[proxy[|proxy| - 1].key := proxy[|proxy| - 1]]
  }

  function IndexOf(s: seq<string>, x: string): Option<nat> {
    if s == [] then None
    else if s[0] == x then Some(0)
    else match IndexOf(s[1..], x) case None => None case Some(i) => Some(i + 1)
  }

  function PriceOf(tables: Tables, bundle: Evaluation, trial: Trial): Option<Price> {
    match IndexOf(tables.profileIds, trial.profileId)
    case Some(i) => if i < |bundle.manifest.prices| then Some(bundle.manifest.prices[i]) else None
    case None => None
  }

  function RouteCode(call: Call): Option<Code> {
    if call.key.route != FrozenRoute(call.actorId) then Some(ActorRoutePolicy)
    else if call.bucket.CriticBucket? && call.actorId != "momus" && call.actorId != "reviewer" then Some(ActorRoutePolicy)
    else if call.bucket.WorkflowBucket? && (call.actorId == "evaluator" || call.actorId == "critic") then
      Some(ActorRoutePolicy)
    else if call.actorId == "momus" && !call.bucket.CriticBucket? then Some(ActorRoutePolicy)
    else None
  }

  function ProxyCode(trial: Trial, price: Option<Price>, proxy: Proxy): Option<Code> {
    if proxy.temperature != 0 || proxy.topP != 1 || proxy.seed != 0 then Some(WireSamplingMismatch)
    else if proxy.seedSource != "compat.extraBody" then Some(WireSamplingMismatch)
    else if proxy.settingsHash != trial.settingsHash then Some(SettingsHashMismatch)
    else if proxy.modelConfigHash != trial.modelConfigHash then Some(ModelConfigHashMismatch)
    else if proxy.targetCommit != trial.targetCommit || proxy.terminal != "responded" then Some(TargetCommitMismatch)
    else if price.None? || proxy.modelId != price.value.modelId || proxy.returnedModelId != price.value.modelId then
      Some(UnknownModel)
    else if proxy.modelRevision != price.value.modelRevision || proxy.returnedRevision != price.value.modelRevision then
      Some(UnknownModel)
    else None
  }

  function CallCode(tables: Tables, bundle: Evaluation, trial: Trial, call: Call): Option<Code> {
    var usageByKey, proxyByKey := UsageByKey(bundle.usage), ProxyByKey(bundle.proxy);
    if RouteCode(call).Some? then RouteCode(call)
    else if call.key !in usageByKey || call.key !in proxyByKey then Some(UsageCallMissing)
    else
      var usage := usageByKey[call.key];
      if usage.reasoningTokens > usage.completionTokens || usage.cachedTokens > usage.promptTokens then
        Some(UsageFieldsMissing)
      else ProxyCode(trial, PriceOf(tables, bundle, trial), proxyByKey[call.key])
  }

  function Tokens(u: Usage): nat { u.promptTokens + u.completionTokens }

  /** The tokens the usage rows record under a key. */
  function TokensAt(usageByKey: map<CallKey, Usage>, key: CallKey): nat {
    if key in usageByKey then Tokens(usageByKey[key]) else 0
  }

  function CallTokens(usageByKey: map<CallKey, Usage>, calls: seq<Call>): nat {
    if calls == [] then 0
    else CallTokens(usageByKey, calls[..|calls| - 1]) + TokensAt(usageByKey, calls[|calls| - 1].key)
  }

  function ByActor(calls: seq<Call>, actorId: string): seq<Call> {
    Filter(calls, (c: Call) => c.actorId == actorId)
  }

  function ActorCode(authority: Authority, calls: seq<Call>, allowed: ActorCalls): Option<Code> {
    var observed := ByActor(calls, allowed.actorId);
    var required := |Filter(authority.actorCalls, (a: ActorCalls) => a.actorId == allowed.actorId)|;
    if |observed| < required then Some(UsageCallMissing)
    else if |observed| > allowed.maxCalls || exists c | c in observed :: c.bucket != allowed.bucket then
      Some(ActorRoutePolicy)
    else None
  }

  /** The earliest code among the items. */
  function FirstCode<T>(items: seq<T>, code: T -> Option<Code>): (r: Option<Code>)
    ensures r.None? <==> forall x | x in items :: code(x).None?
  {
    if items == [] then None
    else if code(items[0]).Some? then code(items[0])
    else FirstCode(items[1..], code)
  }

  function AllowanceCode(authority: Authority, calls: seq<Call>): Option<Code> {
    FirstCode(authority.actorCalls, (allowed: ActorCalls) => ActorCode(authority, calls, allowed))
  }

  function CallsCode(tables: Tables, bundle: Evaluation, trial: Trial): Option<Code> {
    FirstCode(trial.calls, (call: Call) => CallCode(tables, bundle, trial, call))
  }

  /** What is wrong with a trial before its calls are looked up. */
  function HeadCode(tables: Tables, bundle: Evaluation, trial: Trial): Option<Code> {
    if trial.scenarioId !in tables.authorities then Some(ScenarioAuthorityMismatch)
    else if tables.hash(trial.scopeId) != trial.scopeHash then Some(ScopeBindingMismatch)
    else if exists c | c in trial.calls :: c.key.scopeId != trial.scopeId then Some(ScopeBindingMismatch)
    else
      var authority := tables.authorities[trial.scenarioId];
      if |trial.calls| > authority.workflowCallCount then Some(UsageCallUnexpected)
      else if AllowanceCode(authority, trial.calls).Some? then AllowanceCode(authority, trial.calls)
      else if exists c | c in trial.calls :: forall a | a in authority.actorCalls :: a.actorId != c.actorId then
        Some(ActorRoutePolicy)
      else if trial.settingsHash != bundle.manifest.settingsHash then Some(SettingsHashMismatch)
      else if trial.modelConfigHash != bundle.manifest.modelConfigHash then Some(ModelConfigHashMismatch)
      else None
  }

  /** What is wrong with a trial once its calls add up to `total` tokens. */
  function TailCode(tables: Tables, bundle: Evaluation, trial: Trial, total: nat): Option<Code> {
    if total != trial.workflowTokens then Some(UsageFieldsMissing)
    else if trial.targetCommit != bundle.manifest.targetCommit then Some(TargetCommitMismatch)
    else if trial.profileId != "legacy-low" && !trial.outcome.PASS? then Some(HardGateFailed)
    else if trial.scenarioId !in tables.metric && |trial.calls| != 0 then Some(UsageCallUnexpected)
    else if trial.profileId == "candidate-high" && trial.scenarioId in tables.metric && total == 0 then
      Some(ZeroReferenceUsage)
    else None
  }

  function TrialCode(tables: Tables, bundle: Evaluation, trial: Trial): Option<Code> {
    if HeadCode(tables, bundle, trial).Some? then HeadCode(tables, bundle, trial)
    else if CallsCode(tables, bundle, trial).Some? then CallsCode(tables, bundle, trial)
    else TailCode(tables, bundle, trial, CallTokens(UsageByKey(bundle.usage), trial.calls))
  }

  function UsageAndProxyCode(tables: Tables, bundle: Evaluation): Option<Code> {
    FirstCode(bundle.trials, (trial: Trial) => TrialCode(tables, bundle, trial))
  }

  method VerifyTrial(tables: Tables, bundle: Evaluation, trial: Trial) returns (code: Option<Code>)
    ensures code == TrialCode(tables, bundle, trial)
  {
    var head := HeadCode(tables, bundle, trial);
    if head.Some? {
      return head;
    }
    var failed, total := VerifyTrialCalls(tables, bundle, trial);
    return if failed.Some? then failed else TailCode(tables, bundle, trial, total);
  }

  /** The calls of a trial, with their running total of tokens. */
  method VerifyTrialCalls(tables: Tables, bundle: Evaluation, trial: Trial) returns (code: Option<Code>, total: nat)
    ensures code == CallsCode(tables, bundle, trial)
    ensures code.None? ==> total == CallTokens(UsageByKey(bundle.usage), trial.calls)
  {
    ghost var check := (call: Call) => CallCode(tables, bundle, trial, call);
    var usageByKey := UsageByKey(bundle.usage);
    total := 0;
    for i := 0 to |trial.calls|
      invariant FirstCode(trial.calls, check) == FirstCode(trial.calls[i..], check)
      invariant total == CallTokens(usageByKey, trial.calls[..i])
    {
      var call := trial.calls[i];
      assert trial.calls[i..][0] == call && trial.calls[i..][1..] == trial.calls[i + 1..];
      var failed := CallCode(tables, bundle, trial, call);
      if failed.Some? {
        return failed, total;
      }
      total := total + usageByKey[call.key].promptTokens + usageByKey[call.key].completionTokens;
      assert trial.calls[..i + 1][..i] == trial.calls[..i];
    }
    assert trial.calls[..|trial.calls|] == trial.calls;
    return None, total;
  }

  method VerifyUsageAndProxy(tables: Tables, bundle: Evaluation) returns (code: Option<Code>)
    ensures code == UsageAndProxyCode(tables, bundle)
  {
    ghost var check := (trial: Trial) => TrialCode(tables, bundle, trial);
    for i := 0 to |bundle.trials|
      invariant FirstCode(bundle.trials, check) == FirstCode(bundle.trials[i..], check)
    {
      assert bundle.trials[i..][0] == bundle.trials[i] && bundle.trials[i..][1..] == bundle.trials[i + 1..];
      var failed := VerifyTrial(tables, bundle, bundle.trials[i]);
      if failed.Some? {
        return failed;
      }
    }
    return None;
  }
}
