/** What a bundle that passes the verifier guarantees. */
module BundleProofs {
  import opened Prelude
  import opened Bundle

  // ---------------------------------------------------------------------------
  // Counting members
  // ---------------------------------------------------------------------------

  /** A list has as many members as positions exactly when nothing repeats. */
  lemma {:induction false} CountIsDistinct<T>(s: seq<T>)
    ensures |Members(s)| == |s| <==> Distinct(s)
    ensures |Members(s)| <= |s|
  {
    if s != [] {
      var last, before := s[|s| - 1], s[..|s| - 1];
      CountIsDistinct(before);
      assert s == before + [last];
      assert Members(s) == Members(before) + {last};
      if last in before {
        assert Members(s) == Members(before);
        var i :| 0 <= i < |before| && before[i] == last;
        assert s[i] == s[|s| - 1];
      }
    }
  }

  // ---------------------------------------------------------------------------
  // Trials
  // ---------------------------------------------------------------------------

  function KeysOfScenario(s: string, profiles: seq<string>): seq<TrialKey> {
    if profiles == [] then []
    else [TrialKey(s, profiles[0], 1), TrialKey(s, profiles[0], 2), TrialKey(s, profiles[0], 3)]
         + KeysOfScenario(s, profiles[1..])
  }

  function AllKeys(scenarios: seq<string>, profiles: seq<string>): seq<TrialKey> {
    if scenarios == [] then [] else KeysOfScenario(scenarios[0], profiles) + AllKeys(scenarios[1..], profiles)
  }

  lemma Append<T>(a: seq<T>, b: seq<T>)
    requires Distinct(a) && Distinct(b) && forall x | x in a :: x !in b
    ensures Distinct(a + b)
  {
    var c := a + b;
    forall i, j | 0 <= i < j < |c| ensures c[i] != c[j] {
      if i < |a| <= j {
        assert a[i] in a && b[j - |a|] in b;
      }
    }
  }

  lemma {:induction false} ScenarioKeys(s: string, profiles: seq<string>)
    requires Distinct(profiles)
    ensures var keys := KeysOfScenario(s, profiles);
            && Distinct(keys)
            && forall k :: k in keys <==> k.scenarioId == s && k.profileId in profiles && 1 <= k.trial <= 3
  {
    if profiles != [] {
      var rest := profiles[1..];
      ScenarioKeys(s, rest);
      assert profiles == [profiles[0]] + rest && profiles[0] !in rest;
      Append([TrialKey(s, profiles[0], 1), TrialKey(s, profiles[0], 2), TrialKey(s, profiles[0], 3)], KeysOfScenario(s, rest));
    }
  }

  lemma {:induction false} ScenarioKeyCount(s: string, profiles: seq<string>)
    ensures |KeysOfScenario(s, profiles)| == |profiles| * 3
  {
    if profiles != [] {
      ScenarioKeyCount(s, profiles[1..]);
    }
  }

  lemma {:induction false} AllKeysDistinct(scenarios: seq<string>, profiles: seq<string>)
    requires Distinct(scenarios) && Distinct(profiles)
    ensures var keys := AllKeys(scenarios, profiles);
            && Distinct(keys)
            && forall k :: k in keys <==> k.scenarioId in scenarios && k.profileId in profiles && 1 <= k.trial <= 3
  {
    if scenarios != [] {
      var rest := scenarios[1..];
      ScenarioKeys(scenarios[0], profiles);
      AllKeysDistinct(rest, profiles);
      assert scenarios == [scenarios[0]] + rest && scenarios[0] !in rest;
      Append(KeysOfScenario(scenarios[0], profiles), AllKeys(rest, profiles));
    }
  }

  lemma {:induction false} AllKeysCount(scenarios: seq<string>, profiles: seq<string>)
    ensures |AllKeys(scenarios, profiles)| == |scenarios| * |profiles| * 3
  {
    if scenarios != [] {
      ScenarioKeyCount(scenarios[0], profiles);
      AllKeysCount(scenarios[1..], profiles);
      OneMore(|scenarios| - 1, |profiles|);
    }
  }

  lemma OneMore(n: int, m: int)
    ensures (n + 1) * m * 3 == m * 3 + n * m * 3
  {
  }

  /** The trials that pass are scenario by profile by {1, 2, 3}, each combination exactly once, each in a
      scope of its own. */
  lemma TrialsExactlyOnce(tables: Tables, bundle: Evaluation)
    requires Distinct(tables.scenarioIds) && Distinct(tables.profileIds)
    requires RightCount(tables, bundle) && ScopesDiffer(bundle) && TrialsCover(tables, bundle)
    ensures forall s, p, n | s in tables.scenarioIds && p in tables.profileIds && 1 <= n <= 3 ::
              exists i | 0 <= i < |bundle.trials| :: TrialKeyOf(bundle.trials[i]) == TrialKey(s, p, n)
    ensures forall i | 0 <= i < |bundle.trials| :: Expected(tables, TrialKeyOf(bundle.trials[i]))
    ensures forall i, j | 0 <= i < j < |bundle.trials| ::
              TrialKeyOf(bundle.trials[i]) != TrialKeyOf(bundle.trials[j]) && bundle.trials[i].scopeId != bundle.trials[j].scopeId
  {
    var keys := Map(bundle.trials, TrialKeyOf);
    var all := AllKeys(tables.scenarioIds, tables.profileIds);
    AllKeysDistinct(tables.scenarioIds, tables.profileIds);
    AllKeysCount(tables.scenarioIds, tables.profileIds);
    assert Members(keys) == Members(all);
    CountIsDistinct(all);
    CountIsDistinct(keys);
    CountIsDistinct(Map(bundle.trials, ScopeOf));
    forall i, j | 0 <= i < j < |bundle.trials|
      ensures TrialKeyOf(bundle.trials[i]) != TrialKeyOf(bundle.trials[j])
      ensures bundle.trials[i].scopeId != bundle.trials[j].scopeId
    {
      assert keys[i] != keys[j];
      assert Map(bundle.trials, ScopeOf)[i] != Map(bundle.trials, ScopeOf)[j];
    }
    forall s, p, n | s in tables.scenarioIds && p in tables.profileIds && 1 <= n <= 3
      ensures exists i | 0 <= i < |bundle.trials| :: TrialKeyOf(bundle.trials[i]) == TrialKey(s, p, n)
    {
      assert TrialKey(s, p, n) in Members(keys);
      var i :| 0 <= i < |keys| && keys[i] == TrialKey(s, p, n);
      assert TrialKeyOf(bundle.trials[i]) == TrialKey(s, p, n);
    }
    forall i | 0 <= i < |bundle.trials| ensures Expected(tables, TrialKeyOf(bundle.trials[i])) {
      assert keys[i] in Members(keys);
    }
  }

  // ---------------------------------------------------------------------------
  // Calls
  // ---------------------------------------------------------------------------

  function CallKeys(bundle: Evaluation): seq<CallKey> { Map(WorkflowCalls(bundle.trials), CallKeyOf) }

  function UsageKeys(bundle: Evaluation): seq<CallKey> { Map(bundle.usage, UsageKeyOf) }

  function ProxyKeys(bundle: Evaluation): seq<CallKey> { Map(bundle.proxy, ProxyKeyOf) }

  /** Calls pass exactly when workflow calls, usage rows and proxy rows carry the same keys, each key once
      in each list, and the proxy rows are numbered 1..n in order. */
  lemma CallsPassIff(bundle: Evaluation)
    ensures VerifyCalls(bundle).None? <==>
              && multiset(CallKeys(bundle)) == multiset(UsageKeys(bundle)) == multiset(ProxyKeys(bundle))
              && Distinct(CallKeys(bundle))
              && forall i | 0 <= i < |bundle.proxy| :: bundle.proxy[i].key.proxyCallId == i + 1
  {
    var c, u, p := CallKeys(bundle), UsageKeys(bundle), ProxyKeys(bundle);
    CountIsDistinct(c);
    CountIsDistinct(u);
    CountIsDistinct(p);
    if VerifyCalls(bundle).None? {
      SameMembers(c, u);
      SameMembers(c, p);
    }
    if multiset(c) == multiset(u) == multiset(p) && Distinct(c) {
      Permuted(c, u);
      Permuted(c, p);
    }
  }

  /** Lists without repetition and with the same members hold the same elements equally often. */
  lemma SameMembers<T>(a: seq<T>, b: seq<T>)
    requires Distinct(a) && Distinct(b) && Members(a) == Members(b)
    ensures multiset(a) == multiset(b)
  {
    forall x ensures multiset(a)[x] == multiset(b)[x] {
      if x in Members(a) {
        assert x in Members(b);
        CountOne(a, x);
        CountOne(b, x);
      } else {
        assert x !in Members(b) && x !in a && x !in b;
      }
    }
  }

  // ---------------------------------------------------------------------------
  // Tokens
  // ---------------------------------------------------------------------------

  function TrialTokens(trials: seq<Trial>): nat {
    if trials == [] then 0 else trials[0].workflowTokens + TrialTokens(trials[1..])
  }

  function UsageTokens(usage: seq<Usage>): nat {
    if usage == [] then 0 else UsageTokens(usage[..|usage| - 1]) + Tokens(usage[|usage| - 1])
  }

  function KeyTokens(rows: map<CallKey, Usage>, keys: seq<CallKey>): nat {
    if keys == [] then 0 else KeyTokens(rows, keys[..|keys| - 1]) + TokensAt(rows, keys[|keys| - 1])
  }

  lemma {:induction false} KeyTokensAppend(rows: map<CallKey, Usage>, a: seq<CallKey>, b: seq<CallKey>)
    ensures KeyTokens(rows, a + b) == KeyTokens(rows, a) + KeyTokens(rows, b)
  {
    if b == [] {
      assert a + b == a;
    } else {
      assert (a + b)[..|a + b| - 1] == a + b[..|b| - 1];
      KeyTokensAppend(rows, a, b[..|b| - 1]);
    }
  }

  lemma KeyTokensOne(rows: map<CallKey, Usage>, k: CallKey)
    ensures KeyTokens(rows, [k]) == TokensAt(rows, k)
  {
    assert [k][..0] == [];
  }

  lemma {:induction false} KeyTokensForgetOrder(rows: map<CallKey, Usage>, a: seq<CallKey>, b: seq<CallKey>)
    requires multiset(a) == multiset(b)
    ensures KeyTokens(rows, a) == KeyTokens(rows, b)
    decreases |a|
  {
    Permuted(a, b);
    if a != [] {
      var j := Without(a, b);
      KeyTokensForgetOrder(rows, a[1..], b[..j] + b[j + 1..]);
      KeyTokensSplit(rows, a, 0);
      KeyTokensSplit(rows, b, j);
      assert a[..0] + a[0 + 1..] == a[1..];
    }
  }

  lemma KeyTokensSplit(rows: map<CallKey, Usage>, s: seq<CallKey>, j: nat)
    requires j < |s|
    ensures KeyTokens(rows, s) == TokensAt(rows, s[j]) + KeyTokens(rows, s[..j] + s[j + 1..])
  {
    assert s == s[..j] + ([s[j]] + s[j + 1..]);
    KeyTokensAppend(rows, s[..j], [s[j]] + s[j + 1..]);
    KeyTokensAppend(rows, [s[j]], s[j + 1..]);
    KeyTokensAppend(rows, s[..j], s[j + 1..]);
    KeyTokensOne(rows, s[j]);
  }

  lemma {:induction false} CallTokensAreKeyTokens(rows: map<CallKey, Usage>, calls: seq<Call>)
    ensures CallTokens(rows, calls) == KeyTokens(rows, Map(calls, CallKeyOf))
  {
    if calls != [] {
      CallTokensAreKeyTokens(rows, calls[..|calls| - 1]);
      assert Map(calls, CallKeyOf)[..|calls| - 1] == Map(calls[..|calls| - 1], CallKeyOf);
    }
  }

  /** Trials whose own totals agree with the usage rows declare together what their calls' keys record. */
  lemma {:induction false} TrialsSum(rows: map<CallKey, Usage>, trials: seq<Trial>)
    requires forall t | t in trials :: t.workflowTokens == CallTokens(rows, t.calls)
    ensures TrialTokens(trials) == KeyTokens(rows, Map(WorkflowCalls(trials), CallKeyOf))
  {
    if trials != [] {
      assert trials[0] in trials;
      TrialsSum(rows, trials[1..]);
      CallTokensAreKeyTokens(rows, trials[0].calls);
      var a, b := Map(trials[0].calls, CallKeyOf), Map(WorkflowCalls(trials[1..]), CallKeyOf);
      assert Map(WorkflowCalls(trials), CallKeyOf) == a + b;
      KeyTokensAppend(rows, a, b);
    }
  }

  lemma {:induction false} UsageLookup(usage: seq<Usage>)
    requires Distinct(Map(usage, UsageKeyOf))
    ensures forall u | u in usage :: u.key in UsageByKey(usage) && UsageByKey(usage)[u.key] == u
  {
    if usage != [] {
      var before, last := usage[..|usage| - 1], usage[|usage| - 1];
      var keys := Map(usage, UsageKeyOf);
      forall i, j | 0 <= i < j < |before| ensures Map(before, UsageKeyOf)[i] != Map(before, UsageKeyOf)[j] {
        assert keys[i] != keys[j];
      }
      UsageLookup(before);
      forall u | u in usage ensures u.key in UsageByKey(usage) && UsageByKey(usage)[u.key] == u {
        var i :| 0 <= i < |usage| && usage[i] == u;
        if i < |before| {
          assert keys[i] != keys[|usage| - 1] && before[i] == u;
        }
      }
    }
  }

  lemma {:induction false} UsageSum(rows: map<CallKey, Usage>, usage: seq<Usage>)
    requires forall u | u in usage :: u.key in rows && rows[u.key] == u
    ensures UsageTokens(usage) == KeyTokens(rows, Map(usage, UsageKeyOf))
  {
    if usage != [] {
      var before := usage[..|usage| - 1];
      UsageSum(rows, before);
      assert usage[|usage| - 1] in usage;
      assert Map(usage, UsageKeyOf)[..|usage| - 1] == Map(before, UsageKeyOf);
    }
  }

  lemma PassingTrialsAgree(tables: Tables, bundle: Evaluation)
    requires UsageAndProxyCode(tables, bundle).None?
    ensures forall t | t in bundle.trials :: t.workflowTokens == CallTokens(UsageByKey(bundle.usage), t.calls)
  {
    forall t | t in bundle.trials ensures t.workflowTokens == CallTokens(UsageByKey(bundle.usage), t.calls) {
      assert TrialCode(tables, bundle, t).None?;
    }
  }

  /** In a bundle that passes, the tokens the trials declare are, all together, the prompt and completion
      tokens of all usage rows: nothing is counted twice and nothing is left out. */
  lemma TokensReconcile(tables: Tables, bundle: Evaluation)
    requires VerifyCalls(bundle).None? && UsageAndProxyCode(tables, bundle).None?
    ensures TrialTokens(bundle.trials) == UsageTokens(bundle.usage)
  {
    var rows := UsageByKey(bundle.usage);
    CallsPassIff(bundle);
    Permuted(CallKeys(bundle), UsageKeys(bundle));
    PassingTrialsAgree(tables, bundle);
    TrialsSum(rows, bundle.trials);
    KeyTokensForgetOrder(rows, CallKeys(bundle), UsageKeys(bundle));
    UsageLookup(bundle.usage);
    UsageSum(rows, bundle.usage);
  }

  // ---------------------------------------------------------------------------
  // What a passing trial guarantees of each of its calls
  // ---------------------------------------------------------------------------

  /** The call went over its actor's frozen route; only the critics bill the critic bucket, and actors that
      judge the work never bill the workflow. */
  ghost predicate RouteAllowed(call: Call) {
    && call.key.route == FrozenRoute(call.actorId)
    && (if call.bucket.CriticBucket? then call.actorId in {"momus", "reviewer"}
        else call.actorId !in {"evaluator", "critic", "momus"})
  }

  /** Some usage row of the call's key, whose parts do not exceed their wholes. */
  ghost predicate UsageRecorded(bundle: Evaluation, call: Call) {
    exists u :: u in bundle.usage && u.key == call.key
                && u.reasoningTokens <= u.completionTokens && u.cachedTokens <= u.promptTokens
  }

  /** The request was sampled deterministically, under the trial's settings and commit, and answered by the
      priced model at the priced revision. */
  ghost predicate Answered(trial: Trial, price: Price, p: Proxy) {
    && (p.temperature, p.topP, p.seed) == (0, 1, 0) && p.seedSource == "compat.extraBody" && p.terminal == "responded"
    && p.settingsHash == trial.settingsHash && p.modelConfigHash == trial.modelConfigHash
    && p.targetCommit == trial.targetCommit
    && p.modelId == p.returnedModelId == price.modelId && p.modelRevision == p.returnedRevision == price.modelRevision
  }

  ghost predicate ProxyRecorded(tables: Tables, bundle: Evaluation, trial: Trial, call: Call) {
    var price := PriceOf(tables, bundle, trial);
    price.Some? && exists p :: p in bundle.proxy && p.key == call.key && Answered(trial, price.value, p)
  }

  ghost predicate CallSound(tables: Tables, bundle: Evaluation, trial: Trial, call: Call) {
    RouteAllowed(call) && UsageRecorded(bundle, call) && ProxyRecorded(tables, bundle, trial, call)
  }

  /** Every actor of the scenario made as many calls as are required and no more than are allowed, in its
      own bucket, and nobody else made any. */
  ghost predicate WithinAllowance(authority: Authority, calls: seq<Call>) {
    && |calls| <= authority.workflowCallCount
    && (forall a | a in authority.actorCalls ::
          |Filter(authority.actorCalls, (x: ActorCalls) => x.actorId == a.actorId)| <= |ByActor(calls, a.actorId)| <= a.maxCalls)
    && (forall a, c | a in authority.actorCalls && c in calls && c.actorId == a.actorId :: c.bucket == a.bucket)
    && forall c | c in calls :: exists a :: a in authority.actorCalls && a.actorId == c.actorId
  }

  ghost predicate TrialSound(tables: Tables, bundle: Evaluation, trial: Trial) {
    && trial.scenarioId in tables.authorities
    && tables.hash(trial.scopeId) == trial.scopeHash && (forall c | c in trial.calls :: c.key.scopeId == trial.scopeId)
    && WithinAllowance(tables.authorities[trial.scenarioId], trial.calls)
    && trial.settingsHash == bundle.manifest.settingsHash && trial.modelConfigHash == bundle.manifest.modelConfigHash
    && trial.targetCommit == bundle.manifest.targetCommit
    && (forall c | c in trial.calls :: CallSound(tables, bundle, trial, c))
    && trial.workflowTokens == CallTokens(UsageByKey(bundle.usage), trial.calls)
    && (trial.profileId == "legacy-low" || trial.outcome.PASS?)
    && (trial.scenarioId in tables.metric || trial.calls == [])
    && (trial.profileId == "candidate-high" && trial.scenarioId in tables.metric ==> trial.workflowTokens > 0)
  }

  lemma {:induction false} UsageRows(usage: seq<Usage>)
    ensures forall k | k in UsageByKey(usage) :: UsageByKey(usage)[k] in usage && UsageByKey(usage)[k].key == k
  {
    if usage != [] {
      UsageRows(usage[..|usage| - 1]);
    }
  }

  lemma {:induction false} ProxyRows(proxy: seq<Proxy>)
    ensures forall k | k in ProxyByKey(proxy) :: ProxyByKey(proxy)[k] in proxy && ProxyByKey(proxy)[k].key == k
  {
    if proxy != [] {
      ProxyRows(proxy[..|proxy| - 1]);
    }
  }

  lemma {:induction false} ProxyLookup(proxy: seq<Proxy>)
    requires Distinct(Map(proxy, ProxyKeyOf))
    ensures forall p | p in proxy :: p.key in ProxyByKey(proxy) && ProxyByKey(proxy)[p.key] == p
  {
    if proxy != [] {
      var before, keys := proxy[..|proxy| - 1], Map(proxy, ProxyKeyOf);
      forall i, j | 0 <= i < j < |before| ensures Map(before, ProxyKeyOf)[i] != Map(before, ProxyKeyOf)[j] {
        assert keys[i] != keys[j];
      }
      ProxyLookup(before);
      forall p | p in proxy ensures p.key in ProxyByKey(proxy) && ProxyByKey(proxy)[p.key] == p {
        var i :| 0 <= i < |proxy| && proxy[i] == p;
        if i < |before| {
          assert keys[i] != keys[|proxy| - 1] && before[i] == p;
        }
      }
    }
  }

  lemma RouteIff(call: Call)
    ensures RouteCode(call).None? <==> RouteAllowed(call)
  {
  }

  lemma ProxyIff(trial: Trial, price: Option<Price>, p: Proxy)
    ensures ProxyCode(trial, price, p).None? <==> price.Some? && Answered(trial, price.value, p)
  {
  }

  lemma CallIff(tables: Tables, bundle: Evaluation, trial: Trial, call: Call)
    requires Distinct(UsageKeys(bundle)) && Distinct(ProxyKeys(bundle))
    requires call.key in UsageByKey(bundle.usage) && call.key in ProxyByKey(bundle.proxy)
    ensures CallCode(tables, bundle, trial, call).None? <==> CallSound(tables, bundle, trial, call)
  {
    var u, p := UsageByKey(bundle.usage)[call.key], ProxyByKey(bundle.proxy)[call.key];
    UsageRows(bundle.usage);
    UsageLookup(bundle.usage);
    ProxyRows(bundle.proxy);
    ProxyLookup(bundle.proxy);
    RouteIff(call);
    ProxyIff(trial, PriceOf(tables, bundle, trial), p);
    assert u in bundle.usage && p in bundle.proxy;
  }

  lemma AllowanceIff(authority: Authority, calls: seq<Call>)
    ensures WithinAllowance(authority, calls) <==>
            && |calls| <= authority.workflowCallCount && AllowanceCode(authority, calls).None?
            && !(exists c | c in calls :: forall a | a in authority.actorCalls :: a.actorId != c.actorId)
  {
    forall a | a in authority.actorCalls
      ensures ActorCode(authority, calls, a).None? <==>
              && |Filter(authority.actorCalls, (x: ActorCalls) => x.actorId == a.actorId)| <= |ByActor(calls, a.actorId)| <= a.maxCalls
              && forall c | c in calls && c.actorId == a.actorId :: c.bucket == a.bucket
    {
    }
  }

  lemma {:induction false} WorkflowCallsMembers(trials: seq<Trial>, t: Trial, c: Call)
    requires t in trials && c in t.calls
    ensures c in WorkflowCalls(trials)
  {
    if trials[0] != t {
      WorkflowCallsMembers(trials[1..], t, c);
    }
  }

  /** A trial's calls all have their rows once the keys are in bijection. */
  lemma CallsHaveRows(bundle: Evaluation, trial: Trial, call: Call)
    requires VerifyCalls(bundle).None? && trial in bundle.trials && call in trial.calls
    ensures Distinct(UsageKeys(bundle)) && Distinct(ProxyKeys(bundle))
    ensures call.key in UsageByKey(bundle.usage) && call.key in ProxyByKey(bundle.proxy)
  {
    CallsPassIff(bundle);
    var keys := CallKeys(bundle);
    Permuted(keys, UsageKeys(bundle));
    Permuted(keys, ProxyKeys(bundle));
    WorkflowCallsMembers(bundle.trials, trial, call);
    var i :| 0 <= i < |WorkflowCalls(bundle.trials)| && WorkflowCalls(bundle.trials)[i] == call;
    assert keys[i] in UsageKeys(bundle) && keys[i] in ProxyKeys(bundle);
    var j :| 0 <= j < |bundle.usage| && UsageKeys(bundle)[j] == call.key;
    var k :| 0 <= k < |bundle.proxy| && ProxyKeys(bundle)[k] == call.key;
    UsageLookup(bundle.usage);
    ProxyLookup(bundle.proxy);
    assert bundle.usage[j] in bundle.usage && bundle.proxy[k] in bundle.proxy;
  }

  /** Once calls are matched with their rows, a trial passes if and only if it is sound. */
  lemma TrialPassesIff(tables: Tables, bundle: Evaluation, trial: Trial)
    requires VerifyCalls(bundle).None? && trial in bundle.trials
    ensures TrialCode(tables, bundle, trial).None? <==> TrialSound(tables, bundle, trial)
  {
    TrialCallsIff(tables, bundle, trial);
    TailIff(tables, bundle, trial, CallTokens(UsageByKey(bundle.usage), trial.calls));
    if trial.scenarioId in tables.authorities {
      HeadIff(tables, bundle, trial);
    }
  }

  lemma TrialCallsIff(tables: Tables, bundle: Evaluation, trial: Trial)
    requires VerifyCalls(bundle).None? && trial in bundle.trials
    ensures CallsCode(tables, bundle, trial).None? <==> forall c | c in trial.calls :: CallSound(tables, bundle, trial, c)
  {
    forall c | c in trial.calls
      ensures CallCode(tables, bundle, trial, c).None? <==> CallSound(tables, bundle, trial, c)
    {
      CallsHaveRows(bundle, trial, c);
      CallIff(tables, bundle, trial, c);
    }
  }

  lemma TailIff(tables: Tables, bundle: Evaluation, trial: Trial, total: nat)
    ensures TailCode(tables, bundle, trial, total).None? <==>
            && trial.workflowTokens == total && trial.targetCommit == bundle.manifest.targetCommit
            && (trial.profileId == "legacy-low" || trial.outcome.PASS?)
            && (trial.scenarioId in tables.metric || trial.calls == [])
            && (trial.profileId == "candidate-high" && trial.scenarioId in tables.metric ==> trial.workflowTokens > 0)
  {
  }

  lemma HeadIff(tables: Tables, bundle: Evaluation, trial: Trial)
    requires trial.scenarioId in tables.authorities
    ensures HeadCode(tables, bundle, trial).None? <==>
            && tables.hash(trial.scopeId) == trial.scopeHash && (forall c | c in trial.calls :: c.key.scopeId == trial.scopeId)
            && WithinAllowance(tables.authorities[trial.scenarioId], trial.calls)
            && trial.settingsHash == bundle.manifest.settingsHash && trial.modelConfigHash == bundle.manifest.modelConfigHash
  {
    AllowanceIff(tables.authorities[trial.scenarioId], trial.calls);
  }

  /** The loop over the trials passes if and only if every trial is sound. */
  lemma UsageAndProxyPassIff(tables: Tables, bundle: Evaluation)
    requires VerifyCalls(bundle).None?
    ensures UsageAndProxyCode(tables, bundle).None? <==> forall t | t in bundle.trials :: TrialSound(tables, bundle, t)
  {
    forall t | t in bundle.trials
      ensures TrialCode(tables, bundle, t).None? <==> TrialSound(tables, bundle, t)
    {
      TrialPassesIff(tables, bundle, t);
    }
  }
}
