/**
 The evaluation engine: a chain of precedence over a flag snapshot and a context.

   environment missing -> default; override; disabled -> default; targeting; rollout; default
 */
module Evaluation {
  import opened Values
  import opened StableSorting
  import opened Targeting
  import opened Rollout
  import Names

  /** The configuration of one environment, as stored in JSON: any field may be absent. */
  datatype EnvDict = EnvDict(
    enabled: Option<bool>,
    forced: Option<Value>,
    rolloutPercentage: Option<int>,
    rules: Option<seq<RuleDict>>
  )

  type Environments = map<string, EnvDict>

  /** A flag snapshot as the cache holds it. */
  datatype FlagDict = FlagDict(
    id: Option<nat>,
    key: Option<string>,
    name: Option<string>,
    flagType: Option<string>,
    defaultValue: Option<Value>,
    environments: Option<Environments>,
    version: Option<int>
  )

  datatype Context = Context(userId: string, environment: string, attributes: Attributes)

  /** `EvaluationContext(...)` with its two validators applied. */
  function MakeContext(h: Host, userId: string, environment: string, attributes: Attributes): Context {
    Context(Names.Strip(h, userId), Names.NormalizeEnvironment(h, environment), attributes)
  }

  /** The context a request calls for: its attributes, its user id and, lowered, its environment without outer space. */
  ghost predicate IsContextOf(h: Host, userId: string, environment: string, attributes: Attributes, ctx: Context) {
    && ctx.attributes == attributes
    && Names.Stripped(h, userId, ctx.userId)
    && exists name :: Names.Stripped(h, environment, name) && ctx.environment == h.lower(name)
  }

  lemma ContextMeaning(h: Host, userId: string, environment: string, attributes: Attributes, ctx: Context)
    ensures IsContextOf(h, userId, environment, attributes, ctx) <==>
      ctx == MakeContext(h, userId, environment, attributes)
  {
    Names.StripMeaning(h, userId, ctx.userId);
    forall name ensures Names.Stripped(h, environment, name) <==> name == Names.Strip(h, environment) {
      Names.StripMeaning(h, environment, name);
    }
  }

  datatype Reason = OVERRIDE | TARGETING_MATCH | ROLLOUT | DEFAULT | FLAG_DISABLED | FLAG_NOT_FOUND

  datatype EvaluationResult = EvaluationResult(
    flagKey: string, value: Value, reason: Reason, environment: string, flagVersion: int)

  /** Value and reason: what a caller acts on. */
  datatype Decision = Decision(value: Value, reason: Reason)

  function PriorityOf(): RuleDict -> int {
    (rule: RuleDict) => rule.priority.GetOr(0)
  }

  /** Sort by priority, then the first rule that matches. */
  function MatchedRule(h: Host, rules: seq<RuleDict>, attributes: Attributes): Option<RuleDict> {
    if rules == [] then None
    else FindMatchingRule(h, StableSort(rules, PriorityOf()), attributes)
  }

  /** The precedence chain below the environment lookup, once the rules have been searched. */
  function DecideGiven(h: Host, flagKey: string, defaultValue: Value, env: EnvDict, matched: Option<RuleDict>,
                       ctx: Context): Decision
  {
    var forced := env.forced.GetOr(Null);
    if forced != Null then Decision(forced, OVERRIDE)
    else if !env.enabled.GetOr(false) then Decision(defaultValue, FLAG_DISABLED)
    else if matched.Some? then Decision(matched.value.serve.GetOr(Null), TARGETING_MATCH)
    else if IsInRollout(h, flagKey, ctx.userId, env.rolloutPercentage.GetOr(0)) then Decision(Bool(true), ROLLOUT)
    else Decision(defaultValue, DEFAULT)
  }

  function Decide(h: Host, flagKey: string, defaultValue: Value, env: EnvDict, ctx: Context): Decision {
    DecideGiven(h, flagKey, defaultValue, env, MatchedRule(h, env.rules.GetOr([]), ctx.attributes), ctx)
  }

  function DecideFlag(h: Host, flagKey: string, defaultValue: Value, envs: Environments, ctx: Context): Decision {
    if ctx.environment in envs then Decide(h, flagKey, defaultValue, envs[ctx.environment], ctx)
    else Decision(defaultValue, DEFAULT)
  }

  function Evaluate(h: Host, flag: FlagDict, ctx: Context): EvaluationResult {
    var flagKey := flag.key.GetOr("unknown");
    var d := DecideFlag(h, flagKey, flag.defaultValue.GetOr(Null), flag.environments.GetOr(map[]), ctx);
    EvaluationResult(flagKey, d.value, d.reason, ctx.environment, flag.version.GetOr(0))
  }

  function DecisionOf(r: EvaluationResult): Decision {
    Decision(r.value, r.reason)
  }

  // ---------------------------------------------------------------- the winning rule

  lemma MatchedRuleIsWinner(h: Host, rules: seq<RuleDict>, attributes: Attributes)
    ensures MatchedRule(h, rules, attributes) == Winner(rules, PriorityOf(), Matches(h, attributes))
  {}

  /** `rules[i]` is the matching rule with the least (priority, position). */
  ghost predicate Wins(h: Host, rules: seq<RuleDict>, attributes: Attributes, i: nat) {
    && i < |rules| && EvaluateRule(h, rules[i], attributes)
    && forall j | 0 <= j < |rules| && EvaluateRule(h, rules[j], attributes) ::
         var p, q := rules[i].priority.GetOr(0), rules[j].priority.GetOr(0);
         p < q || (p == q && i <= j)
  }

  /** The rule that wins is the matching one with the least (priority, position); none wins iff none matches. */
  lemma WinningRule(h: Host, rules: seq<RuleDict>, attributes: Attributes) returns (w: nat)
    ensures MatchedRule(h, rules, attributes).None? <==>
      forall j | 0 <= j < |rules| :: !EvaluateRule(h, rules[j], attributes)
    ensures MatchedRule(h, rules, attributes).Some? ==>
      Wins(h, rules, attributes, w) && MatchedRule(h, rules, attributes) == Some(rules[w])
  {
    MatchedRuleIsWinner(h, rules, attributes);
    w := WinnerIsLeast(rules, PriorityOf(), Matches(h, attributes));
    assert forall r: RuleDict :: Matches(h, attributes)(r) == EvaluateRule(h, r, attributes);
    assert forall r: RuleDict :: PriorityOf()(r) == r.priority.GetOr(0);
  }

  /** The order in which rules with pairwise distinct priorities are stored is irrelevant. */
  lemma RuleOrderIrrelevant(h: Host, flagKey: string, defaultValue: Value, env: EnvDict, env': EnvDict, ctx: Context)
    requires env.rules.Some? && env'.rules.Some? && env' == env.(rules := env'.rules)
    requires multiset(env.rules.value) == multiset(env'.rules.value)
    requires var rules := env.rules.value;
      forall i, j | 0 <= i < j < |rules| :: rules[i].priority.GetOr(0) != rules[j].priority.GetOr(0)
    ensures Decide(h, flagKey, defaultValue, env, ctx) == Decide(h, flagKey, defaultValue, env', ctx)
  {
    var rules, rules' := env.rules.value, env'.rules.value;
    MatchedRuleIsWinner(h, rules, ctx.attributes);
    MatchedRuleIsWinner(h, rules', ctx.attributes);
    assert forall r: RuleDict :: PriorityOf()(r) == r.priority.GetOr(0);
    ReorderKeepsWinner(rules, rules', PriorityOf(), Matches(h, ctx.attributes));
  }

  // ---------------------------------------------------------------- precedence

  /**
   The documented precedence, as conditions on the configuration alone. Exactly one case applies,
   because every case excludes the ones before it.
   */
  lemma Precedence(h: Host, flag: FlagDict, ctx: Context)
    ensures
      var result := Evaluate(h, flag, ctx);
      var d := Decision(result.value, result.reason);
      var flagKey := if flag.key.Some? then flag.key.value else "unknown";
      var configured := ctx.environment in flag.environments.GetOr(map[]);
      && result.flagKey == flagKey && result.environment == ctx.environment
      && result.flagVersion == (if flag.version.Some? then flag.version.value else 0)
      && (!configured ==> d == Decision(flag.defaultValue.GetOr(Null), DEFAULT))
      && (configured ==>
            var env := flag.environments.value[ctx.environment];
            var rules, forced := env.rules.GetOr([]), env.forced.GetOr(Null);
            var decidable := forced == Null && env.enabled.GetOr(false);
            var anyMatch := exists i | 0 <= i < |rules| :: EvaluateRule(h, rules[i], ctx.attributes);
            var v: int := h.hash(flagKey + ":" + ctx.userId);
            var inBucket := (if v < 0 then -v else v) % 10_000 < env.rolloutPercentage.GetOr(0) * 100;
            && (forced != Null <==> d.reason == OVERRIDE)
            && (forced == Null && !env.enabled.GetOr(false) <==> d.reason == FLAG_DISABLED)
            && (decidable && anyMatch <==> d.reason == TARGETING_MATCH)
            && (decidable && !anyMatch && inBucket <==> d.reason == ROLLOUT)
            && (decidable && !anyMatch && !inBucket <==> d.reason == DEFAULT)
            && (d.reason == OVERRIDE ==> d.value == forced)
            && (d.reason == FLAG_DISABLED || d.reason == DEFAULT ==> d.value == flag.defaultValue.GetOr(Null))
            && (d.reason == TARGETING_MATCH ==>
                  exists i: nat :: Wins(h, rules, ctx.attributes, i) && d.value == rules[i].serve.GetOr(Null))
            && (d.reason == ROLLOUT ==> d.value == Bool(true)))
  {
    if ctx.environment in flag.environments.GetOr(map[]) {
      var env := flag.environments.value[ctx.environment];
      var w := WinningRule(h, env.rules.GetOr([]), ctx.attributes);
      RolloutMeaning(h, flag.key.GetOr("unknown"), ctx.userId, env.rolloutPercentage.GetOr(0));
      if MatchedRule(h, env.rules.GetOr([]), ctx.attributes).Some? {
        assert Wins(h, env.rules.GetOr([]), ctx.attributes, w);
      }
    }
  }

  // ---------------------------------------------------------------- raising the rollout

  /** Raising the percentage changes a decision in one way only: DEFAULT becomes ROLLOUT with True. */
  lemma RaisingRollout(h: Host, flagKey: string, defaultValue: Value, env: EnvDict, ctx: Context, p: int, q: int)
    requires p <= q
    ensures
      var low := Decide(h, flagKey, defaultValue, env.(rolloutPercentage := Some(p)), ctx);
      var high := Decide(h, flagKey, defaultValue, env.(rolloutPercentage := Some(q)), ctx);
      var v: int := h.hash(flagKey + ":" + ctx.userId);
      var bucket := (if v < 0 then -v else v) % 10_000;
      && (low.reason != DEFAULT ==> high == low)
      && (low.reason == DEFAULT ==> high == if bucket < q * 100 then Decision(Bool(true), ROLLOUT) else low)
  {
    RolloutMeaning(h, flagKey, ctx.userId, p);
    RolloutMeaning(h, flagKey, ctx.userId, q);
  }
}
