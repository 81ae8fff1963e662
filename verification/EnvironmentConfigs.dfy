/**
 The typed view of an environment configuration: `from_dict` fills in what is absent and sorts the
 rules, `to_dict` writes every field back.
 */
module EnvironmentConfigs {
  import opened Values
  import opened StableSorting
  import opened Targeting
  import opened Evaluation

  datatype TargetingRule = TargetingRule(
    id: string, name: string, priority: int,
    conditions: seq<ConditionDict>, combinator: string, serve: Value)

  datatype EnvironmentConfig = EnvironmentConfig(
    enabled: bool, forced: Value, rolloutPercentage: int, rules: seq<TargetingRule>)

  /** A rule without an id makes `from_dict` fail. */
  datatype ParseError = MissingRuleId

  function ParseRule(r: RuleDict): TargetingRule {
    TargetingRule(r.id.GetOr(""), r.name.GetOr(""), r.priority.GetOr(0),
                  r.conditions.GetOr([]), r.combinator.GetOr("AND"), r.serve.GetOr(Null))
  }

  function RuleToDict(r: TargetingRule): RuleDict {
    RuleDict(Some(r.id), Some(r.name), Some(r.priority), Some(r.conditions), Some(r.combinator), Some(r.serve))
  }

  function RulePriority(): TargetingRule -> int {
    (r: TargetingRule) => r.priority
  }

  predicate AllHaveIds(d: EnvDict) {
    forall r | r in d.rules.GetOr([]) :: r.id.Some?
  }

  function FromDict(d: EnvDict): Result<EnvironmentConfig, ParseError> {
    if !AllHaveIds(d) then Err(MissingRuleId)
    else Ok(EnvironmentConfig(
      d.enabled.GetOr(false), d.forced.GetOr(Null), d.rolloutPercentage.GetOr(0),
      StableSort(Map(ParseRule, d.rules.GetOr([])), RulePriority())))
  }

  function ToDict(c: EnvironmentConfig): EnvDict {
    EnvDict(Some(c.enabled), Some(c.forced), Some(c.rolloutPercentage), Some(Map(RuleToDict, c.rules)))
  }

  /** `from_dict` as it runs: build the list rule by rule, sort it in place, fill in the fields. */
  method ParseConfig(d: EnvDict) returns (res: Result<EnvironmentConfig, ParseError>)
    ensures res.Ok? <==> forall r | r in d.rules.GetOr([]) :: r.id.Some?
    ensures res.Ok? ==>
      && res.value.enabled == (d.enabled.Some? && d.enabled.value)
      && res.value.forced == (if d.forced.Some? then d.forced.value else Null)
      && res.value.rolloutPercentage == (if d.rolloutPercentage.Some? then d.rolloutPercentage.value else 0)
    ensures res.Ok? ==> IsStableSort(Map(ParseRule, d.rules.GetOr([])), res.value.rules, RulePriority())
    ensures res == FromDict(d)
  {
    var dicts := d.rules.GetOr([]);
    var rules: seq<TargetingRule> := [];
    for i := 0 to |dicts|
      invariant |rules| == i
      invariant forall j | 0 <= j < i :: dicts[j].id.Some? && rules[j] == ParseRule(dicts[j])
    {
      if dicts[i].id.None? {
        return Err(MissingRuleId);
      }
      rules := rules + [ParseRule(dicts[i])];
    }
    assert rules == Map(ParseRule, dicts);
    SortIsStable(rules, RulePriority());
    rules := StableSort(rules, RulePriority());
    res := Ok(EnvironmentConfig(d.enabled.GetOr(false), d.forced.GetOr(Null), d.rolloutPercentage.GetOr(0), rules));
  }

  /** A parsed rule has the fields of the dictionary, with empty text, lists and null, 0 and AND for absent ones. */
  lemma ParsedRule(r: RuleDict)
    ensures var rule := ParseRule(r);
      && (r.id.Some? ==> rule.id == r.id.value)
      && rule.name == (if r.name.Some? then r.name.value else "")
      && rule.priority == (if r.priority.Some? then r.priority.value else 0)
      && rule.conditions == (if r.conditions.Some? then r.conditions.value else [])
      && rule.combinator == (if r.combinator.Some? then r.combinator.value else "AND")
      && rule.serve == (if r.serve.Some? then r.serve.value else Null)
  {}

  // ---------------------------------------------------------------- normalisation

  /** What is stored when a configuration is read and written back. */
  function Normalized(d: EnvDict): EnvDict
    requires FromDict(d).Ok?
  {
    ToDict(FromDict(d).value)
  }

  function NormalizedRule(): RuleDict -> RuleDict {
    (r: RuleDict) => RuleToDict(ParseRule(r))
  }

  lemma MapCompose(rules: seq<RuleDict>)
    ensures Map(RuleToDict, Map(ParseRule, rules)) == Map(NormalizedRule(), rules)
  {}

  /** The rules of a normalised configuration: each one completed, the list sorted. */
  lemma NormalizedRules(d: EnvDict)
    requires FromDict(d).Ok?
    ensures Normalized(d).rules == Some(Map(NormalizedRule(), StableSort(d.rules.GetOr([]), PriorityOf())))
  {
    var rules := d.rules.GetOr([]);
    MapSort(ParseRule, rules, PriorityOf(), RulePriority());
    MapCompose(StableSort(rules, PriorityOf()));
  }

  /** Reading a configuration and writing it back changes no decision for any context. */
  lemma NormalizationKeepsDecision(h: Host, flagKey: string, defaultValue: Value, d: EnvDict, ctx: Context)
    requires FromDict(d).Ok?
    ensures Decide(h, flagKey, defaultValue, Normalized(d), ctx) == Decide(h, flagKey, defaultValue, d, ctx)
  {
    var rules := d.rules.GetOr([]);
    var sorted := StableSort(rules, PriorityOf());
    var p := Matches(h, ctx.attributes);
    NormalizedRules(d);
    MatchedRuleIsWinner(h, rules, ctx.attributes);
    MatchedRuleIsWinner(h, Map(NormalizedRule(), sorted), ctx.attributes);
    SortKeepsWinner(rules, PriorityOf(), p);
    MapWinner(NormalizedRule(), sorted, PriorityOf(), p, PriorityOf(), p);
  }

  lemma RulesRoundTrip(rules: seq<TargetingRule>)
    ensures Map(ParseRule, Map(RuleToDict, rules)) == rules
  {}

  /** Writing a configuration and reading it back gives it back exactly when its rules are sorted. */
  lemma RoundTrip(c: EnvironmentConfig)
    ensures FromDict(ToDict(c)).Ok?
    ensures FromDict(ToDict(c)).value == c <==> Sorted(c.rules, RulePriority())
  {
    RulesRoundTrip(c.rules);
    SortIsStable(c.rules, RulePriority());
    if Sorted(c.rules, RulePriority()) {
      SortedIsFixed(c.rules, RulePriority());
    }
  }

  lemma NormalizationIdempotent(d: EnvDict)
    requires FromDict(d).Ok?
    ensures FromDict(Normalized(d)).Ok? && Normalized(Normalized(d)) == Normalized(d)
  {
    SortIsStable(Map(ParseRule, d.rules.GetOr([])), RulePriority());
    RoundTrip(FromDict(d).value);
  }
}
