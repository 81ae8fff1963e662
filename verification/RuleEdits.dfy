/**
 The edits the endpoints make to the environments of a flag, as values, and what each of them does
 to decisions.
 */
module RuleEdits {
  import opened Values
  import opened StableSorting
  import opened Targeting
  import opened Evaluation
  import Names

  const NEW_ENVIRONMENT: EnvDict := EnvDict(Some(false), Some(Null), Some(0), Some([]))

  function EnvironmentOrNew(envs: Environments, name: string): EnvDict {
    if name in envs then envs[name] else NEW_ENVIRONMENT
  }

  function SetEnabled(envs: Environments, name: string, on: bool): Environments {
    envs[name := EnvironmentOrNew(envs, name).(enabled := Some(on))]
  }

  function Replacing(id: string, rule: RuleDict): RuleDict -> RuleDict {
    (r: RuleDict) => if r.id == Some(id) then rule else r
  }

  function Keeping(id: string): RuleDict -> bool {
    (r: RuleDict) => r.id != Some(id)
  }

  datatype RuleEdit = Append(rule: RuleDict) | Replace(ruleId: string, rule: RuleDict) | Drop(ruleId: string)

  /** The edited rule list. Replacing an id no rule has is an error; removing one is not. */
  function EditedRules(rules: seq<RuleDict>, edit: RuleEdit): Result<seq<RuleDict>, HttpError> {
    match edit
    case Append(rule) => Ok(rules + [rule])
    case Replace(id, rule) =>
      if exists i | 0 <= i < |rules| :: rules[i].id == Some(id) then Ok(Map(Replacing(id, rule), rules))
      else Err(NotFound404)
    case Drop(id) => Ok(Filter(rules, Keeping(id)))
  }

  /** The edited environments. Only adding a rule creates a missing environment. */
  function Edited(envs: Environments, name: string, edit: RuleEdit): Result<Environments, HttpError> {
    if name !in envs && !edit.Append? then Err(NotFound404)
    else
      var env := EnvironmentOrNew(envs, name);
      var rules := EditedRules(env.rules.GetOr([]), edit);
      if rules.Err? then Err(rules.error) else Ok(envs[name := env.(rules := Some(rules.value))])
  }

  /** The rule that wins in an environment, among all its rules. */
  function WinnerIn(h: Host, env: EnvDict, ctx: Context): Option<RuleDict> {
    Winner(env.rules.GetOr([]), PriorityOf(), Matches(h, ctx.attributes))
  }

  /** Do overrides and the enabled switch let the rules decide at all? */
  predicate RulesDecide(env: EnvDict) {
    env.forced.GetOr(Null) == Null && env.enabled.GetOr(false)
  }

  /** Same winner, same decision: nothing else about the rules matters. */
  lemma SameWinnerSameDecision(h: Host, flagKey: string, defaultValue: Value, env: EnvDict, env': EnvDict, ctx: Context)
    requires env' == env.(rules := env'.rules)
    requires WinnerIn(h, env, ctx) == WinnerIn(h, env', ctx)
    ensures Decide(h, flagKey, defaultValue, env', ctx) == Decide(h, flagKey, defaultValue, env, ctx)
  {}

  // ---------------------------------------------------------------- what the edits store

  /** The rules of an environment, none when it is missing. */
  function RulesIn(envs: Environments, name: string): seq<RuleDict> {
    if name in envs && envs[name].rules.Some? then envs[name].rules.value else []
  }

  /** Switching an environment touches its switch only; a new one starts without override, rollout and rules. */
  lemma ToggledEnvironment(envs: Environments, name: string, on: bool)
    ensures var after := SetEnabled(envs, name, on);
      && after.Keys == envs.Keys + {name} && (forall e | e in envs && e != name :: after[e] == envs[e])
      && after[name].enabled == Some(on)
      && (name in envs ==>
            && after[name].forced == envs[name].forced && after[name].rules == envs[name].rules
            && after[name].rolloutPercentage == envs[name].rolloutPercentage)
      && (name !in envs ==>
            && after[name].forced == Some(Null) && after[name].rolloutPercentage == Some(0)
            && after[name].rules == Some([]))
  {}

  /**
   An edit is refused with 404 when the environment is missing, unless a rule is added to it, or when
   no rule has the id to replace. Otherwise the rules of that environment change and nothing else does.
   */
  lemma EditedEnvironment(envs: Environments, name: string, edit: RuleEdit)
    ensures var edited := Edited(envs, name, edit);
      && (edited.Err? <==>
            || (name !in envs && !edit.Append?)
            || (edit.Replace? && forall r | r in RulesIn(envs, name) :: r.id != Some(edit.ruleId)))
      && (edited.Err? ==> edited.error == NotFound404)
      && (edited.Ok? ==>
            var after := edited.value;
            && after.Keys == envs.Keys + {name} && after[name].rules.Some?
            && (forall e | e in envs && e != name :: after[e] == envs[e])
            && (name in envs ==>
                  && after[name].enabled == envs[name].enabled && after[name].forced == envs[name].forced
                  && after[name].rolloutPercentage == envs[name].rolloutPercentage)
            && (name !in envs ==>
                  && after[name].enabled == Some(false) && after[name].forced == Some(Null)
                  && after[name].rolloutPercentage == Some(0)))
  {}

  /** Appending keeps the rules and puts the new one last; replacing puts it where the id was. */
  lemma StoredRules(envs: Environments, name: string, edit: RuleEdit)
    requires Edited(envs, name, edit).Ok?
    ensures var rules, rules' := RulesIn(envs, name), RulesIn(Edited(envs, name, edit).value, name);
      && (edit.Append? ==> rules < rules' && |rules'| == |rules| + 1 && rules'[|rules|] == edit.rule)
      && (edit.Replace? ==>
            && |rules'| == |rules|
            && forall i | 0 <= i < |rules| ::
                 rules'[i] == if rules[i].id == Some(edit.ruleId) then edit.rule else rules[i])
  {}

  /** The positions before `i` of rules with another id. */
  function OtherRules(rules: seq<RuleDict>, id: string, i: nat): set<nat>
    requires i <= |rules|
  {
    set j: nat | 0 <= j < i && rules[j].id != Some(id)
  }

  /** Deleting removes every rule with the id; the others are all there, in order and with multiplicity. */
  lemma RemainingRules(envs: Environments, name: string, id: string)
    requires name in envs
    ensures Edited(envs, name, Drop(id)).Ok?
    ensures var rules, rules' := RulesIn(envs, name), RulesIn(Edited(envs, name, Drop(id)).value, name);
      && (forall r | r in rules' :: r.id != Some(id))
      && |rules'| == |OtherRules(rules, id, |rules|)|
      && forall i | 0 <= i < |rules| && rules[i].id != Some(id) ::
           |OtherRules(rules, id, i)| < |rules'| && rules'[|OtherRules(rules, id, i)|] == rules[i]
  {
    var rules := RulesIn(envs, name);
    FilterPlaces(rules, Keeping(id));
    forall i: nat | i <= |rules| ensures OtherRules(rules, id, i) == KeptBefore(rules, Keeping(id), i) {}
  }

  // ---------------------------------------------------------------- rules

  lemma AppendWinner(h: Host, rules: seq<RuleDict>, rule: RuleDict, ctx: Context)
    ensures var p := Matches(h, ctx.attributes);
      Winner(rules + [rule], PriorityOf(), p)
        == Better(Winner(rules, PriorityOf(), p),
                  if EvaluateRule(h, rule, ctx.attributes) then Some(rule) else None, PriorityOf())
  {
    var p := Matches(h, ctx.attributes);
    WinnerConcat(rules, [rule], PriorityOf(), p);
    assert [rule] == [rule] + [];
    WinnerCons(rule, [], PriorityOf(), p);
  }

  /**
   Appending a rule changes a decision exactly when the rules decide, the new rule matches, and no
   rule of lower or equal priority matched before; then the new rule is served.
   */
  lemma AppendedRule(h: Host, flagKey: string, defaultValue: Value, envs: Environments, rule: RuleDict, ctx: Context)
    requires ctx.environment in envs
    ensures
      var env := envs[ctx.environment];
      var before := WinnerIn(h, env, ctx);
      var takesOver :=
        && RulesDecide(env) && EvaluateRule(h, rule, ctx.attributes)
        && (before.None? || rule.priority.GetOr(0) < before.value.priority.GetOr(0));
      DecideFlag(h, flagKey, defaultValue, Edited(envs, ctx.environment, Append(rule)).value, ctx)
        == if takesOver then Decision(rule.serve.GetOr(Null), TARGETING_MATCH)
           else DecideFlag(h, flagKey, defaultValue, envs, ctx)
  {
    var env := envs[ctx.environment];
    var env' := Edited(envs, ctx.environment, Append(rule)).value[ctx.environment];
    AppendWinner(h, env.rules.GetOr([]), rule, ctx);
    MatchedRuleIsWinner(h, env.rules.GetOr([]), ctx.attributes);
    MatchedRuleIsWinner(h, env'.rules.GetOr([]), ctx.attributes);
  }

  /** Adding a rule to an environment that was not configured never serves it: the environment starts disabled. */
  lemma AppendedToNewEnvironment(h: Host, flagKey: string, defaultValue: Value, envs: Environments, rule: RuleDict,
                                 ctx: Context)
    requires ctx.environment !in envs
    ensures DecideFlag(h, flagKey, defaultValue, Edited(envs, ctx.environment, Append(rule)).value, ctx)
         == Decision(DecideFlag(h, flagKey, defaultValue, envs, ctx).value, FLAG_DISABLED)
  {}

  /** Deleting by id every rule but the winner changes no decision. */
  lemma DeletedRule(h: Host, flagKey: string, defaultValue: Value, envs: Environments, id: string, ctx: Context)
    requires ctx.environment in envs
    requires var w := WinnerIn(h, envs[ctx.environment], ctx); w.Some? ==> w.value.id != Some(id)
    ensures Edited(envs, ctx.environment, Drop(id)).Ok?
    ensures DecideFlag(h, flagKey, defaultValue, Edited(envs, ctx.environment, Drop(id)).value, ctx)
         == DecideFlag(h, flagKey, defaultValue, envs, ctx)
  {
    var env := envs[ctx.environment];
    FilterKeepsWinner(env.rules.GetOr([]), PriorityOf(), Matches(h, ctx.attributes), Keeping(id));
    var env' := Edited(envs, ctx.environment, Drop(id)).value[ctx.environment];
    SameWinnerSameDecision(h, flagKey, defaultValue, env, env', ctx);
  }

  /** The decision after any deletion, the winner's included: the best rule with another id decides. */
  lemma DeletedRuleDecision(h: Host, flagKey: string, defaultValue: Value, envs: Environments, id: string, ctx: Context)
    requires ctx.environment in envs
    ensures Edited(envs, ctx.environment, Drop(id)).Ok?
    ensures var env := envs[ctx.environment];
      var winner := Winner(env.rules.GetOr([]), PriorityOf(), Both(Keeping(id), Matches(h, ctx.attributes)));
      DecideFlag(h, flagKey, defaultValue, Edited(envs, ctx.environment, Drop(id)).value, ctx)
        == DecideGiven(h, flagKey, defaultValue, env, winner, ctx)
  {
    var env := envs[ctx.environment];
    var env' := Edited(envs, ctx.environment, Drop(id)).value[ctx.environment];
    FilterWinner(env.rules.GetOr([]), PriorityOf(), Matches(h, ctx.attributes), Keeping(id));
    MatchedRuleIsWinner(h, env'.rules.GetOr([]), ctx.attributes);
  }

  /** The rule as a candidate: itself when it matches. */
  function Candidate(rule: RuleDict, p: RuleDict -> bool): Option<RuleDict> {
    if p(rule) then Some(rule) else None
  }

  /** Behind a copy of the new rule, further copies of it never win. */
  lemma {:induction false} LaterCopiesLose(rules: seq<RuleDict>, id: string, rule: RuleDict, p: RuleDict -> bool)
    ensures Better(Candidate(rule, p), Winner(Map(Replacing(id, rule), rules), PriorityOf(), p), PriorityOf())
         == Better(Candidate(rule, p), Winner(rules, PriorityOf(), Both(Keeping(id), p)), PriorityOf())
  {
    if rules != [] {
      LaterCopiesLose(rules[1..], id, rule, p);
      assert rules == [rules[0]] + rules[1..];
      WinnerCons(rules[0], rules[1..], PriorityOf(), Both(Keeping(id), p));
      WinnerCons(Replacing(id, rule)(rules[0]), Map(Replacing(id, rule), rules[1..]), PriorityOf(), p);
    }
  }

  lemma MapFixes(f: RuleDict -> RuleDict, rules: seq<RuleDict>)
    requires forall i | 0 <= i < |rules| :: f(rules[i]) == rules[i]
    ensures Map(f, rules) == rules
  {}

  lemma MapConcat(f: RuleDict -> RuleDict, a: seq<RuleDict>, b: seq<RuleDict>)
    ensures Map(f, a + b) == Map(f, a) + Map(f, b)
  {}

  /** The winner after a replacement: the new rule competes from the place of the first rule it replaces. */
  function WinnerAfterReplacing(rules: seq<RuleDict>, i: nat, id: string, rule: RuleDict, p: RuleDict -> bool)
    : Option<RuleDict>
    requires i < |rules|
  {
    var ahead := Winner(rules[..i], PriorityOf(), p);
    var behind := Winner(rules[i + 1..], PriorityOf(), Both(Keeping(id), p));
    Better(ahead, Better(Candidate(rule, p), behind, PriorityOf()), PriorityOf())
  }

  lemma ReplacedWinner(rules: seq<RuleDict>, i: nat, id: string, rule: RuleDict, p: RuleDict -> bool)
    requires i < |rules| && rules[i].id == Some(id) && forall j | 0 <= j < i :: rules[j].id != Some(id)
    ensures Winner(Map(Replacing(id, rule), rules), PriorityOf(), p) == WinnerAfterReplacing(rules, i, id, rule, p)
  {
    var f := Replacing(id, rule);
    var ahead, behind := rules[..i], rules[i + 1..];
    assert rules == ahead + ([rules[i]] + behind);
    MapConcat(f, ahead, [rules[i]] + behind);
    MapConcat(f, [rules[i]], behind);
    MapFixes(f, ahead);
    WinnerConcat(ahead, [rule] + Map(f, behind), PriorityOf(), p);
    WinnerCons(rule, Map(f, behind), PriorityOf(), p);
    LaterCopiesLose(behind, id, rule, p);
  }

  /**
   The decision after a replacement, whatever is replaced: the precedence chain with the best of the
   rules ahead of the first replaced rule, the new rule, and the rules behind it that were kept.
   */
  lemma ReplacedRule(h: Host, flagKey: string, defaultValue: Value, envs: Environments, i: nat, id: string,
                     rule: RuleDict, ctx: Context)
    requires ctx.environment in envs
    requires var rules := envs[ctx.environment].rules.GetOr([]);
      i < |rules| && rules[i].id == Some(id) && forall j | 0 <= j < i :: rules[j].id != Some(id)
    ensures Edited(envs, ctx.environment, Replace(id, rule)).Ok?
    ensures var env := envs[ctx.environment];
      var winner := WinnerAfterReplacing(env.rules.GetOr([]), i, id, rule, Matches(h, ctx.attributes));
      DecideFlag(h, flagKey, defaultValue, Edited(envs, ctx.environment, Replace(id, rule)).value, ctx)
        == DecideGiven(h, flagKey, defaultValue, env, winner, ctx)
  {
    var env := envs[ctx.environment];
    var env' := Edited(envs, ctx.environment, Replace(id, rule)).value[ctx.environment];
    ReplacedWinner(env.rules.GetOr([]), i, id, rule, Matches(h, ctx.attributes));
    MatchedRuleIsWinner(h, env'.rules.GetOr([]), ctx.attributes);
  }

  /** The winner keeps its place, unless the new rule is better or stands ahead of it at the same priority. */
  lemma ReplacedWinnerStays(rules: seq<RuleDict>, i: nat, id: string, rule: RuleDict, p: RuleDict -> bool, w: nat)
    requires i < |rules| && rules[i].id == Some(id) && forall j | 0 <= j < i :: rules[j].id != Some(id)
    requires IsLeast(rules, PriorityOf(), p, w) && rules[w].id != Some(id)
    ensures var stays := !p(rule) || rules[w].priority.GetOr(0) < rule.priority.GetOr(0)
                         || (rules[w].priority.GetOr(0) == rule.priority.GetOr(0) && w < i);
      WinnerAfterReplacing(rules, i, id, rule, p) == Some(if stays then rules[w] else rule)
  {
    var rules' := Map(Replacing(id, rule), rules);
    ReplacedWinner(rules, i, id, rule, p);
    if !p(rule) || rules[w].priority.GetOr(0) < rule.priority.GetOr(0)
       || (rules[w].priority.GetOr(0) == rule.priority.GetOr(0) && w < i) {
      assert IsLeast(rules', PriorityOf(), p, w);
      LeastIsWinner(rules', PriorityOf(), p, w);
    } else {
      assert IsLeast(rules', PriorityOf(), p, i);
      LeastIsWinner(rules', PriorityOf(), p, i);
    }
  }

  // ---------------------------------------------------------------- environments

  /** Two configurations that differ at most in the environment `name`. */
  ghost predicate SameElsewhere(envs: Environments, envs': Environments, name: string) {
    forall e | e != name :: (e in envs <==> e in envs') && (e in envs ==> envs'[e] == envs[e])
  }

  lemma EditsStayInTheirEnvironment(envs: Environments, name: string, edit: RuleEdit, on: bool)
    ensures SameElsewhere(envs, SetEnabled(envs, name, on), name)
    ensures Edited(envs, name, edit).Ok? ==> SameElsewhere(envs, Edited(envs, name, edit).value, name)
  {}

  /** An edit of one environment changes no decision in another. */
  lemma EnvironmentFrame(h: Host, flagKey: string, defaultValue: Value, envs: Environments, envs': Environments,
                         name: string, ctx: Context)
    requires SameElsewhere(envs, envs', name) && ctx.environment != name
    ensures DecideFlag(h, flagKey, defaultValue, envs', ctx) == DecideFlag(h, flagKey, defaultValue, envs, ctx)
  {}

  /**
   Contexts carry normalised environment names and stored environments need not: whatever is edited
   under a name that normalisation would change is invisible to every request.
   */
  lemma UnreachableEnvironment(h: Host, flagKey: string, defaultValue: Value, envs: Environments, envs': Environments,
                               name: string, userId: string, environment: string, attributes: Attributes)
    requires Names.Lawful(h) && Names.NormalizeEnvironment(h, name) != name
    requires SameElsewhere(envs, envs', name)
    ensures var ctx := MakeContext(h, userId, environment, attributes);
      DecideFlag(h, flagKey, defaultValue, envs', ctx) == DecideFlag(h, flagKey, defaultValue, envs, ctx)
  {
    Names.NormalizeIdempotent(h, environment);
    EnvironmentFrame(h, flagKey, defaultValue, envs, envs', name, MakeContext(h, userId, environment, attributes));
  }

  /** Disabling an environment serves the default to everybody in it, unless an override is set. */
  lemma DisabledServesDefault(h: Host, flagKey: string, defaultValue: Value, envs: Environments, ctx: Context)
    ensures var forced := EnvironmentOrNew(envs, ctx.environment).forced.GetOr(Null);
      DecideFlag(h, flagKey, defaultValue, SetEnabled(envs, ctx.environment, false), ctx)
        == if forced == Null then Decision(defaultValue, FLAG_DISABLED) else Decision(forced, OVERRIDE)
  {}

  /** Enabling an environment that was not configured serves the default: no rule and no rollout comes with it. */
  lemma EnabledNewEnvironment(h: Host, flagKey: string, defaultValue: Value, envs: Environments, ctx: Context)
    requires ctx.environment !in envs
    ensures DecideFlag(h, flagKey, defaultValue, SetEnabled(envs, ctx.environment, true), ctx)
         == Decision(defaultValue, DEFAULT)
  {}

  /** Disabling and enabling again is enabling: no other field is touched on the way. */
  lemma DisableThenEnable(envs: Environments, name: string)
    ensures SetEnabled(SetEnabled(envs, name, false), name, true) == SetEnabled(envs, name, true)
    ensures name in envs && envs[name].enabled == Some(true) ==>
      SetEnabled(SetEnabled(envs, name, false), name, true) == envs
  {}
}
