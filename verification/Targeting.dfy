/**
 Targeting rules: ten operators, conditions combined by AND or OR, and a search for the first
 rule that matches. Rules and conditions are JSON objects, so every field may be absent.
 */
module Targeting {
  import opened Values
  import opened StableSorting

  type Attributes = map<string, Value>

  datatype ConditionDict = ConditionDict(
    attribute: Option<string>,
    operator: Option<string>,
    value: Option<Value>
  )

  datatype RuleDict = RuleDict(
    id: Option<string>,
    name: Option<string>,
    priority: Option<int>,
    conditions: Option<seq<ConditionDict>>,
    combinator: Option<string>,
    serve: Option<Value>
  )

  // ---------------------------------------------------------------- operators

  predicate InList(attr: Value, items: seq<Value>) {
    exists i | 0 <= i < |items| :: PyEq(attr, items[i])
  }

  predicate OccursAt(s: string, t: string, i: nat) {
    i <= |t| && s <= t[i..]
  }

  predicate IsSubstring(s: string, t: string) {
    exists i: nat | i <= |t| :: OccursAt(s, t, i)
  }

  /** `float(attr) < float(val)`, false when either conversion raises. */
  predicate FloatLess(h: Host, attr: Value, val: Value) {
    var a, v := ToFloat(h, attr), ToFloat(h, val);
    a.Some? && v.Some? && Less(a.value, v.value)
  }

  predicate FloatLessOrEqual(h: Host, attr: Value, val: Value) {
    var a, v := ToFloat(h, attr), ToFloat(h, val);
    a.Some? && v.Some? && (Less(a.value, v.value) || a.value == v.value)
  }

  /** The operator table; `None` for a name that is not in it. */
  function ApplyOperator(h: Host, op: string, attr: Value, val: Value): Option<bool> {
    match op
    case "eq" => Some(PyEq(attr, val))
    case "neq" => Some(!PyEq(attr, val))
    case "in" => Some(val.List? && InList(attr, val.items))
    case "not_in" => Some(val.List? ==> !InList(attr, val.items))
    case "contains" => Some(attr.Str? && val.Str? && IsSubstring(val.s, attr.s))
    case "starts_with" => Some(attr.Str? && val.Str? && val.s <= attr.s)
    case "gt" => Some(FloatLess(h, val, attr))
    case "gte" => Some(FloatLessOrEqual(h, val, attr))
    case "lt" => Some(FloatLess(h, attr, val))
    case "lte" => Some(FloatLessOrEqual(h, attr, val))
    case _ => None
  }

  lemma OccurrenceSplits(s: string, t: string, i: nat)
    requires OccursAt(s, t, i)
    ensures t == t[..i] + s + t[i + |s|..]
  {
    assert t == t[..i] + t[i..];
    assert t[i..] == s + t[i..][|s|..];
  }

  lemma SplitOccurs(a: string, s: string, b: string)
    ensures OccursAt(s, a + s + b, |a|)
  {
    assert (a + s + b)[|a|..] == s + b;
  }

  /** `contains` is containment. */
  lemma ContainsOperator(h: Host, s: string, t: string)
    ensures ApplyOperator(h, "contains", Str(t), Str(s)) == Some(IsSubstring(s, t))
    ensures IsSubstring(s, t) <==> exists a, b: string :: t == a + s + b
  {
    if IsSubstring(s, t) {
      var i: nat :| i <= |t| && OccursAt(s, t, i);
      OccurrenceSplits(s, t, i);
    }
    if a, b: string :| t == a + s + b {
      SplitOccurs(a, s, b);
    }
  }

  /** `starts_with` is being a prefix. */
  lemma StartsWithOperator(h: Host, s: string, t: string)
    ensures ApplyOperator(h, "starts_with", Str(t), Str(s)) == Some(s <= t)
    ensures s <= t <==> exists b: string :: t == s + b
  {
    if s <= t { assert t == s + t[|s|..]; }
  }

  /** On numbers that convert exactly, the order operators compare, attribute first. */
  lemma NumberOperators(h: Host, x: real, y: real)
    requires ConvertsExactly(h, x) && ConvertsExactly(h, y)
    ensures ApplyOperator(h, "gt", Num(x), Num(y)) == Some(x > y)
    ensures ApplyOperator(h, "gte", Num(x), Num(y)) == Some(x >= y)
    ensures ApplyOperator(h, "lt", Num(x), Num(y)) == Some(x < y)
    ensures ApplyOperator(h, "lte", Num(x), Num(y)) == Some(x <= y)
  {}

  /** An operand that is too large for a float fails every order comparison, and with it the condition. */
  lemma OverflowFailsCondition(h: Host, c: ConditionDict, attributes: Attributes, n: real)
    requires c.operator.GetOr("eq") in {"gt", "gte", "lt", "lte"} && h.floatOf(n).None?
    requires Actual(c, attributes) == Num(n) || c.value == Some(Num(n))
    ensures !EvaluateCondition(h, c, attributes)
  {}

  /** A value is in a list exactly when it equals, in Python's sense, one of the items. */
  lemma MembershipRespectsEquality(h: Host, attr: Value, attr': Value, items: seq<Value>)
    requires PyEq(attr, attr')
    ensures ApplyOperator(h, "in", attr, List(items)) == ApplyOperator(h, "in", attr', List(items))
  {
    PyEqSymmetric(attr, attr');
    forall i | 0 <= i < |items| ensures PyEq(attr, items[i]) <==> PyEq(attr', items[i]) {
      if PyEq(attr, items[i]) { PyEqTransitive(attr', attr, items[i]); }
      if PyEq(attr', items[i]) { PyEqTransitive(attr, attr', items[i]); }
    }
  }

  // ---------------------------------------------------------------- conditions and rules

  function Actual(c: ConditionDict, attributes: Attributes): Value {
    var name := c.attribute.GetOr("");
    if name in attributes then attributes[name] else Null
  }

  /** An unknown operator fails the condition. */
  predicate EvaluateCondition(h: Host, c: ConditionDict, attributes: Attributes) {
    ApplyOperator(h, c.operator.GetOr("eq"), Actual(c, attributes), c.value.GetOr(Null)).GetOr(false)
  }

  function UpperChar(c: char): char {
    if 'a' <= c <= 'z' then c - 'a' + 'A' else c
  }

  function Upper(s: string): string {
    if s == "" then "" else [UpperChar(s[0])] + Upper(s[1..])
  }

  predicate AnyHolds(h: Host, conditions: seq<ConditionDict>, attributes: Attributes) {
    exists i | 0 <= i < |conditions| :: EvaluateCondition(h, conditions[i], attributes)
  }

  predicate AllHold(h: Host, conditions: seq<ConditionDict>, attributes: Attributes) {
    forall i | 0 <= i < |conditions| :: EvaluateCondition(h, conditions[i], attributes)
  }

  /** No condition, no match; anything but OR means AND. */
  predicate EvaluateRule(h: Host, rule: RuleDict, attributes: Attributes) {
    var conditions := rule.conditions.GetOr([]);
    && conditions != []
    && if Upper(rule.combinator.GetOr("AND")) == "OR" then AnyHolds(h, conditions, attributes)
       else AllHold(h, conditions, attributes)
  }

  function Matches(h: Host, attributes: Attributes): RuleDict -> bool {
    (rule: RuleDict) => EvaluateRule(h, rule, attributes)
  }

  function FindMatchingRule(h: Host, rules: seq<RuleDict>, attributes: Attributes): Option<RuleDict> {
    FirstMatch(rules, Matches(h, attributes))
  }

  // ---------------------------------------------------------------- what conditions and rules mean

  /** The condition applies operator `op` to the attribute's value `attr` and the operand `val`. */
  ghost predicate Applies(c: ConditionDict, attributes: Attributes, op: string, attr: Value, val: Value) {
    var name := if c.attribute.Some? then c.attribute.value else "";
    && op == (if c.operator.Some? then c.operator.value else "eq")
    && attr == (if name in attributes then attributes[name] else Null)
    && val == (if c.value.Some? then c.value.value else Null)
  }

  /** Equality is Python's, and membership is equality with some item; operands that are no lists have no items. */
  lemma EqualityConditions(h: Host, c: ConditionDict, attributes: Attributes, op: string, attr: Value, val: Value)
    requires Applies(c, attributes, op, attr, val)
    ensures var holds := EvaluateCondition(h, c, attributes);
      && (op == "eq" ==> (holds <==> Plain(attr) == Plain(val)))
      && (op == "neq" ==> (holds <==> Plain(attr) != Plain(val)))
      && (op == "in" ==>
            (holds <==> val.List? && exists i | 0 <= i < |val.items| :: Plain(attr) == Plain(val.items[i])))
      && (op == "not_in" ==>
            (holds <==> val.List? ==> forall i | 0 <= i < |val.items| :: Plain(attr) != Plain(val.items[i])))
  {
    PyEqIsPlainEquality(attr, val);
    if val.List? {
      forall i | 0 <= i < |val.items| ensures PyEq(attr, val.items[i]) <==> Plain(attr) == Plain(val.items[i]) {
        PyEqIsPlainEquality(attr, val.items[i]);
      }
    }
  }

  /** Text operators need text on both sides. */
  lemma TextConditions(h: Host, c: ConditionDict, attributes: Attributes, op: string, attr: Value, val: Value)
    requires Applies(c, attributes, op, attr, val)
    ensures var holds := EvaluateCondition(h, c, attributes);
      && (op == "contains" ==>
            (holds <==> attr.Str? && val.Str? && exists a, b: string :: attr.s == a + val.s + b))
      && (op == "starts_with" ==> (holds <==> attr.Str? && val.Str? && exists b: string :: attr.s == val.s + b))
  {
    if attr.Str? && val.Str? {
      ContainsOperator(h, val.s, attr.s);
      StartsWithOperator(h, val.s, attr.s);
    }
  }

  lemma FloatComparisons(h: Host, x: Value, y: Value)
    ensures FloatLess(h, x, y) <==> exists a, b :: Converts(h, x, a) && Converts(h, y, b) && Below(a, b)
    ensures FloatLessOrEqual(h, x, y) <==>
      exists a, b :: Converts(h, x, a) && Converts(h, y, b) && (Below(a, b) || a == b)
  {
    forall f ensures ToFloat(h, x) == Some(f) <==> Converts(h, x, f) { ToFloatMeaning(h, x, f); }
    forall f ensures ToFloat(h, y) == Some(f) <==> Converts(h, y, f) { ToFloatMeaning(h, y, f); }
    if ToFloat(h, x).Some? && ToFloat(h, y).Some? {
      LessMeaning(ToFloat(h, x).value, ToFloat(h, y).value);
    }
  }

  /** Order operators need two values that convert to floats, and compare the attribute with the operand. */
  lemma OrderConditions(h: Host, c: ConditionDict, attributes: Attributes, op: string, attr: Value, val: Value)
    requires Applies(c, attributes, op, attr, val)
    ensures var holds := EvaluateCondition(h, c, attributes);
      && (op == "gt" ==> (holds <==> exists v, a :: Converts(h, val, v) && Converts(h, attr, a) && Below(v, a)))
      && (op == "lt" ==> (holds <==> exists a, v :: Converts(h, attr, a) && Converts(h, val, v) && Below(a, v)))
      && (op == "gte" ==>
            (holds <==> exists v, a :: Converts(h, val, v) && Converts(h, attr, a) && (Below(v, a) || v == a)))
      && (op == "lte" ==>
            (holds <==> exists a, v :: Converts(h, attr, a) && Converts(h, val, v) && (Below(a, v) || a == v)))
  {
    FloatComparisons(h, attr, val);
    FloatComparisons(h, val, attr);
  }

  lemma UnknownOperator(h: Host, c: ConditionDict, attributes: Attributes)
    requires c.operator.Some?
    requires c.operator.value !in {"eq", "neq", "in", "not_in", "contains", "starts_with", "gt", "gte", "lt", "lte"}
    ensures !EvaluateCondition(h, c, attributes)
  {}

  lemma UpperIsOr(s: string)
    ensures Upper(s) == "OR" <==> s in {"OR", "Or", "oR", "or"}
  {
    if |s| == 2 {
      assert s == [s[0], s[1]] && s[1..] == [s[1]] && s[1..][1..] == "";
      assert Upper([s[1]]) == [UpperChar(s[1])] + Upper("") == [UpperChar(s[1])];
      assert Upper(s) == [UpperChar(s[0]), UpperChar(s[1])];
    } else {
      UpperLength(s);
    }
  }

  lemma {:induction false} UpperLength(s: string)
    ensures |Upper(s)| == |s|
  {
    if s != "" { UpperLength(s[1..]); }
  }

  /**
   A rule whose combinator spells OR matches when some condition holds; any other rule, also one
   without a combinator, when it has conditions and all of them hold.
   */
  lemma RuleMeaning(h: Host, rule: RuleDict, attributes: Attributes)
    ensures var conditions := if rule.conditions.Some? then rule.conditions.value else [];
      EvaluateRule(h, rule, attributes) <==>
        if rule.combinator.Some? && rule.combinator.value in {"OR", "Or", "oR", "or"} then
          exists i | 0 <= i < |conditions| :: EvaluateCondition(h, conditions[i], attributes)
        else
          conditions != [] && forall i | 0 <= i < |conditions| :: EvaluateCondition(h, conditions[i], attributes)
  {
    UpperIsOr(rule.combinator.GetOr("AND"));
  }

  // ---------------------------------------------------------------- complementary operators

  function Complement(op: string): string {
    match op
    case "eq" => "neq"
    case "neq" => "eq"
    case "in" => "not_in"
    case "not_in" => "in"
    case _ => op
  }

  predicate HasComplement(c: ConditionDict) {
    c.operator.GetOr("eq") in {"eq", "neq", "in", "not_in"}
  }

  function Negated(c: ConditionDict): ConditionDict {
    c.(operator := Some(Complement(c.operator.GetOr("eq"))))
  }

  lemma NegatedCondition(h: Host, c: ConditionDict, attributes: Attributes)
    requires HasComplement(c)
    ensures EvaluateCondition(h, Negated(c), attributes) == !EvaluateCondition(h, c, attributes)
  {}

  lemma UpperCombinators()
    ensures Upper("OR") == "OR" && Upper("AND") == "AND"
  {
    assert "OR"[1..] == "R" && "R"[1..] == "";
    assert "AND"[1..] == "ND" && "ND"[1..] == "D" && "D"[1..] == "";
  }

  lemma {:induction false} NegatedConditions(h: Host, conditions: seq<ConditionDict>, attributes: Attributes)
    requires forall i | 0 <= i < |conditions| :: HasComplement(conditions[i])
    ensures AllHold(h, Map(Negated, conditions), attributes) <==> !AnyHolds(h, conditions, attributes)
  {
    var negated := Map(Negated, conditions);
    forall i | 0 <= i < |conditions|
      ensures EvaluateCondition(h, negated[i], attributes) == !EvaluateCondition(h, conditions[i], attributes)
    {
      NegatedCondition(h, conditions[i], attributes);
    }
  }

  /**
   De Morgan for rules: an OR rule is the negation of the AND rule with complementary operators.
   It covers attributes the context does not have and operands that are not lists.
   */
  lemma RuleDuality(h: Host, either: RuleDict, both: RuleDict, conditions: seq<ConditionDict>, attributes: Attributes)
    requires conditions != [] && forall i | 0 <= i < |conditions| :: HasComplement(conditions[i])
    requires either.combinator == Some("OR") && either.conditions == Some(conditions)
    requires both.combinator == Some("AND") && both.conditions == Some(Map(Negated, conditions))
    ensures EvaluateRule(h, either, attributes) <==> !EvaluateRule(h, both, attributes)
  {
    UpperCombinators();
    NegatedConditions(h, conditions, attributes);
  }

  /** The order operators are complementary exactly when both sides convert to numbers. */
  lemma OrderDuality(h: Host, attr: Value, val: Value)
    ensures (ApplyOperator(h, "gt", attr, val).value <==> !ApplyOperator(h, "lte", attr, val).value)
       <==> (ToFloat(h, attr).Some? && ToFloat(h, val).Some?)
    ensures (ApplyOperator(h, "lt", attr, val).value <==> !ApplyOperator(h, "gte", attr, val).value)
       <==> (ToFloat(h, attr).Some? && ToFloat(h, val).Some?)
    ensures !(ToFloat(h, attr).Some? && ToFloat(h, val).Some?) ==>
      forall op | op in {"gt", "gte", "lt", "lte"} :: ApplyOperator(h, op, attr, val) == Some(false)
  {}
}
