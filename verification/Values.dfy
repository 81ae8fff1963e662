/**
 JSON values as the service compares them, and the library functions it calls
 but does not define.
 */
module Values {

  datatype Option<+T> = None | Some(value: T) {
    function GetOr(default: T): T {
      if Some? then value else default
    }
  }

  datatype Result<+T, +E> = Ok(value: T) | Err(error: E)

  /** The error responses of the endpoints, by status code. */
  datatype HttpError = NotFound404 | Conflict409 | Invalid422 | Unavailable503

  /** A decoded JSON value. Integers and floats are both numbers: Python compares them by value. */
  datatype Value =
    | Null
    | Bool(b: bool)
    | Num(n: real)
    | Str(s: string)
    | List(items: seq<Value>)
    | Dict(entries: map<string, Value>)

  /** A Python float other than NaN. */
  datatype Float = NegInf | Finite(r: real) | PosInf

  predicate Less(a: Float, b: Float) {
    match (a, b)
    case (Finite(x), Finite(y)) => x < y
    case (NegInf, _) => !b.NegInf?
    case (_, PosInf) => !a.PosInf?
    case _ => false
  }

  /** What `mmh3.hash` may return: a signed 32-bit integer. */
  type Int32 = i: int | -0x8000_0000 <= i < 0x8000_0000

  /**
   The library functions. `parseFloat` is `float(text)`: `None` stands for a ValueError and for
   NaN, which no order comparison accepts either. `floatOf` is `float(number)`, which may round:
   `None` stands for the OverflowError of an integer that is too large.
   */
  datatype Host = Host(
    hash: string -> Int32,
    lower: string -> string,
    isSpace: char -> bool,
    parseFloat: string -> Option<Float>,
    floatOf: real -> Option<Float>
  )

  /** The host converts `n` without rounding and without overflow. */
  predicate ConvertsExactly(h: Host, n: real) {
    h.floatOf(n) == Some(Finite(n))
  }

  /** `True == 1` and `False == 0` in Python. */
  function AsNumber(v: Value): Option<real> {
    match v
    case Bool(b) => Some(if b then 1.0 else 0.0)
    case Num(n) => Some(n)
    case _ => None
  }

  /** Python's `==` on decoded JSON. */
  predicate PyEq(a: Value, b: Value)
    decreases a
  {
    match (a, b)
    case (Null, Null) => true
    case (Str(x), Str(y)) => x == y
    case (List(x), List(y)) =>
      |x| == |y| && forall i | 0 <= i < |x| :: PyEq(x[i], y[i])
    case (Dict(x), Dict(y)) =>
      x.Keys == y.Keys && forall k | k in x :: PyEq(x[k], y[k])
    case _ =>
      AsNumber(a).Some? && AsNumber(a) == AsNumber(b)
  }

  /** The value with every boolean, however deep, replaced by the number it equals. */
  function Plain(v: Value): Value
    decreases v
  {
    match v
    case Bool(b) => Num(if b then 1.0 else 0.0)
    case List(items) => List(seq(|items|, i requires 0 <= i < |items| => Plain(items[i])))
    case Dict(entries) => Dict(map k | k in entries :: Plain(entries[k]))
    case _ => v
  }

  predicate BooleanFree(v: Value)
    decreases v
  {
    match v
    case Bool(_) => false
    case List(items) => forall i | 0 <= i < |items| :: BooleanFree(items[i])
    case Dict(entries) => forall k | k in entries :: BooleanFree(entries[k])
    case _ => true
  }

  /** Nothing but booleans is replaced. */
  lemma {:induction false} PlainKeepsTheRest(v: Value)
    ensures BooleanFree(Plain(v)) && (BooleanFree(v) ==> Plain(v) == v)
    ensures v.Bool? ==> Plain(v) == Num(if v.b then 1.0 else 0.0)
    decreases v
  {
    match v
    case List(items) =>
      forall i | 0 <= i < |items|
        ensures BooleanFree(Plain(items[i])) && (BooleanFree(items[i]) ==> Plain(items[i]) == items[i])
      {
        PlainKeepsTheRest(items[i]);
      }
    case Dict(entries) =>
      forall k | k in entries
        ensures BooleanFree(Plain(entries[k])) && (BooleanFree(entries[k]) ==> Plain(entries[k]) == entries[k])
      {
        PlainKeepsTheRest(entries[k]);
      }
    case _ =>
  }

  /** Two values are equal in Python exactly when they are the same after booleans became numbers. */
  lemma {:induction false} PyEqIsPlainEquality(a: Value, b: Value)
    ensures PyEq(a, b) <==> Plain(a) == Plain(b)
    decreases a
  {
    match (a, b)
    case (List(x), List(y)) =>
      if |x| == |y| {
        forall i | 0 <= i < |x| ensures PyEq(x[i], y[i]) <==> Plain(a).items[i] == Plain(b).items[i] {
          PyEqIsPlainEquality(x[i], y[i]);
        }
      }
    case (Dict(x), Dict(y)) =>
      assert Plain(a).entries.Keys == x.Keys && Plain(b).entries.Keys == y.Keys;
      if x.Keys == y.Keys {
        forall k | k in x ensures PyEq(x[k], y[k]) <==> Plain(a).entries[k] == Plain(b).entries[k] {
          PyEqIsPlainEquality(x[k], y[k]);
        }
      }
    case _ =>
  }

  lemma PyEqReflexive(a: Value)
    ensures PyEq(a, a)
  {
    PyEqIsPlainEquality(a, a);
  }

  lemma PyEqSymmetric(a: Value, b: Value)
    requires PyEq(a, b)
    ensures PyEq(b, a)
  {
    PyEqIsPlainEquality(a, b);
    PyEqIsPlainEquality(b, a);
  }

  /** Equality is an equivalence, although `True == 1`: nesting does not break it. */
  lemma PyEqTransitive(a: Value, b: Value, c: Value)
    requires PyEq(a, b) && PyEq(b, c)
    ensures PyEq(a, c)
  {
    PyEqIsPlainEquality(a, b);
    PyEqIsPlainEquality(b, c);
    PyEqIsPlainEquality(a, c);
  }

  /** Python's `float(v)`; `None` when it raises. */
  function ToFloat(h: Host, v: Value): Option<Float> {
    match v
    case Str(s) => h.parseFloat(s)
    case Bool(_) => Some(Finite(AsNumber(v).value))
    case Num(n) => h.floatOf(n)
    case _ => None
  }

  /** What `float` makes of a value, kind by kind: nothing of null, lists and dictionaries. */
  ghost predicate Converts(h: Host, v: Value, f: Float) {
    || (v.Str? && h.parseFloat(v.s) == Some(f))
    || (v.Bool? && f == Finite(if v.b then 1.0 else 0.0))
    || (v.Num? && h.floatOf(v.n) == Some(f))
  }

  /** The order of the floats, infinities at the ends. */
  ghost predicate Below(a: Float, b: Float) {
    || (a.NegInf? && !b.NegInf?)
    || (a.Finite? && b.Finite? && a.r < b.r)
    || (a.Finite? && b.PosInf?)
  }

  lemma ToFloatMeaning(h: Host, v: Value, f: Float)
    ensures ToFloat(h, v) == Some(f) <==> Converts(h, v, f)
  {}

  lemma LessMeaning(a: Float, b: Float)
    ensures Less(a, b) <==> Below(a, b)
  {}
}
