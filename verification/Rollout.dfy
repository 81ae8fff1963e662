/**
 Percentage rollout: a hash of "flag:user" falls into one of 10000 buckets, and the lowest
 `percentage * 100` buckets are in.
 */
module Rollout {
  import opened Values

  const BUCKETS: nat := 10_000

  function Abs(v: int): nat {
    if v < 0 then -v else v
  }

  function HashInput(flagKey: string, userId: string): string {
    flagKey + ":" + userId
  }

  /** The bucket of a hash value. The operand of `%` is never negative, so Python's `%` is Dafny's. */
  function Bucket(v: int): nat {
    Abs(v) % BUCKETS
  }

  function ComputeRolloutHash(h: Host, flagKey: string, userId: string): nat {
    Bucket(h.hash(HashInput(flagKey, userId)))
  }

  /** Is a user in this bucket admitted? Any integer percentage is accepted. */
  predicate Admits(bucket: nat, percentage: int) {
    if percentage <= 0 then false
    else if percentage >= 100 then true
    else bucket < percentage * 100
  }

  predicate IsInRollout(h: Host, flagKey: string, userId: string, percentage: int) {
    Admits(ComputeRolloutHash(h, flagKey, userId), percentage)
  }

  // ---------------------------------------------------------------- nesting

  /** The two early returns are what the bucket threshold would have said anyway. */
  lemma EarlyReturnsAgree(bucket: nat, percentage: int)
    requires bucket < BUCKETS
    ensures Admits(bucket, percentage) <==> bucket < percentage * 100
  {}

  /** Who is in: the hash of flag, colon and user decides, whatever the percentage. */
  lemma RolloutMeaning(h: Host, flagKey: string, userId: string, percentage: int)
    ensures var v: int := h.hash(flagKey + ":" + userId);
      IsInRollout(h, flagKey, userId, percentage) <==> (if v < 0 then -v else v) % 10_000 < percentage * 100
  {}

  /** Raising the percentage never removes a user, and each user joins at one threshold of his own. */
  lemma CohortsNest(h: Host, flagKey: string, userId: string, p: int, q: int)
    requires p <= q && IsInRollout(h, flagKey, userId, p)
    ensures IsInRollout(h, flagKey, userId, q)
    ensures var v: int := h.hash(flagKey + ":" + userId);
      forall p' :: IsInRollout(h, flagKey, userId, p') <==> p' > (if v < 0 then -v else v) % 10_000 / 100
  {
    forall p'
      ensures var v: int := h.hash(flagKey + ":" + userId);
        IsInRollout(h, flagKey, userId, p') <==> p' > (if v < 0 then -v else v) % 10_000 / 100
    {
      RolloutMeaning(h, flagKey, userId, p');
    }
  }

  // ---------------------------------------------------------------- exact share

  /** How many of 0, 1, ..., n - 1 fall below `t` modulo `b`. */
  function CountBelow(n: nat, b: nat, t: nat): nat
    requires b > 0
  {
    if n == 0 then 0
    else CountBelow(n - 1, b, t) + if (n - 1) % b < t then 1 else 0
  }

  function Min(a: int, b: int): int {
    if a < b then a else b
  }

  lemma DivModUnique(m: nat, b: nat, q: nat, r: nat)
    requires b > 0 && r < b && m == q * b + r
    ensures m / b == q && m % b == r
  {
    var d := m / b - q;
    assert d * b == r - m % b;
  }

  /** One value more, `r` places into period `q`. */
  lemma CountOneMore(q: nat, r: nat, b: nat, t: nat)
    requires r < b
    ensures CountBelow(q * b + r + 1, b, t) == CountBelow(q * b + r, b, t) + if r < t then 1 else 0
  {
    DivModUnique(q * b + r, b, q, r);
  }

  /** `q` whole periods and `r` values more. */
  lemma {:induction false} CountPeriods(q: nat, r: nat, b: nat, t: nat)
    requires b > 0 && t <= b && r <= b
    ensures CountBelow(q * b + r, b, t) == q * t + Min(r, t)
    decreases q, r
  {
    if r > 0 {
      CountPeriods(q, r - 1, b, t);
      CountOneMore(q, r - 1, b, t);
    } else if q > 0 {
      CountPeriods(q - 1, b, b, t);
      assert (q - 1) * b + b == q * b && (q - 1) * t + t == q * t;
    }
  }

  /** Whole periods contribute `t` each, the rest contributes what fits. */
  lemma CountBelowExact(n: nat, b: nat, t: nat)
    requires b > 0 && t <= b
    ensures CountBelow(n, b, t) == (n / b) * t + Min(n % b, t)
  {
    var q, r := n / b, n % b;
    assert n == q * b + r;
    CountPeriods(q, r, b, t);
  }

  /** The hash values in `lo .. hi` (end excluded) that are admitted. */
  function AdmittedIn(lo: int, hi: int, percentage: int): set<int> {
    set v: int | lo <= v < hi && Admits(Bucket(v), percentage)
  }

  /** Every hash value `mmh3.hash` can return that is admitted. */
  function AdmittedHashes(percentage: int): set<int> {
    AdmittedIn(-0x8000_0000, 0x8000_0000, percentage)
  }

  lemma OneMoreAbove(lo: int, hi: int, p: int)
    requires lo <= hi
    ensures |AdmittedIn(lo, hi + 1, p)| == |AdmittedIn(lo, hi, p)| + if Admits(Bucket(hi), p) then 1 else 0
  {
    assert AdmittedIn(lo, hi + 1, p) == AdmittedIn(lo, hi, p) + if Admits(Bucket(hi), p) then {hi} else {};
  }

  lemma OneMoreBelow(lo: int, hi: int, p: int)
    requires lo <= hi
    ensures |AdmittedIn(lo - 1, hi, p)| == |AdmittedIn(lo, hi, p)| + if Admits(Bucket(lo - 1), p) then 1 else 0
  {
    assert AdmittedIn(lo - 1, hi, p) == AdmittedIn(lo, hi, p) + if Admits(Bucket(lo - 1), p) then {lo - 1} else {};
  }

  lemma {:induction false} AdmittedUpTo(n: nat, p: int)
    requires 0 <= p <= 100
    ensures |AdmittedIn(0, n, p)| == CountBelow(n, BUCKETS, p * 100)
  {
    if n == 0 {
      assert AdmittedIn(0, 0, p) == {};
    } else {
      AdmittedUpTo(n - 1, p);
      EarlyReturnsAgree(Bucket(n - 1), p);
      OneMoreAbove(0, n - 1, p);
    }
  }

  /** Below zero the buckets are those of 1, ..., n, because of `abs`. */
  lemma {:induction false} AdmittedDownTo(n: nat, p: int)
    requires 0 <= p <= 100
    ensures |AdmittedIn(0 - n, 0, p)| == CountBelow(n + 1, BUCKETS, p * 100) - if p > 0 then 1 else 0
  {
    if n == 0 {
      assert AdmittedIn(0, 0, p) == {};
      assert CountBelow(1, BUCKETS, p * 100) == CountBelow(0, BUCKETS, p * 100) + if 0 < p then 1 else 0;
    } else {
      AdmittedDownTo(n - 1, p);
      EarlyReturnsAgree(Bucket(0 - n), p);
      OneMoreBelow(1 - n, 0, p);
      assert Bucket(0 - n) == n % BUCKETS;
    }
  }

  /** The signed excess over an exact share, in units of 1/100 of a hash value. */
  function Excess(p: int): int {
    if p == 0 then 0
    else if p <= 36 then 12_704 * p - 100
    else 729_600 - 7_296 * p
  }

  /**
   Of the 2^32 hash values, a percentage `p` admits `p` percent and a surplus of at most 4597
   values; nobody is short-changed, and 0 and 100 are exact.
   */
  lemma ExactShare(p: int)
    requires 0 <= p <= 100
    ensures 100 * |AdmittedHashes(p)| == p * 0x1_0000_0000 + Excess(p)
    ensures 0 <= Excess(p) <= 459_648
    ensures p == 0 || p == 100 ==> Excess(p) == 0
  {
    var half := 0x8000_0000;
    var t := p * 100;
    var lower, upper := AdmittedIn(-half, 0, p), AdmittedIn(0, half, p);
    assert AdmittedHashes(p) == lower + upper;
    assert |lower + upper| == |lower| + |upper|;
    AdmittedUpTo(half, p);
    AdmittedDownTo(half, p);
    CountBelowExact(half, BUCKETS, t);
    CountBelowExact(half + 1, BUCKETS, t);
    assert half / BUCKETS == 214_748 && half % BUCKETS == 3_648;
    assert (half + 1) / BUCKETS == 214_748 && (half + 1) % BUCKETS == 3_649;
  }
}
