/**
 The time-to-live cache of the SDK: entries are evicted when a read finds them too old, and only
 then. The specification never evicts: it looks at the history of writes.
 */
module TtlCaches {
  import opened Values

  type Store<V> = map<string, (V, real)>

  /** One call, with the reading of the monotonic clock it makes, if it makes one. */
  datatype Op<V> =
    | Get(key: string, now: real)
    | Set(key: string, value: V, now: real)
    | Invalidate(key: string)
    | Clear

  // ---------------------------------------------------------------- specification

  /** The latest write to `key` that no later `invalidate` or `clear` has undone. */
  function Latest<V>(history: seq<Op<V>>, key: string): Option<(V, real)> {
    if history == [] then None
    else
      match history[|history| - 1]
      case Set(k, v, at) => if k == key then Some((v, at)) else Latest(history[..|history| - 1], key)
      case Invalidate(k) => if k == key then None else Latest(history[..|history| - 1], key)
      case Clear => None
      case Get(_, _) => Latest(history[..|history| - 1], key)
  }

  /** `op` writes or removes what is stored under `key`. */
  predicate Touches<V>(op: Op<V>, key: string) {
    op.Clear? || ((op.Set? || op.Invalidate?) && op.key == key)
  }

  /** The latest write is one that nothing later touches. */
  lemma {:induction false} LatestMeaning<V>(history: seq<Op<V>>, key: string, value: V, at: real)
    ensures Latest(history, key) == Some((value, at)) <==>
      exists i | 0 <= i < |history| ::
        history[i] == Op<V>.Set(key, value, at) && forall j | i < j < |history| :: !Touches(history[j], key)
  {
    if history != [] {
      var n := |history| - 1;
      LatestMeaning(history[..n], key, value, at);
      if !Touches(history[n], key) && Latest(history[..n], key) == Some((value, at)) {
        var i :| 0 <= i < n && history[..n][i] == Op<V>.Set(key, value, at)
                 && forall j | i < j < n :: !Touches(history[..n][j], key);
        assert history[i] == Op<V>.Set(key, value, at);
        forall j | i < j < |history| ensures !Touches(history[j], key) {
          if j < n { assert history[j] == history[..n][j]; }
        }
      }
      if i :| 0 <= i < |history| && history[i] == Op<V>.Set(key, value, at)
              && forall j | i < j < |history| :: !Touches(history[j], key) {
        if i < n {
          assert history[..n][i] == history[i];
          forall j | i < j < n ensures !Touches(history[..n][j], key) { assert history[j] == history[..n][j]; }
        } else {
          assert history[n] == Op<V>.Set(key, value, at);
        }
      }
    }
  }

  /** A hit is a live write of age at most `ttl`. */
  function Expected<V>(history: seq<Op<V>>, key: string, now: real, ttl: real): Option<V> {
    var e := Latest(history, key);
    if e.Some? && now - e.value.1 <= ttl then Some(e.value.0) else None
  }

  // ---------------------------------------------------------------- implementation

  predicate Expired<V>(store: Store<V>, key: string, now: real, ttl: real) {
    key in store && now - store[key].1 > ttl
  }

  function Found<V>(store: Store<V>, key: string, now: real, ttl: real): Option<V> {
    if key in store && !Expired(store, key, now, ttl) then Some(store[key].0) else None
  }

  function After<V>(store: Store<V>, op: Op<V>, ttl: real): Store<V> {
    match op
    case Get(key, now) => if Expired(store, key, now, ttl) then store - {key} else store
    case Set(key, value, now) => store[key := (value, now)]
    case Invalidate(key) => store - {key}
    case Clear => map[]
  }

  /** The clock after a call: it moves only when it is read. */
  function ClockAfter<V>(clock: real, op: Op<V>): real {
    match op
    case Get(_, now) => now
    case Set(_, _, now) => now
    case _ => clock
  }

  /** What a lazily evicted store has to do with the history that produced it. */
  ghost predicate Represents<V>(store: Store<V>, history: seq<Op<V>>, clock: real, ttl: real) {
    forall key: string ::
      var e := Latest(history, key);
      if key in store then e == Some(store[key]) && store[key].1 <= clock
      else e.Some? ==> clock - e.value.1 > ttl
  }

  /** Every call keeps the relation, provided the clock does not go back. */
  lemma StepRepresents<V>(store: Store<V>, history: seq<Op<V>>, op: Op<V>, clock: real, ttl: real)
    requires Represents(store, history, clock, ttl)
    requires clock <= ClockAfter(clock, op)
    ensures Represents(After(store, op, ttl), history + [op], ClockAfter(clock, op), ttl)
    ensures op.Get? ==> Found(store, op.key, op.now, ttl) == Expected(history, op.key, op.now, ttl)
  {}

  // ---------------------------------------------------------------- the cache object

  class TtlCache<V> {
    const ttl: real
    var store: Store<V>
    ghost var history: seq<Op<V>>
    ghost var clock: real

    ghost predicate Valid()
      reads this
    {
      Represents(store, history, clock, ttl)
    }

    constructor (ttl: real, ghost now: real)
      ensures Valid() && this.ttl == ttl && store == map[] && history == [] && clock == now
    {
      this.ttl := ttl;
      store, history, clock := map[], [], now;
    }

    /** The value of the latest live write if it is young enough, and a miss otherwise. */
    method Get(key: string, now: real) returns (r: Option<V>)
      requires Valid() && clock <= now
      modifies this
      ensures Valid() && clock == now && history == old(history) + [Op<V>.Get(key, now)]
      ensures r == Expected(old(history), key, now, ttl)
      ensures old(key in store && now - store[key].1 <= ttl) ==> r == Some(old(store)[key].0) && store == old(store)
      ensures !old(key in store && now - store[key].1 <= ttl) ==> r == None && store == old(store) - {key}
      ensures store == if old(Expired(store, key, now, ttl)) then old(store) - {key} else old(store)
    {
      StepRepresents(store, history, Op<V>.Get(key, now), clock, ttl);
      history, clock := history + [Op<V>.Get(key, now)], now;
      if key !in store {
        return None;
      }
      var (value, insertedAt) := store[key];
      if now - insertedAt > ttl {
        store := store - {key};
        return None;
      }
      return Some(value);
    }

    method Set(key: string, value: V, now: real)
      requires Valid() && clock <= now
      modifies this
      ensures Valid() && clock == now && history == old(history) + [Op<V>.Set(key, value, now)]
      ensures store == old(store)[key := (value, now)]
    {
      StepRepresents(store, history, Op<V>.Set(key, value, now), clock, ttl);
      history, clock := history + [Op<V>.Set(key, value, now)], now;
      store := store[key := (value, now)];
    }

    method Invalidate(key: string)
      requires Valid()
      modifies this
      ensures Valid() && clock == old(clock) && history == old(history) + [Op<V>.Invalidate(key)]
      ensures store == old(store) - {key}
    {
      StepRepresents(store, history, Op<V>.Invalidate(key), clock, ttl);
      history := history + [Op<V>.Invalidate(key)];
      store := store - {key};
    }

    method Clear()
      requires Valid()
      modifies this
      ensures Valid() && clock == old(clock) && history == old(history) + [Op<V>.Clear]
      ensures store == map[]
    {
      StepRepresents(store, history, Op<V>.Clear, clock, ttl);
      history := history + [Op<V>.Clear];
      store := map[];
    }
  }

  // ---------------------------------------------------------------- whole runs

  /** The answers to the reads of a run, from the lazily evicted store. */
  function Answers<V>(store: Store<V>, ops: seq<Op<V>>, ttl: real): seq<Option<V>>
    decreases |ops|
  {
    if ops == [] then []
    else
      (if ops[0].Get? then [Found(store, ops[0].key, ops[0].now, ttl)] else [])
      + Answers(After(store, ops[0], ttl), ops[1..], ttl)
  }

  /** The answers the history of writes calls for. */
  function Specified<V>(history: seq<Op<V>>, ops: seq<Op<V>>, ttl: real): seq<Option<V>>
    decreases |ops|
  {
    if ops == [] then []
    else
      (if ops[0].Get? then [Expected(history, ops[0].key, ops[0].now, ttl)] else [])
      + Specified(history + [ops[0]], ops[1..], ttl)
  }

  predicate ClockNeverGoesBack<V>(clock: real, ops: seq<Op<V>>)
    decreases |ops|
  {
    ops == [] || (clock <= ClockAfter(clock, ops[0]) && ClockNeverGoesBack(ClockAfter(clock, ops[0]), ops[1..]))
  }

  lemma {:induction false} RunFrom<V>(store: Store<V>, history: seq<Op<V>>, ops: seq<Op<V>>, clock: real, ttl: real)
    requires Represents(store, history, clock, ttl) && ClockNeverGoesBack(clock, ops)
    ensures Answers(store, ops, ttl) == Specified(history, ops, ttl)
    decreases |ops|
  {
    if ops != [] {
      StepRepresents(store, history, ops[0], clock, ttl);
      RunFrom(After(store, ops[0], ttl), history + [ops[0]], ops[1..], ClockAfter(clock, ops[0]), ttl);
    }
  }

  /** On every run with a monotonic clock, no read can tell when, or whether, entries were evicted. */
  lemma LazyEvictionIsUnobservable<V>(ops: seq<Op<V>>, clock: real, ttl: real)
    requires ClockNeverGoesBack(clock, ops)
    ensures Answers(map[], ops, ttl) == Specified([], ops, ttl)
  {
    RunFrom(map[], [], ops, clock, ttl);
  }
}
