/**
 The per-process flag cache, the invalidation messages it handles, and the evaluation endpoints
 that read it.
 */
module FlagCaches {
  import opened Values
  import opened StableSorting
  import opened Targeting
  import opened Evaluation

  type Flags = map<string, FlagDict>

  /** The state of a `FlagCache`: `_flags`, `_version`, `_ready`. */
  datatype CacheState = CacheState(flags: Flags, version: nat, ready: bool)

  const EMPTY_CACHE := CacheState(map[], 0, false)

  /** An invalidation message as decoded from JSON. */
  datatype Message = Message(flagKey: Option<string>, version: Option<int>, action: Option<string>)

  // ---------------------------------------------------------------- warm-up

  predicate AllKeyed(loaded: seq<FlagDict>) {
    forall i | 0 <= i < |loaded| :: loaded[i].key.Some?
  }

  /** `{f["key"]: f for f in loaded}`: a later snapshot replaces an earlier one. */
  function Indexed(loaded: seq<FlagDict>): Flags
    requires AllKeyed(loaded)
  {
    if loaded == [] then map[]
    else
      var last := loaded[|loaded| - 1];
      Indexed(loaded[..|loaded| - 1])[last.key.value := last]
  }

  /** Every snapshot is stored under its own key. */
  ghost predicate Keyed(flags: Flags) {
    forall k | k in flags :: flags[k].key == Some(k)
  }

  lemma {:induction false} IndexedIsKeyed(loaded: seq<FlagDict>)
    requires AllKeyed(loaded)
    ensures Keyed(Indexed(loaded))
    ensures forall k | k in Indexed(loaded) :: Indexed(loaded)[k] in loaded
    ensures forall f | f in loaded :: f.key.value in Indexed(loaded)
  {
    if loaded != [] {
      var init := loaded[..|loaded| - 1];
      IndexedIsKeyed(init);
      assert loaded == init + [loaded[|loaded| - 1]];
    }
  }

  /** Of several snapshots with one key the last one counts. */
  lemma {:induction false} LastSnapshotCounts(loaded: seq<FlagDict>, i: nat)
    requires AllKeyed(loaded) && i < |loaded| && forall j | i < j < |loaded| :: loaded[j].key != loaded[i].key
    ensures loaded[i].key.value in Indexed(loaded) && Indexed(loaded)[loaded[i].key.value] == loaded[i]
  {
    if i < |loaded| - 1 {
      LastSnapshotCounts(loaded[..|loaded| - 1], i);
      assert loaded[|loaded| - 1].key != loaded[i].key;
    }
  }

  // ---------------------------------------------------------------- invalidation

  /** The key a message removes. A message without a key, or with an empty one, removes nothing. */
  function Removes(m: Message): set<string> {
    var key := m.flagKey.GetOr("");
    if key == "" then {} else {key}
  }

  /** What handling a message does, for "delete" and for every other action alike. */
  function Handled(flags: Flags, m: Message): Flags {
    flags - Removes(m)
  }

  function HandledAll(flags: Flags, ms: seq<Message>): Flags {
    if ms == [] then flags else HandledAll(Handled(flags, ms[0]), ms[1..])
  }

  function Mentioned(ms: seq<Message>): set<string> {
    set m, k | m in ms && k in Removes(m) :: k
  }

  /** Any sequence of messages leaves the cache without the mentioned keys, and otherwise as it was. */
  lemma {:induction false} HandledAllRemovesMentioned(flags: Flags, ms: seq<Message>)
    ensures HandledAll(flags, ms) == flags - Mentioned(ms)
  {
    if ms == [] {
      assert Mentioned(ms) == {};
    } else {
      HandledAllRemovesMentioned(Handled(flags, ms[0]), ms[1..]);
      assert ms == [ms[0]] + ms[1..];
      assert Mentioned(ms) == Removes(ms[0]) + Mentioned(ms[1..]);
    }
  }

  /** Order, repetition, versions and actions of the messages are all irrelevant: only the keys count. */
  lemma Confluence(flags: Flags, ms: seq<Message>, ms': seq<Message>)
    requires Mentioned(ms) == Mentioned(ms')
    ensures HandledAll(flags, ms) == HandledAll(flags, ms')
  {
    HandledAllRemovesMentioned(flags, ms);
    HandledAllRemovesMentioned(flags, ms');
  }

  /** In particular any permutation of the handler tasks, each run any number of times. */
  lemma AnyTaskOrder(flags: Flags, ms: seq<Message>, ms': seq<Message>)
    requires forall m :: m in ms <==> m in ms'
    ensures HandledAll(flags, ms) == HandledAll(flags, ms')
  {
    Confluence(flags, ms, ms');
  }

  // ---------------------------------------------------------------- the cache object

  datatype CacheError = CacheNotReady

  class FlagCache {
    var flags: Flags
    var version: nat
    var ready: bool

    function State(): CacheState
      reads this
    {
      CacheState(flags, version, ready)
    }

    constructor ()
      ensures State() == EMPTY_CACHE
    {
      flags, version, ready := map[], 0, false;
    }

    method MarkReady()
      modifies this
      ensures State() == old(State()).(ready := true)
    {
      ready := true;
    }

    method Get(flagKey: string) returns (res: Result<Option<FlagDict>, CacheError>)
      ensures res.Err? <==> !ready
      ensures ready ==> res == Ok(if flagKey in flags then Some(flags[flagKey]) else None)
    {
      if !ready {
        return Err(CacheNotReady);
      }
      if flagKey in flags {
        return Ok(Some(flags[flagKey]));
      }
      return Ok(None);
    }

    method Set(flagKey: string, data: FlagDict)
      modifies this
      ensures State() == old(State()).(flags := old(flags)[flagKey := data])
      ensures old(Keyed(flags)) ==> (Keyed(flags) <==> data.key == Some(flagKey))
    {
      flags := flags[flagKey := data];
      assert flags[flagKey] == data;
    }

    method Invalidate(flagKey: string, newData: Option<FlagDict>)
      modifies this
      ensures newData.None? ==> State() == old(State()).(flags := old(flags) - {flagKey})
      ensures newData.Some? ==> State() == old(State()).(flags := old(flags)[flagKey := newData.value])
    {
      if newData.None? {
        flags := flags - {flagKey};
      } else {
        flags := flags[flagKey := newData.value];
      }
    }

    /**
     The part of `warm_up` after `await load_fn()`. A snapshot without a key raises before anything
     is assigned, so a failed warm-up leaves the cache as it was.
     */
    method WarmUp(loaded: seq<FlagDict>) returns (ok: bool)
      modifies this
      ensures ok <==> forall f | f in loaded :: f.key.Some?
      ensures !ok ==> State() == old(State())
      ensures ok ==> AllKeyed(loaded) && State() == Installed(old(State()), loaded)
      ensures ok ==> ready && version == old(version) + 1 && Keyed(flags)
    {
      var byKey: Flags := map[];
      for i := 0 to |loaded|
        invariant AllKeyed(loaded[..i]) && byKey == Indexed(loaded[..i])
        invariant State() == old(State())
      {
        if loaded[i].key.None? {
          assert loaded[i] in loaded;
          return false;
        }
        assert loaded[..i + 1][..i] == loaded[..i];
        byKey := byKey[loaded[i].key.value := loaded[i]];
      }
      assert loaded[..|loaded|] == loaded;
      IndexedIsKeyed(loaded);
      flags := byKey;
      version := version + 1;
      ready := true;
      ok := true;
    }

    method HandleInvalidationMessage(m: Message)
      modifies this
      ensures State() == old(State()).(flags := Handled(old(flags), m))
      ensures m.flagKey.Some? && m.flagKey.value != "" ==> flags == old(flags) - {m.flagKey.value}
      ensures m.flagKey.None? || m.flagKey.value == "" ==> flags == old(flags)
    {
      var action := m.action.GetOr("update");
      if m.flagKey.None? || m.flagKey.value == "" {
        assert flags - {} == flags;
        return;
      }
      if action == "delete" {
        Invalidate(m.flagKey.value, None);
      } else {
        Invalidate(m.flagKey.value, None);
      }
    }
  }

  /** The state a successful warm-up installs. */
  function Installed(s: CacheState, loaded: seq<FlagDict>): CacheState
    requires AllKeyed(loaded)
  {
    CacheState(Indexed(loaded), s.version + 1, true)
  }

  // ---------------------------------------------------------------- evaluation endpoints

  /** `evaluate_from_cache`: an unknown flag yields the caller's default. */
  function EvaluateFromCache(h: Host, s: CacheState, flagKey: string, ctx: Context, defaultValue: Value)
    : Result<EvaluationResult, CacheError>
  {
    if !s.ready then Err(CacheNotReady)
    else if flagKey !in s.flags then
      Ok(EvaluationResult(flagKey, defaultValue, FLAG_NOT_FOUND, ctx.environment, 0))
    else Ok(Evaluate(h, s.flags[flagKey], ctx))
  }

  /** `POST /evaluate`. */
  function Single(h: Host, s: CacheState, flagKey: string, ctx: Context): Result<EvaluationResult, HttpError> {
    if !s.ready then Err(Unavailable503)
    else if flagKey !in s.flags then Err(NotFound404)
    else Ok(Evaluate(h, s.flags[flagKey], ctx))
  }

  /** The successful single evaluations, in the order of the request. */
  function Singles(h: Host, s: CacheState, flagKeys: seq<string>, ctx: Context): seq<EvaluationResult> {
    if flagKeys == [] then []
    else
      var r := Single(h, s, flagKeys[0], ctx);
      (if r.Ok? then [r.value] else []) + Singles(h, s, flagKeys[1..], ctx)
  }

  method EvaluateSingle(h: Host, cache: FlagCache, flagKey: string, userId: string, environment: string,
                        attributes: Attributes)
    returns (res: Result<EvaluationResult, HttpError>)
    ensures !cache.ready ==> res == Err(Unavailable503)
    ensures cache.ready && flagKey !in cache.flags ==> res == Err(NotFound404)
    ensures cache.ready && flagKey in cache.flags ==>
      exists ctx :: IsContextOf(h, userId, environment, attributes, ctx)
                    && res == Ok(Evaluate(h, cache.flags[flagKey], ctx))
  {
    var ctx := MakeContext(h, userId, environment, attributes);
    ContextMeaning(h, userId, environment, attributes, ctx);
    var raw := cache.Get(flagKey);
    if raw.Err? {
      return Err(Unavailable503);
    }
    if raw.value.None? {
      return Err(NotFound404);
    }
    res := Ok(Evaluate(h, raw.value.value, ctx));
  }

  lemma {:induction false} SinglesConcat(h: Host, s: CacheState, a: seq<string>, b: seq<string>, ctx: Context)
    ensures Singles(h, s, a + b, ctx) == Singles(h, s, a, ctx) + Singles(h, s, b, ctx)
  {
    if a == [] {
      assert a + b == b;
    } else {
      assert (a + b)[1..] == a[1..] + b;
      SinglesConcat(h, s, a[1..], b, ctx);
    }
  }

  /** A batch is the single evaluations that succeed, in order; before warm-up it is refused as a whole. */
  method EvaluateBatch(h: Host, cache: FlagCache, flagKeys: seq<string>, userId: string, environment: string,
                       attributes: Attributes)
    returns (res: Result<seq<EvaluationResult>, HttpError>)
    ensures res.Err? <==> flagKeys != [] && !cache.ready
    ensures res.Err? ==> res.error == Unavailable503
    ensures res.Ok? ==>
      exists ctx :: IsContextOf(h, userId, environment, attributes, ctx)
                    && res.value == Singles(h, cache.State(), flagKeys, ctx)
  {
    var ctx := MakeContext(h, userId, environment, attributes);
    ContextMeaning(h, userId, environment, attributes, ctx);
    var results: seq<EvaluationResult> := [];
    for i := 0 to |flagKeys|
      invariant i > 0 ==> cache.ready
      invariant results == Singles(h, cache.State(), flagKeys[..i], ctx)
    {
      SinglesConcat(h, cache.State(), flagKeys[..i], [flagKeys[i]], ctx);
      assert flagKeys[..i + 1] == flagKeys[..i] + [flagKeys[i]];
      var raw := cache.Get(flagKeys[i]);
      if raw.Err? {
        return Err(Unavailable503);
      }
      if raw.value.Some? {
        results := results + [Evaluate(h, raw.value.value, ctx)];
      }
    }
    assert flagKeys[..|flagKeys|] == flagKeys;
    res := Ok(results);
  }

  function Present(s: CacheState): string -> bool {
    (k: string) => k in s.flags
  }

  function KeyOf(): EvaluationResult -> string {
    (r: EvaluationResult) => r.flagKey
  }

  /** The keys of a batch response: exactly the requested keys the cache holds, in order and with repetition. */
  lemma {:induction false} BatchKeys(h: Host, s: CacheState, flagKeys: seq<string>, ctx: Context)
    requires s.ready && Keyed(s.flags)
    ensures Map(KeyOf(), Singles(h, s, flagKeys, ctx)) == Filter(flagKeys, Present(s))
  {
    if flagKeys != [] {
      BatchKeys(h, s, flagKeys[1..], ctx);
      var rest := Singles(h, s, flagKeys[1..], ctx);
      if flagKeys[0] in s.flags {
        var r := Evaluate(h, s.flags[flagKeys[0]], ctx);
        assert Singles(h, s, flagKeys, ctx) == [r] + rest;
        assert ([r] + rest)[1..] == rest;
      } else {
        assert Singles(h, s, flagKeys, ctx) == rest;
      }
    }
  }

  /** Each answer of a batch is what evaluating the cached snapshot gives: one for each requested key present. */
  lemma {:induction false} BatchValues(h: Host, s: CacheState, flagKeys: seq<string>, ctx: Context)
    requires s.ready
    ensures var present := Filter(flagKeys, Present(s));
      && |Singles(h, s, flagKeys, ctx)| == |present|
      && forall i | 0 <= i < |present| ::
           present[i] in s.flags && Singles(h, s, flagKeys, ctx)[i] == Evaluate(h, s.flags[present[i]], ctx)
  {
    if flagKeys != [] {
      BatchValues(h, s, flagKeys[1..], ctx);
      var rest, present := Singles(h, s, flagKeys[1..], ctx), Filter(flagKeys[1..], Present(s));
      if flagKeys[0] in s.flags {
        assert Singles(h, s, flagKeys, ctx) == [Evaluate(h, s.flags[flagKeys[0]], ctx)] + rest;
        assert Filter(flagKeys, Present(s)) == [flagKeys[0]] + present;
      } else {
        assert Singles(h, s, flagKeys, ctx) == rest && Filter(flagKeys, Present(s)) == present;
      }
    }
  }

  /** No endpoint answers for `k`: the caller's default, 404, and no entry in any batch. */
  ghost predicate NotFoundEverywhere(h: Host, s: CacheState, k: string) {
    && (forall ctx, defaultValue :: EvaluateFromCache(h, s, k, ctx, defaultValue)
          == Ok(EvaluationResult(k, defaultValue, FLAG_NOT_FOUND, ctx.environment, 0)))
    && (forall ctx :: Single(h, s, k, ctx) == Err(NotFound404))
    && (forall flagKeys, ctx, r | r in Singles(h, s, flagKeys, ctx) :: r.flagKey != k)
  }

  lemma {:induction false} SinglesOmitAbsent(h: Host, s: CacheState, flagKeys: seq<string>, ctx: Context, k: string)
    requires s.ready && Keyed(s.flags) && k !in s.flags
    ensures forall r | r in Singles(h, s, flagKeys, ctx) :: r.flagKey != k
  {
    if flagKeys != [] {
      SinglesOmitAbsent(h, s, flagKeys[1..], ctx, k);
    }
  }

  /** A key that is not in a ready cache is unknown to every endpoint, and only such a key is. */
  lemma AbsentIsNotFound(h: Host, s: CacheState, k: string)
    requires s.ready && Keyed(s.flags)
    ensures NotFoundEverywhere(h, s, k) <==> k !in s.flags
  {
    if k !in s.flags {
      forall flagKeys, ctx, r | r in Singles(h, s, flagKeys, ctx) ensures r.flagKey != k {
        SinglesOmitAbsent(h, s, flagKeys, ctx, k);
      }
    } else {
      var ctx := Context("", "", map[]);
      assert Single(h, s, k, ctx).Ok?;
    }
  }
}
