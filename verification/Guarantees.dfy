/**
 What callers may rely on in every reachable state and over every run.
 */
module Guarantees {
  import opened Values
  import opened Evaluation
  import opened FlagCaches
  import opened Writes
  import opened Replicas
  import opened Protocol
  import opened Coherence
  import opened AuditTrail
  import opened Schedules
  import opened References
  import opened Versions
  import StableSorting

  // ---------------------------------------------------------------- coherence

  /**
   In every reachable state, whatever a process serves for a key is the committed row, or an
   invalidation of the key is on its way there, or it was missed.
   */
  lemma ServedIsCommittedOrCovered(h: Host, s: State, r: ReplicaId, k: string)
    requires Reachable(h, s) && r in s.replicas && k in s.replicas[r].cache.flags
    ensures var rep := s.replicas[r];
      || (k in s.rows && rep.cache.flags[k] == SnapshotOf(s.rows[k]))
      || InFlight(rep, k) || k in rep.missed
  {
    ReachableInv(h, s);
    assert ReplicaInv(s.rows, s.txns, s.replicas[r]);
  }

  /**
   What a process answers for `k` is known to be current: nothing about the key is in flight or was
   missed, or the snapshot carries the row's id and version and no update of the flag was lost.
   */
  ghost predicate KnownCurrent(s: State, r: ReplicaId, k: string)
    requires r in s.replicas
  {
    var rep := s.replicas[r];
    || !Covered(rep, k)
    || (&& k in rep.cache.flags && k in s.rows && NoUpdateLost(s, k)
        && SameVersion(rep.cache.flags[k], s.rows[k]))
  }

  /**
   An evaluation of a key that is known to be current finds nothing, at any endpoint, or gives
   exactly what the committed row gives.
   */
  lemma AnswersMatchDatabase(h: Host, s: State, r: ReplicaId, k: string, ctx: Context, defaultValue: Value)
    requires Reachable(h, s) && r in s.replicas && s.replicas[r].phase == Ready && KnownCurrent(s, r, k)
    ensures var cache := s.replicas[r].cache;
      if k !in cache.flags then NotFoundEverywhere(h, cache, k)
      else
        && k in s.rows
        && var row := s.rows[k];
        && var d := DecideFlag(h, k, row.defaultValue, row.environments, ctx);
        && var answer := EvaluationResult(k, d.value, d.reason, ctx.environment, row.version);
        && Single(h, cache, k, ctx) == Ok(answer) && EvaluateFromCache(h, cache, k, ctx, defaultValue) == Ok(answer)
  {
    ReachableInv(h, s);
    assert ReplicaInv(s.rows, s.txns, s.replicas[r]);
    if k !in s.replicas[r].cache.flags {
      AbsentIsNotFound(h, s.replicas[r].cache, k);
    } else if k in s.rows && NoUpdateLost(s, k) {
      VersionDecidesCurrency(h, s, r, k);
    }
  }

  /** The answer served for `k` is the one the committed row gives exactly when it carries the row's version. */
  ghost predicate AnswerTells(h: Host, s: State, r: ReplicaId, k: string, ctx: Context)
    requires r in s.replicas
  {
    var cache := s.replicas[r].cache;
    && k in s.rows && k in cache.flags && Single(h, cache, k, ctx).Ok?
    && var answer := Single(h, cache, k, ctx).value;
    && (answer == Evaluate(h, SnapshotOf(s.rows[k]), ctx) <==> answer.flagVersion == s.rows[k].version)
    && (answer.flagVersion == s.rows[k].version <==> cache.flags[k] == SnapshotOf(s.rows[k]))
  }

  /**
   The version in a response shows whether the answer is current, as long as no update of the flag
   was lost. The flag must be the one in the table; the foreign key of the audit log sees to that.
   */
  lemma AnswerShowsCurrency(h: Host, s: State, r: ReplicaId, k: string, ctx: Context)
    requires Reachable(h, s) && r in s.replicas && s.replicas[r].phase == Ready && k in s.replicas[r].cache.flags
    requires ReferencesHold(s) || (k in s.rows && s.replicas[r].cache.flags[k].id == Some(s.rows[k].id))
    requires NoUpdateLost(s, k)
    ensures AnswerTells(h, s, r, k, ctx)
  {
    ReachableInv(h, s);
    assert ReplicaInv(s.rows, s.txns, s.replicas[r]);
    if ReferencesHold(s) { HeldFlagExists(h, s, r, k); }
    VersionDecidesCurrency(h, s, r, k);
    NeverAhead(h, s, r, k);
  }

  /** Likewise, whatever was lost before, as long as no update of the flag is lost after the process has loaded it. */
  lemma AnswerShowsCurrencySinceLoad(h: Host, s: State, r: ReplicaId, listing: seq<Row>, steps: seq<Step>,
                                     k: string, ctx: Context)
    requires Reachable(h, s) && CanStep(s, Load(r, listing)) && k in s.rows
    requires IsRun(h, Apply(h, s, Load(r, listing)), steps) && NeverRestarts(steps, r)
    requires NoneOverwrites(h, Apply(h, s, Load(r, listing)), steps, s.rows[k].id)
    requires var s' := Final(h, Apply(h, s, Load(r, listing)), steps);
      && ReferencesHold(s')
      && r in s'.replicas && s'.replicas[r].phase == Ready && k in s'.replicas[r].cache.flags
    ensures AnswerTells(h, Final(h, Apply(h, s, Load(r, listing)), steps), r, k, ctx)
  {
    var s0 := Apply(h, s, Load(r, listing));
    var s' := Final(h, s0, steps);
    OneStep(h, s, Load(r, listing));
    ReachableRun(h, s, [Load(r, listing)]);
    ReachableRun(h, s0, steps);
    VersionDecidesSinceLoad(h, s, r, listing, k, steps);
    HeldFlagExists(h, s', r, k);
    ReachableVersions(h, s');
    ReachableInv(h, s');
    assert ReplicaInv(s'.rows, s'.txns, s'.replicas[r]);
    assert HoldsPast(s', Held(s'.replicas[r]));
  }

  /**
   A disabled environment without an override serves nobody anything but a default: the row's, or
   the caller's (404 at the endpoints) when the process has dropped the flag.
   */
  lemma DisabledFlagIsOff(h: Host, s: State, r: ReplicaId, k: string, ctx: Context, defaultValue: Value)
    requires Reachable(h, s) && r in s.replicas && s.replicas[r].phase == Ready && KnownCurrent(s, r, k)
    requires k in s.rows && ctx.environment in s.rows[k].environments
    requires var env := s.rows[k].environments[ctx.environment];
      env.enabled.GetOr(false) == false && env.forced.GetOr(Null) == Null
    ensures var cache := s.replicas[r].cache;
      var off := EvaluationResult(k, s.rows[k].defaultValue, FLAG_DISABLED, ctx.environment, s.rows[k].version);
      || NotFoundEverywhere(h, cache, k)
      || (Single(h, cache, k, ctx) == Ok(off) && EvaluateFromCache(h, cache, k, ctx, defaultValue) == Ok(off))
  {
    AnswersMatchDatabase(h, s, r, k, ctx, defaultValue);
  }

  /** With nothing in flight and nothing missed, the cache is a part of the database. */
  lemma QuiescentCacheIsSubmap(h: Host, s: State, r: ReplicaId)
    requires Reachable(h, s) && r in s.replicas
    requires s.replicas[r].listener.inbox == [] && s.replicas[r].listener.tasks == [] && s.replicas[r].missed == {}
    ensures var flags := s.replicas[r].cache.flags;
      forall k | k in flags :: k in s.rows && flags[k] == SnapshotOf(s.rows[k])
  {
    forall k | k in s.replicas[r].cache.flags
      ensures k in s.rows && s.replicas[r].cache.flags[k] == SnapshotOf(s.rows[k])
    {
      ServedIsCommittedOrCovered(h, s, r, k);
    }
  }

  /** Before the snapshot is installed every evaluation is refused and nothing has been received. */
  lemma NothingBeforeWarmUp(h: Host, s: State, r: ReplicaId, k: string, ctx: Context)
    requires Reachable(h, s) && r in s.replicas && s.replicas[r].phase != Ready
    ensures Single(h, s.replicas[r].cache, k, ctx) == Err(Unavailable503)
    ensures forall defaultValue :: EvaluateFromCache(h, s.replicas[r].cache, k, ctx, defaultValue) == Err(CacheNotReady)
    ensures s.replicas[r].listener == NOT_LISTENING
  {
    ReachableInv(h, s);
    assert ReplicaInv(s.rows, s.txns, s.replicas[r]);
  }

  /** In every reachable state a snapshot is stored under its own key, so a batch answers what was asked. */
  lemma BatchAnswersRequestedKeys(h: Host, s: State, r: ReplicaId, flagKeys: seq<string>, ctx: Context)
    requires Reachable(h, s) && r in s.replicas && s.replicas[r].phase == Ready
    ensures var cache := s.replicas[r].cache;
      StableSorting.Map(KeyOf(), Singles(h, cache, flagKeys, ctx)) == StableSorting.Filter(flagKeys, Present(cache))
  {
    ReachableInv(h, s);
    assert ReplicaInv(s.rows, s.txns, s.replicas[r]);
    BatchKeys(h, s.replicas[r].cache, flagKeys, ctx);
  }

  // ---------------------------------------------------------------- kill switch

  /** `now` serves nothing that `before` did not serve. */
  ghost predicate ServesNoMore(before: Flags, now: Flags) {
    forall k | k in now :: k in before && now[k] == before[k]
  }

  lemma ShrinkStep(h: Host, s: State, step: Step, r: ReplicaId)
    requires Inv(s) && CanStep(s, step) && step != Restart(r)
    requires r in s.replicas && s.replicas[r].phase == Ready
    ensures var s' := Apply(h, s, step);
      && r in s'.replicas && s'.replicas[r].phase == Ready
      && ServesNoMore(s.replicas[r].cache.flags, s'.replicas[r].cache.flags)
  {}

  /** Between restarts a ready process only ever serves fewer flags, and never a different snapshot. */
  lemma {:induction false} ServedOnlyShrinks(h: Host, s: State, steps: seq<Step>, r: ReplicaId)
    requires Inv(s) && IsRun(h, s, steps) && NeverRestarts(steps, r)
    requires r in s.replicas && s.replicas[r].phase == Ready
    ensures var s' := Final(h, s, steps);
      && r in s'.replicas && s'.replicas[r].phase == Ready
      && ServesNoMore(s.replicas[r].cache.flags, s'.replicas[r].cache.flags)
    decreases |steps|
  {
    if steps != [] {
      NeverRestartsLater(steps, r);
      StepKeepsInv(h, s, steps[0]);
      ShrinkStep(h, s, steps[0], r);
      ServedOnlyShrinks(h, Apply(h, s, steps[0]), steps[1..], r);
    }
  }

  /**
   Once a process has handled any invalidation of a flag, it does not serve the flag any more, at any
   endpoint and whatever happens, until it restarts. The message's version plays no part.
   */
  lemma KillSwitch(h: Host, s: State, r: ReplicaId, i: nat, k: string, steps: seq<Step>)
    requires Reachable(h, s) && CanStep(s, RunTask(r, i)) && k in Removes(s.replicas[r].listener.tasks[i])
    requires IsRun(h, Apply(h, s, RunTask(r, i)), steps) && NeverRestarts(steps, r)
    ensures var s' := Final(h, Apply(h, s, RunTask(r, i)), steps);
      r in s'.replicas && NotFoundEverywhere(h, s'.replicas[r].cache, k)
  {
    var after := Apply(h, s, RunTask(r, i));
    ReachableInv(h, s);
    assert ReplicaInv(s.rows, s.txns, s.replicas[r]);
    StepKeepsInv(h, s, RunTask(r, i));
    assert k !in after.replicas[r].cache.flags;
    RunKeepsInv(h, after, steps);
    ServedOnlyShrinks(h, after, steps, r);
    var s' := Final(h, after, steps);
    assert ReplicaInv(s'.rows, s'.txns, s'.replicas[r]);
    AbsentIsNotFound(h, s'.replicas[r].cache, k);
  }

  // ---------------------------------------------------------------- delivery

  /** Once everything in flight is handled, in any order, a process serves only committed rows and missed keys. */
  lemma DrainedCacheIsCurrent(h: Host, s: State, steps: seq<Step>, r: ReplicaId)
    requires Reachable(h, s) && r in s.replicas && HandlesAll(h, s, steps, r)
    ensures var s' := Final(h, s, steps);
      && s'.rows == s.rows && r in s'.replicas && s'.replicas[r].missed == s.replicas[r].missed
      && var flags := s'.replicas[r].cache.flags;
         forall k | k in flags && k !in s.replicas[r].missed :: k in s.rows && flags[k] == SnapshotOf(s.rows[k])
  {
    ReachableInv(h, s);
    AnyHandlingDrains(h, s, steps, r);
    assert ReplicaInv(s.rows, s.txns, s.replicas[r]);
  }

  /** In whatever order the process handles what is in flight, no endpoint of it answers for `k` in the end. */
  ghost predicate GoneOnceHandled(h: Host, s: State, r: ReplicaId, k: string)
    requires r in s.replicas
  {
    forall steps | HandlesAll(h, s, steps, r) ::
      && Final(h, s, steps).rows == s.rows && r in Final(h, s, steps).replicas
      && NotFoundEverywhere(h, Final(h, s, steps).replicas[r].cache, k)
  }

  /** What has been told to a subscribed process is gone from it once its messages are handled. */
  lemma ToldIsGoneOnceHandled(h: Host, s: State, s': State, r: ReplicaId, work: Work)
    requires Inv(s) && r in s.replicas && s.replicas[r].phase == Ready && s.replicas[r].listener.subscribed
    requires s'.replicas == AllTold(s.replicas, work, true) && work.key != ""
    ensures r in s'.replicas && GoneOnceHandled(h, s', r, work.key)
  {
    assert ReplicaInv(s.rows, s.txns, s.replicas[r]);
    ToldIsInFlight(s.replicas[r], work);
    forall steps | HandlesAll(h, s', steps, r)
      ensures Final(h, s', steps).rows == s'.rows && r in Final(h, s', steps).replicas
      ensures NotFoundEverywhere(h, Final(h, s', steps).replicas[r].cache, work.key)
    {
      AnyHandlingDrains(h, s', steps, r);
      AbsentIsNotFound(h, Drained(s'.replicas[r]).cache, work.key);
    }
  }

  /**
   A change that is delivered, a delete included, takes the flag away from every subscribed process
   once its message is handled. So does the creation of a flag: it is served after the next restart.
   */
  lemma DeliveredWriteEvicts(h: Host, s: State, r: ReplicaId, w: TxnId, req: Request)
    requires Reachable(h, s) && r in s.replicas && s.replicas[r].phase == Ready && s.replicas[r].listener.subscribed
    requires Accepted(h, s, w, req)
    ensures IsRun(h, s, WriteSteps(w, req, true))
    ensures var s' := Final(h, s, WriteSteps(w, req, true));
      r in s'.replicas && GoneOnceHandled(h, s', r, Prepare(h, req, s.rows).value.key)
  {
    ReachableInv(h, s);
    WorkIsLocal(h, req, s.rows);
    WriteGoesThrough(h, s, w, req, true);
    ToldIsGoneOnceHandled(h, s, Final(h, s, WriteSteps(w, req, true)), r, Prepare(h, req, s.rows).value);
  }

  // ---------------------------------------------------------------- restarts

  function RestartSteps(r: ReplicaId, listing: seq<Row>): seq<Step> {
    [Restart(r)] + [Load(r, listing), Install(r), Subscribe(r)]
  }

  /**
   A restart repairs everything: the process then serves the whole table as it is, and only changes
   that had been announced and not committed when it loaded can pass it by.
   */
  lemma RestartServesTable(h: Host, s: State, r: ReplicaId, listing: seq<Row>)
    requires Reachable(h, s) && r in s.replicas && IsListing(listing, s.rows)
    ensures IsRun(h, s, RestartSteps(r, listing))
    ensures var s' := Final(h, s, RestartSteps(r, listing));
      && r in s'.replicas && s' == WithReplica(s, r, s'.replicas[r])
      && var rep := s'.replicas[r];
      && rep.phase == Ready && rep.listener == Subscribed(NOT_LISTENING) && rep.missed == Announced(s.txns)
      && rep.cache.flags.Keys == s.rows.Keys && forall k | k in s.rows :: rep.cache.flags[k] == SnapshotOf(s.rows[k])
  {
    ReachableInv(h, s);
    var s0 := Apply(h, s, Restart(r));
    OneStep(h, s, Restart(r));
    ProcessStarts(h, s0, r, listing);
    LoadedSnapshots(s.rows, listing);
    RunConcat(h, s, [Restart(r)], [Load(r, listing), Install(r), Subscribe(r)]);
    var s' := Final(h, s0, [Load(r, listing), Install(r), Subscribe(r)]);
    assert s0.replicas[r := s'.replicas[r]] == s.replicas[r := s'.replicas[r]];
  }
}
