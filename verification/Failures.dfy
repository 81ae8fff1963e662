/**
 What the protocol does not give its callers: stale flags that nothing repairs, evictions without a
 change, lost updates, and where the version does not tell.
 */
module Failures {
  import opened Values
  import opened FlagCaches
  import opened Writes
  import opened Replicas
  import opened Protocol
  import opened Coherence
  import opened AuditTrail
  import opened Schedules
  import opened Versions
  import opened Guarantees

  // ---------------------------------------------------------------- stale flags

  /** A ready process serves something else than the committed row, and no invalidation is on its way. */
  predicate ServedStale(s: State, r: ReplicaId, k: string) {
    && r in s.replicas && s.replicas[r].phase == Ready
    && k in s.replicas[r].cache.flags && !InFlight(s.replicas[r], k)
    && (k in s.rows ==> s.replicas[r].cache.flags[k] != SnapshotOf(s.rows[k]))
  }

  /** A ready process serves the committed row, and no invalidation is on its way. */
  predicate ServedCurrent(s: State, r: ReplicaId, k: string) {
    && r in s.replicas && s.replicas[r].phase == Ready
    && k in s.replicas[r].cache.flags && !InFlight(s.replicas[r], k)
    && Current(s.rows, s.replicas[r], k)
  }

  /** Every accepted request for an existing flag changes its version or removes it. */
  lemma WriteChangesSnapshot(h: Host, req: Request, rows: Rows)
    requires WellKeyed(rows) && Prepare(h, req, rows).Ok? && Prepare(h, req, rows).value.key in rows
    ensures var work := Prepare(h, req, rows).value;
      && Applied(rows, work.write).Some?
      && var rows' := Applied(rows, work.write).value;
      && (work.key in rows' ==> SnapshotOf(rows'[work.key]) != SnapshotOf(rows[work.key]))
  {
    WorkIsLocal(h, req, rows);
  }

  /**
   A process that is not subscribed, or any process when the publish fails, keeps serving the old
   row of a flag that was changed or deleted, with nothing in flight that could correct it.
   */
  lemma MissedWriteIsServedStale(h: Host, s: State, r: ReplicaId, k: string, w: TxnId, req: Request, delivered: bool)
    requires Reachable(h, s) && ServedCurrent(s, r, k)
    requires Accepted(h, s, w, req) && Prepare(h, req, s.rows).value.key == k
    requires !delivered || !s.replicas[r].listener.subscribed
    ensures IsRun(h, s, WriteSteps(w, req, delivered))
    ensures var s' := Final(h, s, WriteSteps(w, req, delivered));
      && ServedStale(s', r, k)
      && s'.replicas[r] == s.replicas[r].(missed := s.replicas[r].missed + {k})
  {
    ReachableInv(h, s);
    WriteChangesSnapshot(h, req, s.rows);
    WriteGoesThrough(h, s, w, req, delivered);
  }

  /** So does a process that loses its connection before it has read the message. */
  lemma LostMessageIsServedStale(h: Host, s: State, r: ReplicaId, k: string, w: TxnId, req: Request)
    requires Reachable(h, s) && ServedCurrent(s, r, k)
    requires Accepted(h, s, w, req) && Prepare(h, req, s.rows).value.key == k
    ensures var steps := WriteSteps(w, req, true) + [LoseConnection(r)];
      && IsRun(h, s, steps)
      && var s' := Final(h, s, steps);
      && ServedStale(s', r, k) && s'.replicas[r].cache == s.replicas[r].cache
  {
    ReachableInv(h, s);
    WriteChangesSnapshot(h, req, s.rows);
    WriteGoesThrough(h, s, w, req, true);
    RunThenStep(h, s, WriteSteps(w, req, true), LoseConnection(r));
    assert Mentioned([]) == {};
  }

  lemma CommitChangesSnapshot(h: Host, s: State, w: TxnId)
    requires Reachable(h, s) && w in s.txns && Applied(s.rows, s.txns[w].work.write).Some?
    requires var work := s.txns[w].work;
      work.read.Some? && work.key in s.rows && s.rows[work.key] == work.read.value
    ensures var k := s.txns[w].work.key;
      var rows := Applied(s.rows, s.txns[w].work.write).value;
      k in rows ==> SnapshotOf(rows[k]) != SnapshotOf(s.rows[k])
  {
    ReachableAudit(h, s);
    assert TxnAuditInv(s, w);
  }

  /** A process that starts just before a commit serves what the table held before it. */
  lemma StartThenCommit(h: Host, s: State, r: ReplicaId, listing: seq<Row>, w: TxnId, k: string)
    requires WellKeyed(s.rows) && CanStep(s, Load(r, listing)) && InOrder(s.replicas[r]) && CanStep(s, Commit(w))
    requires k in s.rows
    ensures var steps := [Load(r, listing), Install(r), Subscribe(r)] + [Commit(w)];
      && IsRun(h, s, steps)
      && var s' := Final(h, s, steps);
      && s'.rows == Applied(s.rows, s.txns[w].work.write).value
      && r in s'.replicas
      && var rep := s'.replicas[r];
      && rep.phase == Ready && rep.listener == Subscribed(NOT_LISTENING)
      && k in rep.cache.flags && rep.cache.flags[k] == SnapshotOf(s.rows[k]) && !InFlight(rep, k)
  {
    var start := [Load(r, listing), Install(r), Subscribe(r)];
    ProcessStarts(h, s, r, listing);
    LoadedSnapshots(s.rows, listing);
    RunThenStep(h, s, start, Commit(w));
    assert Mentioned([]) == {};
  }

  /** So does a process that starts between the announcement and the commit, although it is subscribed. */
  lemma EarlySnapshotIsServedStale(h: Host, s: State, r: ReplicaId, listing: seq<Row>, w: TxnId)
    requires Reachable(h, s) && CanStep(s, Load(r, listing)) && CanStep(s, Commit(w))
    requires var work := s.txns[w].work;
      work.read.Some? && work.key in s.rows && s.rows[work.key] == work.read.value
    ensures var k := s.txns[w].work.key;
      var steps := [Load(r, listing), Install(r), Subscribe(r)] + [Commit(w)];
      && IsRun(h, s, steps)
      && var s' := Final(h, s, steps);
      && ServedStale(s', r, k) && s'.replicas[r].listener.subscribed
      && s'.replicas[r].cache.flags[k] == SnapshotOf(s.rows[k])
  {
    ReachableInv(h, s);
    CommitChangesSnapshot(h, s, w);
    StartThenCommit(h, s, r, listing, w, s.txns[w].work.key);
  }

  /** No step announces a change of `k`. */
  ghost predicate NobodyAnnounces(h: Host, s: State, steps: seq<Step>, k: string)
    requires IsRun(h, s, steps)
    decreases |steps|
  {
    steps == [] ||
    (&& (steps[0].Publish? ==> s.txns[steps[0].w].work.key != k)
     && NobodyAnnounces(h, Apply(h, s, steps[0]), steps[1..], k))
  }

  /**
   Reconnecting does not help: what is served without an invalidation in flight is served until the
   next announcement or restart.
   */
  lemma {:induction false} StaleStaysStale(h: Host, s: State, steps: seq<Step>, r: ReplicaId, k: string)
    requires Inv(s) && IsRun(h, s, steps) && NeverRestarts(steps, r) && NobodyAnnounces(h, s, steps, k)
    requires r in s.replicas && k in s.replicas[r].cache.flags && !InFlight(s.replicas[r], k)
    ensures var s' := Final(h, s, steps);
      && r in s'.replicas && k in s'.replicas[r].cache.flags
      && s'.replicas[r].cache.flags[k] == s.replicas[r].cache.flags[k]
    decreases |steps|
  {
    if steps != [] {
      var s' := Apply(h, s, steps[0]);
      StepKeepsInv(h, s, steps[0]);
      NeverRestartsLater(steps, r);
      StaleStep(h, s, steps[0], r, k);
      StaleStaysStale(h, s', steps[1..], r, k);
    }
  }

  /** A step of the process itself that serves `k` without an invalidation of it in flight. */
  lemma StaleProcessStep(rep: Replica, step: Step, txns: map<TxnId, Txn>, k: string)
    requires InOrder(rep) && k in rep.cache.flags && !InFlight(rep, k)
    requires step.Subscribe? || step.Receive? || step.RunTask? || step.LoseConnection?
    requires step.Receive? ==> rep.listener.inbox != []
    requires step.RunTask? ==> step.i < |rep.listener.tasks|
    ensures var rep' := ReplicaAfter(rep, step, txns);
      !InFlight(rep', k) && k in rep'.cache.flags && rep'.cache.flags[k] == rep.cache.flags[k]
  {}

  lemma ToldKeepsInFlight(rep: Replica, work: Work, delivered: bool, k: string)
    requires work.key != k && !InFlight(rep, k)
    ensures !InFlight(Told(rep, work, delivered), k)
  {}

  lemma StalePublish(h: Host, s: State, w: TxnId, delivered: bool, r: ReplicaId, k: string)
    requires CanStep(s, Publish(w, delivered)) && s.txns[w].work.key != k
    requires r in s.replicas && k in s.replicas[r].cache.flags && !InFlight(s.replicas[r], k)
    ensures var s' := Apply(h, s, Publish(w, delivered));
      && r in s'.replicas && !InFlight(s'.replicas[r], k) && s'.replicas[r].cache == s.replicas[r].cache
  {
    ToldKeepsInFlight(s.replicas[r], s.txns[w].work, delivered, k);
  }

  /** A step other than a publish or a step of the process itself does not concern the process. */
  lemma UnconcernedStep(h: Host, s: State, step: Step, r: ReplicaId)
    requires CanStep(s, step) && !step.Publish? && (IsProcessStep(step) ==> step.r != r)
    ensures r in s.replicas ==> r in Apply(h, s, step).replicas && Apply(h, s, step).replicas[r] == s.replicas[r]
  {}

  lemma StaleStep(h: Host, s: State, step: Step, r: ReplicaId, k: string)
    requires Inv(s) && CanStep(s, step) && step != Restart(r) && (step.Publish? ==> s.txns[step.w].work.key != k)
    requires r in s.replicas && k in s.replicas[r].cache.flags && !InFlight(s.replicas[r], k)
    ensures var s' := Apply(h, s, step);
      && r in s'.replicas && !InFlight(s'.replicas[r], k) && k in s'.replicas[r].cache.flags
      && s'.replicas[r].cache.flags[k] == s.replicas[r].cache.flags[k]
  {
    if step.Publish? {
      StalePublish(h, s, step.w, step.delivered, r, k);
    } else if IsProcessStep(step) && step.r == r {
      assert InOrder(s.replicas[r]);
      StaleProcessStep(s.replicas[r], step, s.txns, k);
    } else {
      UnconcernedStep(h, s, step, r);
    }
  }

  // ---------------------------------------------------------------- evicted or missed without a change

  /**
   The invalidation precedes the commit, so a change that is rolled back, a delete included, still
   takes the flag away from every subscribed process, although its row never changed.
   */
  lemma RolledBackChangeStillEvicts(h: Host, s: State, r: ReplicaId, w: TxnId, req: Request)
    requires Reachable(h, s) && r in s.replicas && s.replicas[r].phase == Ready && s.replicas[r].listener.subscribed
    requires Accepted(h, s, w, req)
    ensures IsRun(h, s, AbortSteps(w, req, true))
    ensures var s' := Final(h, s, AbortSteps(w, req, true));
      && s'.rows == s.rows && s'.audit == s.audit
      && r in s'.replicas && GoneOnceHandled(h, s', r, Prepare(h, req, s.rows).value.key)
  {
    ReachableInv(h, s);
    WorkIsLocal(h, req, s.rows);
    AnnouncedThenRolledBack(h, s, w, req, true);
    ToldIsGoneOnceHandled(h, s, Final(h, s, AbortSteps(w, req, true)), r, Prepare(h, req, s.rows).value);
  }

  /** A missed key need not be stale: when the change is rolled back, the process still serves the row. */
  lemma MissedMayBeCurrent(h: Host, s: State, r: ReplicaId, k: string, w: TxnId, req: Request, delivered: bool)
    requires Reachable(h, s) && ServedCurrent(s, r, k)
    requires Accepted(h, s, w, req) && Prepare(h, req, s.rows).value.key == k
    requires !delivered || !s.replicas[r].listener.subscribed
    ensures IsRun(h, s, AbortSteps(w, req, delivered))
    ensures var s' := Final(h, s, AbortSteps(w, req, delivered));
      ServedCurrent(s', r, k) && k in s'.replicas[r].missed
  {
    ReachableInv(h, s);
    AnnouncedThenRolledBack(h, s, w, req, delivered);
    var rep := Told(s.replicas[r], Prepare(h, req, s.rows).value, delivered);
    assert rep == s.replicas[r].(missed := s.replicas[r].missed + {k});
  }

  // ---------------------------------------------------------------- lost updates

  /** The second request reads the row; the first one goes through; the handler of the second one returns. */
  function OverlapSteps(v: TxnId, w: TxnId, first: Request, second: Request): seq<Step> {
    [Begin(w, second)] + WriteSteps(v, first, true) + [Flush(w), Publish(w, true)]
  }

  /** Two requests that update the same flag. */
  ghost predicate BothUpdate(h: Host, s: State, k: string, v: TxnId, w: TxnId, first: Request, second: Request) {
    && Accepted(h, s, v, first) && Accepted(h, s, w, second) && v != w
    && var a, b := Prepare(h, first, s.rows).value, Prepare(h, second, s.rows).value;
    && a.key == b.key == k && a.write.Update? && b.write.Update?
  }

  lemma UpdatesOverlap(h: Host, s: State, k: string, v: TxnId, w: TxnId, first: Request, second: Request)
    requires WellKeyed(s.rows) && BothUpdate(h, s, k, v, w, first, second)
    ensures k in s.rows && IsRun(h, s, OverlapSteps(v, w, first, second))
    ensures var a, b := Prepare(h, first, s.rows).value, Prepare(h, second, s.rows).value;
      var s' := Final(h, s, OverlapSteps(v, w, first, second));
      && w in s'.txns && s'.txns[w] == Txn(b, Published, |Log(s.audit, b.entry.flagId)|)
      && s'.rows == s.rows[k := Assign(s.rows[k], a.write.columns)]
      && s'.audit == s.audit + [a.entry] && s'.overwritten == s.overwritten
      && s'.replicas == AllTold(AllTold(s.replicas, a, true), b, true)
  {
    WorkIsLocal(h, first, s.rows);
    WorkIsLocal(h, second, s.rows);
    var s1 := Apply(h, s, Begin(w, second));
    OneStep(h, s, Begin(w, second));
    WriteGoesThrough(h, s1, v, first, true);
    RunConcat(h, s, [Begin(w, second)], WriteSteps(v, first, true));
    var s2 := Final(h, s1, WriteSteps(v, first, true));
    RestOfHandler(h, s2, w, true);
    RunConcat(h, s, [Begin(w, second)] + WriteSteps(v, first, true), [Flush(w), Publish(w, true)]);
  }

  /** The commit of an update after another one has been committed over the row it read. */
  lemma LateCommit(s: State, w: TxnId, audit: seq<AuditRow>, first: AuditRow, id: FlagId)
    requires w in s.txns && s.txns[w].work.write.Update? && Applied(s.rows, s.txns[w].work.write).Some?
    requires var work := s.txns[w].work;
      WriteKey(work.write) == work.key && WriteId(work.write) == work.entry.flagId == id && work.entry.action != Created
    requires s.audit == audit + [first] && first.flagId == id && first.action != Created
    requires s.txns[w].seen == |Log(audit, id)|
    ensures var s', work := Committed(s, w), s.txns[w].work;
      && work.key in s'.rows && s'.rows[work.key].id == id
      && s'.rows[work.key].version == work.write.columns.version
      && Edits(Log(s'.audit, id)) == Edits(Log(audit, id)) + 2
      && id in s'.overwritten
  {
    TwoEntries(audit, first, s.txns[w].work.entry, id);
  }

  /** Two overlapping updates of one flag: both are audited, the version grows by one only. */
  lemma OverlappingUpdatesLoseAVersion(h: Host, s: State, k: string, v: TxnId, w: TxnId, first: Request,
                                       second: Request)
    requires Reachable(h, s) && BothUpdate(h, s, k, v, w, first, second)
    ensures k in s.rows
    ensures var steps := OverlapSteps(v, w, first, second) + [Commit(w)];
      && IsRun(h, s, steps)
      && var s' := Final(h, s, steps);
      && k in s'.rows && s'.rows[k].id == s.rows[k].id
      && s'.rows[k].version == s.rows[k].version + 1
      && Edits(Log(s'.audit, s.rows[k].id)) == Edits(Log(s.audit, s.rows[k].id)) + 2
      && s.rows[k].id in s'.overwritten
  {
    ReachableInv(h, s);
    var a, b := Prepare(h, first, s.rows).value, Prepare(h, second, s.rows).value;
    WorkIsLocal(h, first, s.rows);
    WorkIsLocal(h, second, s.rows);
    UpdatesOverlap(h, s, k, v, w, first, second);
    LateCommit(Final(h, s, OverlapSteps(v, w, first, second)), w, s.audit, a.entry, s.rows[k].id);
    RunThenStep(h, s, OverlapSteps(v, w, first, second), Commit(w));
  }

  lemma TwoEntries(audit: seq<AuditRow>, a: AuditRow, b: AuditRow, id: FlagId)
    requires a.flagId == b.flagId == id && a.action != Created && b.action != Created
    ensures |Log(audit + [a], id)| == |Log(audit, id)| + 1
    ensures Edits(Log(audit + [a] + [b], id)) == Edits(Log(audit, id)) + 2
  {}

  /** Between the two commits: the second change is announced, and its commit will bring the same version again. */
  lemma BetweenCommits(h: Host, s: State, k: string, v: TxnId, w: TxnId, first: Request, second: Request)
    requires WellKeyed(s.rows) && BothUpdate(h, s, k, v, w, first, second)
    ensures k in s.rows && IsRun(h, s, OverlapSteps(v, w, first, second))
    ensures var a, b := Prepare(h, first, s.rows).value.write, Prepare(h, second, s.rows).value.write;
      var s' := Final(h, s, OverlapSteps(v, w, first, second));
      var row := Assign(s.rows[k], a.columns);
      && WellKeyed(s'.rows) && CanStep(s', Commit(w)) && s'.txns[w].work.write == b
      && Applied(s.rows, a) == Some(s'.rows) && k in s'.rows && s'.rows[k] == row
      && Applied(s'.rows, b).value == s'.rows[k := Assign(row, b.columns)]
      && Assign(row, b.columns).version == row.version
  {
    WorkIsLocal(h, first, s.rows);
    WorkIsLocal(h, second, s.rows);
    AppliedIsLocal(s.rows, Prepare(h, first, s.rows).value.write);
    UpdatesOverlap(h, s, k, v, w, first, second);
  }

  /**
   On an overwritten flag the version does not tell: a process that starts between the two commits
   holds the row's id and version for good, whatever else the second change assigned.
   */
  lemma SameVersionOtherContents(h: Host, s: State, k: string, v: TxnId, w: TxnId, first: Request, second: Request,
                                 r: ReplicaId, listing: seq<Row>)
    requires Reachable(h, s) && BothUpdate(h, s, k, v, w, first, second)
    requires r in s.replicas && s.replicas[r].phase == Down
    requires k in s.rows && Applied(s.rows, Prepare(h, first, s.rows).value.write).Some?
    requires IsListing(listing, Applied(s.rows, Prepare(h, first, s.rows).value.write).value)
    ensures var a, b := Prepare(h, first, s.rows).value.write, Prepare(h, second, s.rows).value.write;
      var row := Assign(s.rows[k], a.columns);
      var restart := [Load(r, listing), Install(r), Subscribe(r)];
      var steps := OverlapSteps(v, w, first, second) + (restart + [Commit(w)]);
      && IsRun(h, s, steps)
      && var s' := Final(h, s, steps);
      && k in s'.rows && r in s'.replicas && s'.replicas[r].listener.subscribed
      && k in s'.replicas[r].cache.flags && SameVersion(s'.replicas[r].cache.flags[k], s'.rows[k])
      && (ServedStale(s', r, k) <==> SnapshotOf(Assign(row, b.columns)) != SnapshotOf(row))
  {
    ReachableInv(h, s);
    BetweenCommits(h, s, k, v, w, first, second);
    UpdatesOverlap(h, s, k, v, w, first, second);
    var s1 := Final(h, s, OverlapSteps(v, w, first, second));
    assert InOrder(s.replicas[r]) && s1.replicas[r] == s.replicas[r];
    StartThenCommit(h, s1, r, listing, w, k);
    RunConcat(h, s, OverlapSteps(v, w, first, second), [Load(r, listing), Install(r), Subscribe(r)] + [Commit(w)]);
  }
}
