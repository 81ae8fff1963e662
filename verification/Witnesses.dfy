/**
 Runs from empty tables that reach each of the failures: one flag, one process, two write requests.
 */
module Witnesses {
  import opened Values
  import opened FlagCaches
  import opened RuleEdits
  import opened Writes
  import opened Replicas
  import opened Protocol
  import opened Coherence
  import opened AuditTrail
  import opened Schedules
  import opened References
  import opened Versions
  import opened Guarantees
  import opened Failures
  import Names

  const KEY := "a"
  const CREATE := CreateFlag(0, KEY, "", None, "boolean", Bool(false), map[])
  const ENABLE := Toggle(KEY, "production", true)
  const DISABLE := Toggle(KEY, "production", false)
  const ROW := NewRow(CREATE, KEY)

  // ---------------------------------------------------------------- where the failures start

  /** The flag has been created, and the process is not running yet. */
  ghost predicate Created(h: Host, s: State) {
    && Reachable(h, s) && s.txns == map[] && s.rows == map[KEY := ROW] && s.overwritten == {}
    && s.replicas == map[0 := STOPPED]
  }

  /** The process serves the flag and is subscribed. */
  ghost predicate Serving(h: Host, s: State) {
    && Reachable(h, s) && s.txns == map[] && s.rows == map[KEY := ROW] && s.overwritten == {}
    && ServedCurrent(s, 0, KEY) && s.replicas[0].listener.subscribed
  }

  lemma FlagIsCreated(h: Host) returns (s: State)
    requires Names.Lawful(h)
    ensures Created(h, s)
  {
    var init := Init({0});
    assert Names.IsSlug(KEY) && Names.ValidateKey(h, KEY) == Some(KEY) by { Names.SlugIsKept(KEY); }
    assert IsRun(h, init, []) && Final(h, init, []) == init;
    WriteGoesThrough(h, init, 0, CREATE, true);
    ReachableRun(h, init, WriteSteps(0, CREATE, true));
    s := Final(h, init, WriteSteps(0, CREATE, true));
    assert s.replicas == map[0 := STOPPED];
  }

  lemma CreatedFlagIsListed(s: State)
    requires s.rows == map[KEY := ROW]
    ensures IsListing([ROW], s.rows)
  {}

  lemma FlagIsServed(h: Host) returns (s: State)
    requires Names.Lawful(h)
    ensures Serving(h, s)
  {
    var s0 := FlagIsCreated(h);
    var steps := [Load(0, [ROW]), Install(0), Subscribe(0)];
    ReachableInv(h, s0);
    CreatedFlagIsListed(s0);
    ProcessStarts(h, s0, 0, [ROW]);
    LoadedSnapshots(s0.rows, [ROW]);
    ReachableRun(h, s0, steps);
    s := Final(h, s0, steps);
    assert Mentioned([]) == {};
  }

  /** Both toggles and a delete are accepted, and change the flag. */
  lemma RequestsAreAccepted(h: Host, s: State, w: TxnId)
    requires s.txns == map[] && s.rows == map[KEY := ROW]
    ensures forall req | req == ENABLE || req == DISABLE || req == DeleteFlag(KEY) ::
      Accepted(h, s, w, req) && Prepare(h, req, s.rows).value.key == KEY
  {}

  lemma DeleteEmptiesTable(h: Host, s: State)
    requires s.rows == map[KEY := ROW]
    ensures Applied(s.rows, Prepare(h, DeleteFlag(KEY), s.rows).value.write) == Some(map[])
  {}

  // ---------------------------------------------------------------- stale flags

  /** A publish fails: the flag was enabled, and a subscribed process serves the old row. */
  lemma FailedPublishLeavesStale(h: Host) returns (s: State)
    requires Names.Lawful(h)
    ensures Reachable(h, s) && ServedStale(s, 0, KEY) && KEY in s.rows && s.replicas[0].listener.subscribed
  {
    var s0 := FlagIsServed(h);
    RequestsAreAccepted(h, s0, 1);
    MissedWriteIsServedStale(h, s0, 0, KEY, 1, ENABLE, false);
    ReachableRun(h, s0, WriteSteps(1, ENABLE, false));
    s := Final(h, s0, WriteSteps(1, ENABLE, false));
    ReachableInv(h, s0);
    WriteGoesThrough(h, s0, 1, ENABLE, false);
  }

  /** Likewise for a deleted flag, which is still served. The database must not enforce the audit log's foreign key. */
  lemma DeletedFlagIsServed(h: Host) returns (s: State)
    requires Names.Lawful(h)
    ensures Reachable(h, s) && ServedStale(s, 0, KEY) && KEY !in s.rows && s.replicas[0].listener.subscribed
    ensures !ReferencesHold(s)
  {
    var s0 := FlagIsServed(h);
    var req := DeleteFlag(KEY);
    RequestsAreAccepted(h, s0, 1);
    MissedWriteIsServedStale(h, s0, 0, KEY, 1, req, false);
    ReachableRun(h, s0, WriteSteps(1, req, false));
    s := Final(h, s0, WriteSteps(1, req, false));
    ReachableInv(h, s0);
    WriteGoesThrough(h, s0, 1, req, false);
    DeleteEmptiesTable(h, s0);
    if ReferencesHold(s) { HeldFlagExists(h, s, 0, KEY); }
  }

  /** The publish succeeds, and the connection breaks before the message is read. */
  lemma LostMessageLeavesStale(h: Host) returns (s: State)
    requires Names.Lawful(h)
    ensures Reachable(h, s) && ServedStale(s, 0, KEY)
  {
    var s0 := FlagIsServed(h);
    RequestsAreAccepted(h, s0, 1);
    LostMessageIsServedStale(h, s0, 0, KEY, 1, ENABLE);
    ReachableRun(h, s0, WriteSteps(1, ENABLE, true) + [LoseConnection(0)]);
    s := Final(h, s0, WriteSteps(1, ENABLE, true) + [LoseConnection(0)]);
  }

  /** Nothing fails: the process starts while an announced change is not committed yet. */
  lemma EarlySnapshotLeavesStale(h: Host) returns (s: State)
    requires Names.Lawful(h)
    ensures Reachable(h, s) && ServedStale(s, 0, KEY) && s.replicas[0].listener.subscribed
  {
    var s0 := FlagIsCreated(h);
    var steps := [Load(0, [ROW]), Install(0), Subscribe(0)] + [Commit(1)];
    ReachableInv(h, s0);
    RequestsAreAccepted(h, s0, 1);
    Announces(h, s0, 1, ENABLE, true);
    ReachableRun(h, s0, AnnounceSteps(1, ENABLE, true));
    var s1 := Final(h, s0, AnnounceSteps(1, ENABLE, true));
    CreatedFlagIsListed(s1);
    EarlySnapshotIsServedStale(h, s1, 0, [ROW], 1);
    ReachableRun(h, s1, steps);
    s := Final(h, s1, steps);
  }

  // ---------------------------------------------------------------- rollbacks

  /** A delete is announced and refused by the database: no process finds the flag, and its row is there. */
  lemma RefusedDeleteEvicts(h: Host) returns (s: State)
    requires Names.Lawful(h)
    ensures Reachable(h, s) && s.rows == map[KEY := ROW] && s.txns == map[] && 0 in s.replicas
    ensures NotFoundEverywhere(h, s.replicas[0].cache, KEY)
  {
    var s0 := FlagIsServed(h);
    var req := DeleteFlag(KEY);
    RequestsAreAccepted(h, s0, 1);
    RolledBackChangeStillEvicts(h, s0, 0, 1, req);
    ReachableRun(h, s0, AbortSteps(1, req, true));
    var s1 := Final(h, s0, AbortSteps(1, req, true));
    ReachableInv(h, s0);
    AnnouncedThenRolledBack(h, s0, 1, req, true);
    var steps := DrainSteps(0, s1.replicas[0].listener);
    DrainHandlesAll(h, s1, 0);
    AnyHandlingDrains(h, s1, steps, 0);
    ReachableRun(h, s1, steps);
    s := Final(h, s1, steps);
    assert NotFoundEverywhere(h, Final(h, s1, steps).replicas[0].cache, KEY);
  }

  /** The same delete with a failed publish: the key counts as missed, and what is served is the row. */
  lemma MissedKeyIsCurrent(h: Host) returns (s: State)
    requires Names.Lawful(h)
    ensures Reachable(h, s) && ServedCurrent(s, 0, KEY) && KEY in s.replicas[0].missed
  {
    var s0 := FlagIsServed(h);
    var req := DeleteFlag(KEY);
    RequestsAreAccepted(h, s0, 1);
    MissedMayBeCurrent(h, s0, 0, KEY, 1, req, false);
    ReachableRun(h, s0, AbortSteps(1, req, false));
    s := Final(h, s0, AbortSteps(1, req, false));
  }

  // ---------------------------------------------------------------- lost updates

  /** The flag is switched on and off by overlapping requests: two changes are on record, the version is 2. */
  lemma VersionIsLost(h: Host) returns (s: State)
    requires Names.Lawful(h)
    ensures Reachable(h, s) && KEY in s.rows && s.rows[KEY].version == 2 && Edits(Log(s.audit, s.rows[KEY].id)) == 2
    ensures 0 in s.replicas
  {
    var s0 := FlagIsServed(h);
    var steps := OverlapSteps(1, 2, ENABLE, DISABLE) + [Commit(2)];
    RequestsAreAccepted(h, s0, 1);
    RequestsAreAccepted(h, s0, 2);
    VersionCountsEdits(h, s0, KEY);
    OverlappingUpdatesLoseAVersion(h, s0, KEY, 1, 2, ENABLE, DISABLE);
    RunKeepsProcesses(h, s0, steps);
    ReachableRun(h, s0, steps);
    s := Final(h, s0, steps);
  }

  lemma TogglesDiffer()
    ensures SetEnabled(map[], "production", true)["production"].enabled == Some(true)
    ensures SetEnabled(map[], "production", false)["production"].enabled == Some(false)
  {}

  /** A process that starts between the two commits serves the flag switched on for good, at the row's version. */
  lemma VersionDoesNotTell(h: Host) returns (s: State)
    requires Names.Lawful(h)
    ensures Reachable(h, s) && ServedStale(s, 0, KEY) && KEY in s.rows && s.replicas[0].listener.subscribed
    ensures SameVersion(s.replicas[0].cache.flags[KEY], s.rows[KEY])
  {
    var s0 := FlagIsCreated(h);
    RequestsAreAccepted(h, s0, 1);
    RequestsAreAccepted(h, s0, 2);
    TogglesDiffer();
    var a, b := Prepare(h, ENABLE, s0.rows).value.write, Prepare(h, DISABLE, s0.rows).value.write;
    var row := Assign(ROW, a.columns);
    var listing := [row];
    assert Applied(s0.rows, a).value == map[KEY := row];
    var steps := OverlapSteps(1, 2, ENABLE, DISABLE) + ([Load(0, listing), Install(0), Subscribe(0)] + [Commit(2)]);
    SameVersionOtherContents(h, s0, KEY, 1, 2, ENABLE, DISABLE, 0, listing);
    ReachableRun(h, s0, steps);
    s := Final(h, s0, steps);
  }

  /** After a lost update the version tells again, once the process has been restarted. */
  lemma VersionTellsAgain(h: Host) returns (s: State)
    requires Names.Lawful(h)
    ensures Reachable(h, s) && !NoUpdateLost(s, KEY) && ServedCurrent(s, 0, KEY)
    ensures KEY in s.rows && SameVersion(s.replicas[0].cache.flags[KEY], s.rows[KEY])
  {
    var s0 := VersionIsLost(h);
    ReachableInv(h, s0);
    var listing := SomeListing(s0.rows);
    RestartServesTable(h, s0, 0, listing);
    ReachableRun(h, s0, RestartSteps(0, listing));
    s := Final(h, s0, RestartSteps(0, listing));
    assert Mentioned([]) == {};
  }
}
