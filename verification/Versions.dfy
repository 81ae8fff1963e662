/**
 How old a served snapshot is: its id and version against those of the row.
 */
module Versions {
  import opened Values
  import opened Evaluation
  import opened FlagCaches
  import opened Writes
  import opened Replicas
  import opened Protocol
  import opened Coherence
  import opened AuditTrail
  import opened References

  /** A snapshot is of a flag that was created, and no other key has this flag. */
  ghost predicate Identified(s: State, k: string, f: FlagDict) {
    && f.id.Some? && f.version.Some? && Log(s.audit, f.id.value) != []
    && (forall k' | k' in s.rows && s.rows[k'].id == f.id.value :: k' == k)
  }

  /** The version of a snapshot is at most its row's, and at the same version it is the row. */
  ghost predicate IsPast(s: State, k: string, f: FlagDict) {
    && Identified(s, k, f)
    && (k in s.rows && s.rows[k].id == f.id.value ==>
          && f.version.value <= s.rows[k].version
          && (f.version.value == s.rows[k].version ==> f == SnapshotOf(s.rows[k])))
  }

  ghost predicate HoldsPast(s: State, flags: Flags) {
    forall k | k in flags ::
      Identified(s, k, flags[k]) && (flags[k].id.value !in s.overwritten ==> IsPast(s, k, flags[k]))
  }

  ghost predicate VersionInv(s: State) {
    forall r | r in s.replicas :: HoldsPast(s, Held(s.replicas[r]))
  }

  // ---------------------------------------------------------------- one step

  lemma CommitKeepsIdentified(s: State, w: TxnId, k: string, f: FlagDict)
    requires AuditInv(s) && w in s.txns && Applied(s.rows, s.txns[w].work.write).Some?
    requires Identified(s, k, f)
    ensures Identified(Committed(s, w), k, f)
  {
    var work := s.txns[w].work;
    assert TxnAuditInv(s, w);
    CommitKeepsIds(s, w);
    LogAppend(s.audit, work.entry, f.id.value);
    if work.write.Update? { assert s.rows[work.key].id == work.entry.flagId; }
  }

  /**
   A commit leaves snapshots in the past, unless it goes over a change its request had not read: the
   new row has a version above the one it was computed from.
   */
  lemma CommitKeepsPast(s: State, w: TxnId, k: string, f: FlagDict)
    requires AuditInv(s) && w in s.txns && Applied(s.rows, s.txns[w].work.write).Some?
    requires IsPast(s, k, f)
    requires s.txns[w].work.entry.flagId == f.id.value ==> s.txns[w].seen == |Log(s.audit, f.id.value)|
    ensures IsPast(Committed(s, w), k, f)
  {
    assert TxnAuditInv(s, w);
    CommitKeepsIds(s, w);
    CommitKeepsIdentified(s, w, k, f);
  }

  lemma CommitKeepsVersions(h: Host, s: State, w: TxnId)
    requires AuditInv(s) && VersionInv(s) && CanStep(s, Commit(w))
    ensures VersionInv(Apply(h, s, Commit(w)))
  {
    var s' := Committed(s, w);
    forall r | r in s'.replicas ensures HoldsPast(s', Held(s'.replicas[r])) {
      var flags := Held(s.replicas[r]);
      assert HoldsPast(s, flags);
      forall k | k in flags
        ensures Identified(s', k, flags[k]) && (flags[k].id.value !in s'.overwritten ==> IsPast(s', k, flags[k]))
      {
        CommitKeepsIdentified(s, w, k, flags[k]);
        if flags[k].id.value !in s'.overwritten { CommitKeepsPast(s, w, k, flags[k]); }
      }
    }
  }

  lemma LoadedIsPast(s: State, listing: seq<Row>)
    requires AuditInv(s) && IsListing(listing, s.rows)
    ensures AllKeyed(Snapshots(listing)) && HoldsPast(s, Indexed(Snapshots(listing)))
  {
    LoadedSnapshots(s.rows, listing);
    var flags := Indexed(Snapshots(listing));
    forall k | k in flags ensures IsPast(s, k, flags[k]) {
      assert flags[k] == SnapshotOf(s.rows[k]);
      assert RowInv(s.audit, s.overwritten, s.rows[k]);
    }
  }

  /** Apart from loading, a process only lets snapshots go. */
  lemma HeldOnlyShrinks(rep: Replica, step: Step, txns: map<TxnId, Txn>)
    requires InOrder(rep)
    requires step.Install? ==> rep.phase == Loading && AllKeyed(rep.loaded)
    requires step.Receive? ==> rep.listener.inbox != []
    requires step.RunTask? ==> step.i < |rep.listener.tasks|
    requires !step.Load?
    ensures forall k | k in Held(ReplicaAfter(rep, step, txns)) ::
      k in Held(rep) && Held(ReplicaAfter(rep, step, txns))[k] == Held(rep)[k]
  {}

  lemma StepOnlyShrinks(h: Host, s: State, step: Step, r: ReplicaId)
    requires CanStep(s, step) && !step.Load? && r in s.replicas && InOrder(s.replicas[r])
    ensures r in Apply(h, s, step).replicas
    ensures var held, held' := Held(s.replicas[r]), Held(Apply(h, s, step).replicas[r]);
      forall k | k in held' :: k in held && held'[k] == held[k]
  {
    if IsProcessStep(step) && step.r == r { HeldOnlyShrinks(s.replicas[r], step, s.txns); }
  }

  /** A step other than a commit: every process holds what it held, or what it has just loaded. */
  lemma ProcessHoldsPast(h: Host, s: State, step: Step, r: ReplicaId)
    requires AuditInv(s) && CanStep(s, step) && !step.Commit?
    requires r in s.replicas && InOrder(s.replicas[r]) && HoldsPast(s, Held(s.replicas[r]))
    ensures r in Apply(h, s, step).replicas && HoldsPast(s, Held(Apply(h, s, step).replicas[r]))
  {
    if step.Load? { LoadedIsPast(s, step.listing); } else { StepOnlyShrinks(h, s, step, r); }
  }

  lemma TablesStay(h: Host, s: State, step: Step)
    requires CanStep(s, step) && !step.Commit?
    ensures var s' := Apply(h, s, step);
      && s'.rows == s.rows && s'.audit == s.audit && s'.overwritten == s.overwritten
      && s'.replicas.Keys == s.replicas.Keys
  {}

  lemma SamePast(s: State, s': State, flags: Flags)
    requires s'.rows == s.rows && s'.audit == s.audit && s'.overwritten == s.overwritten && HoldsPast(s, flags)
    ensures HoldsPast(s', flags)
  {
    forall k | k in flags
      ensures Identified(s', k, flags[k]) && (flags[k].id.value !in s'.overwritten ==> IsPast(s', k, flags[k]))
    {
      assert Identified(s, k, flags[k]);
    }
  }

  lemma StepKeepsVersions(h: Host, s: State, step: Step)
    requires Inv(s) && AuditInv(s) && VersionInv(s) && CanStep(s, step)
    ensures VersionInv(Apply(h, s, step))
  {
    if step.Commit? {
      CommitKeepsVersions(h, s, step.w);
    } else {
      var s' := Apply(h, s, step);
      TablesStay(h, s, step);
      forall r | r in s'.replicas ensures HoldsPast(s', Held(s'.replicas[r])) {
        assert ReplicaInv(s.rows, s.txns, s.replicas[r]);
        ProcessHoldsPast(h, s, step, r);
        SamePast(s, s', Held(s'.replicas[r]));
      }
    }
  }

  lemma {:induction false} RunKeepsVersions(h: Host, s: State, steps: seq<Step>)
    requires Inv(s) && AuditInv(s) && VersionInv(s) && IsRun(h, s, steps)
    ensures VersionInv(Final(h, s, steps))
    decreases |steps|
  {
    if steps != [] {
      StepKeepsInv(h, s, steps[0]);
      StepKeepsAudit(h, s, steps[0]);
      StepKeepsVersions(h, s, steps[0]);
      RunKeepsVersions(h, Apply(h, s, steps[0]), steps[1..]);
    }
  }

  lemma ReachableVersions(h: Host, s: State)
    requires Reachable(h, s)
    ensures VersionInv(s)
  {
    var processes, steps :| IsRun(h, Init(processes), steps) && Final(h, Init(processes), steps) == s;
    RunKeepsVersions(h, Init(processes), steps);
  }

  // ---------------------------------------------------------------- the test

  /** The snapshot carries the row's id and version. */
  predicate SameVersion(f: FlagDict, row: Row) {
    f.id == Some(row.id) && f.version == Some(row.version)
  }

  /**
   In every reachable state, whatever was missed, lost or rolled back: a process holds the committed
   row exactly when it holds its id and version, provided the tables show no lost update of the flag.
   */
  lemma VersionDecidesCurrency(h: Host, s: State, r: ReplicaId, k: string)
    requires Reachable(h, s) && r in s.replicas && k in Held(s.replicas[r]) && k in s.rows
    requires NoUpdateLost(s, k)
    ensures Held(s.replicas[r])[k] == SnapshotOf(s.rows[k]) <==> SameVersion(Held(s.replicas[r])[k], s.rows[k])
  {
    ReachableVersions(h, s);
    VersionCountsEdits(h, s, k);
    assert HoldsPast(s, Held(s.replicas[r]));
  }

  /** A snapshot is never ahead of its row. */
  lemma NeverAhead(h: Host, s: State, r: ReplicaId, k: string)
    requires Reachable(h, s) && r in s.replicas && k in Held(s.replicas[r]) && k in s.rows
    requires Held(s.replicas[r])[k].id == Some(s.rows[k].id) && NoUpdateLost(s, k)
    ensures Held(s.replicas[r])[k].version.Some? && Held(s.replicas[r])[k].version.value <= s.rows[k].version
  {
    ReachableVersions(h, s);
    VersionCountsEdits(h, s, k);
    assert HoldsPast(s, Held(s.replicas[r]));
  }

  /** As long as the audit log's references hold, a held flag is in the table, under the same key and id. */
  lemma HeldFlagExists(h: Host, s: State, r: ReplicaId, k: string)
    requires Reachable(h, s) && ReferencesHold(s) && r in s.replicas && k in Held(s.replicas[r])
    ensures k in s.rows && Held(s.replicas[r])[k].id == Some(s.rows[k].id)
  {
    var f := Held(s.replicas[r])[k];
    ReachableVersions(h, s);
    assert HoldsPast(s, Held(s.replicas[r])) && Identified(s, k, f);
    if forall e | e in s.audit :: e.flagId != f.id.value {
      LogOfStranger(s.audit, f.id.value);
    } else {
      var e :| e in s.audit && e.flagId == f.id.value;
      assert Exists(s.rows, e.flagId);
    }
  }

  // ---------------------------------------------------------------- lost updates in the past

  /** What the process still holds of `k` is an earlier state of the flag `id`. */
  ghost predicate Tracked(s: State, r: ReplicaId, k: string, id: FlagId) {
    && r in s.replicas && s.replicas[r].phase != Down
    && (k in Held(s.replicas[r]) ==> Held(s.replicas[r])[k].id == Some(id) && IsPast(s, k, Held(s.replicas[r])[k]))
  }

  lemma CommitKeepsTracked(h: Host, s: State, w: TxnId, r: ReplicaId, k: string, id: FlagId)
    requires AuditInv(s) && CanStep(s, Commit(w)) && Tracked(s, r, k, id)
    requires s.txns[w].work.entry.flagId == id ==> s.txns[w].seen == |Log(s.audit, id)|
    ensures Tracked(Apply(h, s, Commit(w)), r, k, id)
  {
    if k in Held(s.replicas[r]) { CommitKeepsPast(s, w, k, Held(s.replicas[r])[k]); }
  }

  /** A process that is up stays up, apart from restarting, and does not load again. */
  lemma StaysUp(h: Host, s: State, step: Step, r: ReplicaId)
    requires CanStep(s, step) && step != Restart(r) && r in s.replicas && s.replicas[r].phase != Down
    ensures r in Apply(h, s, step).replicas && Apply(h, s, step).replicas[r].phase != Down
    ensures step.Load? ==> Apply(h, s, step).replicas[r] == s.replicas[r]
  {}

  lemma StepKeepsTracked(h: Host, s: State, step: Step, r: ReplicaId, k: string, id: FlagId)
    requires Inv(s) && AuditInv(s) && CanStep(s, step) && step != Restart(r) && Tracked(s, r, k, id)
    requires step.Commit? && s.txns[step.w].work.entry.flagId == id ==> s.txns[step.w].seen == |Log(s.audit, id)|
    ensures Tracked(Apply(h, s, step), r, k, id)
  {
    if step.Commit? {
      CommitKeepsTracked(h, s, step.w, r, k, id);
    } else {
      TablesStay(h, s, step);
      StaysUp(h, s, step, r);
      assert ReplicaInv(s.rows, s.txns, s.replicas[r]);
      if !step.Load? { StepOnlyShrinks(h, s, step, r); }
    }
  }

  lemma {:induction false} RunKeepsTracked(h: Host, s: State, steps: seq<Step>, r: ReplicaId, k: string, id: FlagId)
    requires Inv(s) && AuditInv(s) && IsRun(h, s, steps) && NeverRestarts(steps, r) && Tracked(s, r, k, id)
    requires NoneOverwrites(h, s, steps, id)
    ensures Tracked(Final(h, s, steps), r, k, id)
    decreases |steps|
  {
    if steps != [] {
      NeverRestartsLater(steps, r);
      StepKeepsInv(h, s, steps[0]);
      StepKeepsAudit(h, s, steps[0]);
      StepKeepsTracked(h, s, steps[0], r, k, id);
      RunKeepsTracked(h, Apply(h, s, steps[0]), steps[1..], r, k, id);
    }
  }

  /** The version tells whether what a process holds of `k` is the committed row. */
  ghost predicate VersionTells(s: State, r: ReplicaId, k: string) {
    && r in s.replicas
    && (k in Held(s.replicas[r]) && k in s.rows ==>
          (Held(s.replicas[r])[k] == SnapshotOf(s.rows[k]) <==> SameVersion(Held(s.replicas[r])[k], s.rows[k])))
  }

  /**
   Updates that were lost in the past do not matter: from a state in which the process holds the
   committed row, the version tells over every run without a restart on which no update of the flag
   is lost.
   */
  lemma VersionDecidesSince(h: Host, s: State, r: ReplicaId, k: string, steps: seq<Step>)
    requires Reachable(h, s) && r in s.replicas && s.replicas[r].phase != Down && Current(s.rows, s.replicas[r], k)
    requires IsRun(h, s, steps) && NeverRestarts(steps, r) && NoneOverwrites(h, s, steps, s.rows[k].id)
    ensures VersionTells(Final(h, s, steps), r, k)
  {
    ReachableInv(h, s);
    ReachableAudit(h, s);
    assert RowInv(s.audit, s.overwritten, s.rows[k]);
    RunKeepsTracked(h, s, steps, r, k, s.rows[k].id);
  }

  /** In particular since the process loaded its snapshot, whatever happened before. */
  lemma VersionDecidesSinceLoad(h: Host, s: State, r: ReplicaId, listing: seq<Row>, k: string, steps: seq<Step>)
    requires Reachable(h, s) && CanStep(s, Load(r, listing)) && k in s.rows
    requires IsRun(h, Apply(h, s, Load(r, listing)), steps) && NeverRestarts(steps, r)
    requires NoneOverwrites(h, Apply(h, s, Load(r, listing)), steps, s.rows[k].id)
    ensures VersionTells(Final(h, Apply(h, s, Load(r, listing)), steps), r, k)
  {
    ReachableInv(h, s);
    LoadedSnapshots(s.rows, listing);
    OneStep(h, s, Load(r, listing));
    ReachableRun(h, s, [Load(r, listing)]);
    VersionDecidesSince(h, Apply(h, s, Load(r, listing)), r, k, steps);
  }
}
