/**
 Concurrent writers: version numbers, audit rows, and what the audit log says about a flag.
 */
module AuditTrail {
  import opened Values
  import opened Evaluation
  import opened Writes
  import opened Protocol
  import opened Coherence

  // ---------------------------------------------------------------- reading a log

  lemma LogAppend(audit: seq<AuditRow>, e: AuditRow, id: FlagId)
    ensures Log(audit + [e], id) == Log(audit, id) + if e.flagId == id then [e] else []
  {}

  lemma {:induction false} LogOfStranger(audit: seq<AuditRow>, id: FlagId)
    requires forall e | e in audit :: e.flagId != id
    ensures Log(audit, id) == []
  {
    if audit != [] {
      LogOfStranger(audit[..|audit| - 1], id);
    }
  }

  /** The changes recorded after the creation. */
  function Edits(log: seq<AuditRow>): nat {
    if log == [] then 0
    else Edits(log[..|log| - 1]) + if log[|log| - 1].action == Created then 0 else 1
  }

  lemma EditsAppend(log: seq<AuditRow>, e: AuditRow)
    ensures Edits(log + [e]) == Edits(log) + if e.action == Created then 0 else 1
  {}

  /** The environments the log ends with: each row replaces what the rows before it led to. */
  function Replay(log: seq<AuditRow>): Environments {
    if log == [] then map[] else EnvironmentsIn(log[|log| - 1].after)
  }

  /** Every recorded "before" is where the earlier rows lead. */
  ghost predicate Chained(log: seq<AuditRow>) {
    forall i | 0 < i < |log| :: EnvironmentsIn(log[i].before) == Replay(log[..i])
  }

  lemma ChainedAppend(log: seq<AuditRow>, e: AuditRow)
    requires Chained(log) && (log != [] ==> EnvironmentsIn(e.before) == Replay(log))
    ensures Chained(log + [e]) && Replay(log + [e]) == EnvironmentsIn(e.after)
  {}

  predicate IsRuleEdit(a: Action) {
    a == RuleAdded || a == RuleUpdated || a == RuleDeleted
  }

  ghost predicate NoRuleEdits(log: seq<AuditRow>) {
    forall e | e in log :: !IsRuleEdit(e.action)
  }

  // ---------------------------------------------------------------- invariant

  /** A committed flag and its log. */
  ghost predicate RowInv(audit: seq<AuditRow>, overwritten: set<FlagId>, row: Row) {
    var log := Log(audit, row.id);
    && |log| == Edits(log) + 1
    && row.version <= |log|
    && (row.version == |log| <==> row.id !in overwritten)
    && (row.id !in overwritten && NoRuleEdits(log) ==> Chained(log) && Replay(log) == row.environments)
  }

  /** A request that inserts a flag: nobody else knows its id. */
  ghost predicate InsertInv(s: State, w: TxnId)
    requires w in s.txns && s.txns[w].work.write.Insert?
  {
    var work := s.txns[w].work;
    && Log(s.audit, work.entry.flagId) == [] && s.txns[w].seen == 0
    && work.entry.action == Created && work.write.row.version == 1
    && EnvironmentsIn(work.entry.after) == work.write.row.environments
    && (forall k | k in s.rows :: s.rows[k].id != work.entry.flagId)
    && (forall v | v in s.txns && v != w :: s.txns[v].work.entry.flagId != work.entry.flagId)
  }

  /** A request that changes a flag: what it read, and whether that is still the row. */
  ghost predicate ChangeInv(s: State, w: TxnId)
    requires w in s.txns && !s.txns[w].work.write.Insert?
  {
    var work, seen := s.txns[w].work, s.txns[w].seen;
    && work.read.Some? && work.entry.action != Created
    && var read := work.read.value;
    && read.version <= seen <= |Log(s.audit, work.entry.flagId)|
    && (seen == |Log(s.audit, work.entry.flagId)| && Applied(s.rows, work.write).Some? ==>
          s.rows[WriteKey(work.write)] == read)
    && (work.write.Update? ==> work.write.columns.version == read.version + 1)
    && (work.write.Update? && !IsRuleEdit(work.entry.action) ==>
          && EnvironmentsIn(work.entry.before) == read.environments
          && EnvironmentsIn(work.entry.after) == Assign(read, work.write.columns).environments)
  }

  ghost predicate TxnAuditInv(s: State, w: TxnId)
    requires w in s.txns
  {
    && TxnInv(s.txns[w])
    && s.txns[w].work.entry.flagId in s.usedIds
    && (if s.txns[w].work.write.Insert? then InsertInv(s, w) else ChangeInv(s, w))
  }

  ghost predicate AuditInv(s: State) {
    && WellKeyed(s.rows)
    && (forall k | k in s.rows :: RowInv(s.audit, s.overwritten, s.rows[k]) && s.rows[k].id in s.usedIds)
    && (forall k, k' | k in s.rows && k' in s.rows && k != k' :: s.rows[k].id != s.rows[k'].id)
    && (forall w | w in s.txns :: TxnAuditInv(s, w))
    && (forall e | e in s.audit :: e.flagId in s.usedIds)
    && (forall id | id in s.overwritten :: Log(s.audit, id) != [])
  }

  // ---------------------------------------------------------------- one step

  lemma PreparedWork(h: Host, req: Request, rows: Rows)
    requires WellKeyed(rows) && Prepare(h, req, rows).Ok?
    ensures var work := Prepare(h, req, rows).value;
      && (work.write.Insert? ==> EnvironmentsIn(work.entry.after) == work.write.row.environments)
      && (work.write.Update? && !IsRuleEdit(work.entry.action) ==>
            && EnvironmentsIn(work.entry.before) == work.read.value.environments
            && EnvironmentsIn(work.entry.after) == Assign(work.read.value, work.write.columns).environments)
  {}

  lemma BegunRequest(h: Host, s: State, w: TxnId, req: Request)
    requires AuditInv(s) && CanStep(s, Begin(w, req)) && Prepare(h, req, s.rows).Ok?
    ensures TxnAuditInv(Begun(h, s, w, req), w)
  {
    var work := Prepare(h, req, s.rows).value;
    WorkIsLocal(h, req, s.rows);
    PreparedWork(h, req, s.rows);
    if work.write.Insert? {
      LogOfStranger(s.audit, work.entry.flagId);
    } else {
      assert RowInv(s.audit, s.overwritten, s.rows[work.key]);
    }
  }

  lemma BeginKeepsRequest(h: Host, s: State, w: TxnId, req: Request, v: TxnId)
    requires AuditInv(s) && CanStep(s, Begin(w, req)) && Prepare(h, req, s.rows).Ok?
    requires v in s.txns
    ensures TxnAuditInv(Begun(h, s, w, req), v)
  {
    var work := Prepare(h, req, s.rows).value;
    WorkIsLocal(h, req, s.rows);
    assert TxnAuditInv(s, v);
    if !work.write.Insert? { assert s.rows[work.key].id == work.entry.flagId; }
  }

  lemma BeginKeepsAudit(h: Host, s: State, w: TxnId, req: Request)
    requires AuditInv(s) && CanStep(s, Begin(w, req))
    ensures AuditInv(Apply(h, s, Begin(w, req)))
  {
    if Prepare(h, req, s.rows).Ok? {
      var s' := Begun(h, s, w, req);
      BegunRequest(h, s, w, req);
      forall v | v in s'.txns ensures TxnAuditInv(s', v) {
        if v != w { BeginKeepsRequest(h, s, w, req, v); }
      }
    }
  }

  lemma CommitKeepsRow(s: State, w: TxnId)
    requires AuditInv(s) && w in s.txns && Applied(s.rows, s.txns[w].work.write).Some?
    ensures var s' := Committed(s, w);
      s.txns[w].work.key in s'.rows ==> RowInv(s'.audit, s'.overwritten, s'.rows[s.txns[w].work.key])
  {
    var work, seen := s.txns[w].work, s.txns[w].seen;
    var s' := Committed(s, w);
    var id := work.entry.flagId;
    var log, log' := Log(s.audit, id), Log(s'.audit, id);
    assert TxnAuditInv(s, w);
    LogAppend(s.audit, work.entry, id);
    EditsAppend(log, work.entry);
    assert log' == log + [work.entry];
    if work.write.Insert? {
      assert id !in s'.overwritten;
      ChainedAppend([], work.entry);
    } else if work.write.Update? {
      assert RowInv(s.audit, s.overwritten, s.rows[work.key]);
      if id !in s'.overwritten && NoRuleEdits(log') {
        assert forall e | e in log :: e in log';
        assert work.entry in log';
        ChainedAppend(log, work.entry);
      }
    }
  }

  lemma CommitKeepsOthers(s: State, w: TxnId, row: Row)
    requires AuditInv(s) && w in s.txns && Applied(s.rows, s.txns[w].work.write).Some?
    requires row.id != s.txns[w].work.entry.flagId && RowInv(s.audit, s.overwritten, row)
    ensures RowInv(Committed(s, w).audit, Committed(s, w).overwritten, row)
  {
    LogAppend(s.audit, s.txns[w].work.entry, row.id);
    assert Log(Committed(s, w).audit, row.id) == Log(s.audit, row.id);
  }

  /** The flag of a committed change keeps its place and its id; no other row has that id. */
  lemma CommitKeepsIds(s: State, w: TxnId)
    requires AuditInv(s) && w in s.txns && Applied(s.rows, s.txns[w].work.write).Some?
    ensures var s', work := Committed(s, w), s.txns[w].work;
      && (work.key in s'.rows ==> s'.rows[work.key].id == work.entry.flagId)
      && (forall k | k in s'.rows && k != work.key ::
            k in s.rows && s'.rows[k] == s.rows[k] && s.rows[k].id != work.entry.flagId)
  {
    var work := s.txns[w].work;
    assert TxnAuditInv(s, w);
    AppliedIsLocal(s.rows, work.write);
  }

  lemma CommitKeepsInsert(s: State, w: TxnId, v: TxnId)
    requires AuditInv(s) && w in s.txns && Applied(s.rows, s.txns[w].work.write).Some?
    requires v in s.txns && v != w && s.txns[v].work.write.Insert?
    ensures InsertInv(Committed(s, w), v)
  {
    assert TxnAuditInv(s, w) && TxnAuditInv(s, v);
    LogAppend(s.audit, s.txns[w].work.entry, s.txns[v].work.entry.flagId);
  }

  lemma CommitKeepsChange(s: State, w: TxnId, v: TxnId)
    requires AuditInv(s) && w in s.txns && Applied(s.rows, s.txns[w].work.write).Some?
    requires v in s.txns && v != w && !s.txns[v].work.write.Insert?
    ensures ChangeInv(Committed(s, w), v)
  {
    var s' := Committed(s, w);
    var work, other := s.txns[w].work, s.txns[v].work;
    assert TxnAuditInv(s, w) && TxnAuditInv(s, v);
    CommitKeepsIds(s, w);
    LogAppend(s.audit, work.entry, other.entry.flagId);
    if other.entry.flagId != work.entry.flagId && Applied(s'.rows, other.write).Some? {
      assert other.key != work.key;
      assert s'.rows[other.key] == s.rows[other.key];
    }
  }

  lemma CommitKeepsIdsDistinct(s: State, w: TxnId)
    requires AuditInv(s) && w in s.txns && Applied(s.rows, s.txns[w].work.write).Some?
    ensures var rows := Committed(s, w).rows;
      forall k, k' | k in rows && k' in rows && k != k' :: rows[k].id != rows[k'].id
  {
    CommitKeepsIds(s, w);
    var rows := Committed(s, w).rows;
    forall k, k' | k in rows && k' in rows && k != k' ensures rows[k].id != rows[k'].id {}
  }

  lemma CommitKeepsRows(s: State, w: TxnId)
    requires AuditInv(s) && w in s.txns && Applied(s.rows, s.txns[w].work.write).Some?
    ensures var s' := Committed(s, w);
      && WellKeyed(s'.rows)
      && (forall k | k in s'.rows :: RowInv(s'.audit, s'.overwritten, s'.rows[k]) && s'.rows[k].id in s'.usedIds)
      && (forall k, k' | k in s'.rows && k' in s'.rows && k != k' :: s'.rows[k].id != s'.rows[k'].id)
  {
    var s' := Committed(s, w);
    var work := s.txns[w].work;
    assert TxnAuditInv(s, w);
    AppliedIsLocal(s.rows, work.write);
    CommitKeepsIds(s, w);
    CommitKeepsIdsDistinct(s, w);
    CommitKeepsRow(s, w);
    forall k | k in s'.rows && k != work.key ensures RowInv(s'.audit, s'.overwritten, s'.rows[k]) {
      CommitKeepsOthers(s, w, s.rows[k]);
    }
  }

  lemma CommitKeepsAudit(h: Host, s: State, w: TxnId)
    requires AuditInv(s) && CanStep(s, Commit(w))
    ensures AuditInv(Apply(h, s, Commit(w)))
  {
    var s' := Committed(s, w);
    assert TxnAuditInv(s, w);
    CommitKeepsRows(s, w);
    forall v | v in s'.txns ensures TxnAuditInv(s', v) {
      assert TxnAuditInv(s, v);
      if s.txns[v].work.write.Insert? { CommitKeepsInsert(s, w, v); } else { CommitKeepsChange(s, w, v); }
    }
    forall id | id in s'.overwritten ensures Log(s'.audit, id) != [] {
      LogAppend(s.audit, s.txns[w].work.entry, id);
    }
  }

  /** Steps that leave the tables alone and add no request: what is known of each request stays true. */
  lemma SameTablesKeepAudit(s: State, s': State)
    requires AuditInv(s) && s'.rows == s.rows && s'.audit == s.audit
    requires s'.usedIds == s.usedIds && s'.overwritten == s.overwritten
    requires forall v | v in s'.txns ::
      v in s.txns && s'.txns[v].work == s.txns[v].work && s'.txns[v].seen == s.txns[v].seen
    ensures AuditInv(s')
  {
    forall v | v in s'.txns ensures TxnAuditInv(s', v) { assert TxnAuditInv(s, v); }
  }

  lemma StepKeepsTables(h: Host, s: State, step: Step)
    requires CanStep(s, step) && !step.Begin? && !step.Commit?
    ensures var s' := Apply(h, s, step);
      && s'.rows == s.rows && s'.audit == s.audit && s'.usedIds == s.usedIds && s'.overwritten == s.overwritten
      && forall v | v in s'.txns ::
           v in s.txns && s'.txns[v].work == s.txns[v].work && s'.txns[v].seen == s.txns[v].seen
  {}

  lemma StepKeepsAudit(h: Host, s: State, step: Step)
    requires AuditInv(s) && CanStep(s, step)
    ensures AuditInv(Apply(h, s, step))
  {
    if step.Begin? {
      BeginKeepsAudit(h, s, step.w, step.req);
    } else if step.Commit? {
      CommitKeepsAudit(h, s, step.w);
    } else {
      StepKeepsTables(h, s, step);
      SameTablesKeepAudit(s, Apply(h, s, step));
    }
  }

  lemma {:induction false} RunKeepsAudit(h: Host, s: State, steps: seq<Step>)
    requires AuditInv(s) && IsRun(h, s, steps)
    ensures AuditInv(Final(h, s, steps))
    decreases |steps|
  {
    if steps != [] {
      StepKeepsAudit(h, s, steps[0]);
      RunKeepsAudit(h, Apply(h, s, steps[0]), steps[1..]);
    }
  }

  lemma ReachableAudit(h: Host, s: State)
    requires Reachable(h, s)
    ensures AuditInv(s)
  {
    var processes, steps :| IsRun(h, Init(processes), steps) && Final(h, Init(processes), steps) == s;
    RunKeepsAudit(h, Init(processes), steps);
  }

  // ---------------------------------------------------------------- results

  /** What the two tables show: the version of the row, if there is one, counts the changes in its log. */
  predicate NoUpdateLost(s: State, k: string) {
    k in s.rows ==> s.rows[k].version - 1 == Edits(Log(s.audit, s.rows[k].id))
  }

  /**
   Under any interleaving, `version - 1` is at most the number of changes in the audit log, and
   equal to it exactly when no commit on this flag went over a change its request had not read.
   */
  lemma VersionCountsEdits(h: Host, s: State, k: string)
    requires Reachable(h, s) && k in s.rows
    ensures var row := s.rows[k];
      && row.version - 1 <= Edits(Log(s.audit, row.id))
      && (NoUpdateLost(s, k) <==> row.id !in s.overwritten)
  {
    ReachableAudit(h, s);
    assert RowInv(s.audit, s.overwritten, s.rows[k]);
  }

  /**
   A flag becomes overwritten only when a request commits on it and another request has committed on
   it since the row was read.
   */
  lemma OverwrittenOnlyWhen(h: Host, s: State, step: Step, id: FlagId)
    requires Reachable(h, s) && CanStep(s, step) && id !in s.overwritten
    ensures id in Apply(h, s, step).overwritten <==>
      step.Commit? && s.txns[step.w].work.entry.flagId == id && s.txns[step.w].seen < |Log(s.audit, id)|
  {
    ReachableAudit(h, s);
    if step.Commit? { assert TxnAuditInv(s, step.w); }
  }

  /**
   As long as no update was lost on a flag and no rule endpoint was used on it, its audit log is a
   chain: every "before" is the previous "after", and the log ends with the stored environments.
   */
  lemma AuditReplays(h: Host, s: State, k: string)
    requires Reachable(h, s) && k in s.rows
    requires NoUpdateLost(s, k) && NoRuleEdits(Log(s.audit, s.rows[k].id))
    ensures Chained(Log(s.audit, s.rows[k].id))
    ensures Replay(Log(s.audit, s.rows[k].id)) == s.rows[k].environments
  {
    ReachableAudit(h, s);
    VersionCountsEdits(h, s, k);
    assert RowInv(s.audit, s.overwritten, s.rows[k]);
  }

  /** On this run no commit on the flag goes over a change its request had not read. */
  ghost predicate NoneOverwrites(h: Host, s: State, steps: seq<Step>, id: FlagId)
    requires IsRun(h, s, steps)
    decreases |steps|
  {
    steps == [] ||
    (&& (steps[0].Commit? && s.txns[steps[0].w].work.entry.flagId == id ==>
           s.txns[steps[0].w].seen == |Log(s.audit, id)|)
     && NoneOverwrites(h, Apply(h, s, steps[0]), steps[1..], id))
  }

  function CommitsIn(steps: seq<Step>): nat {
    if steps == [] then 0 else (if steps[0].Commit? then 1 else 0) + CommitsIn(steps[1..])
  }

  /** Every commit adds one audit row, and nothing else does: rolled-back requests leave none. */
  lemma {:induction false} OneAuditRowPerCommit(h: Host, s: State, steps: seq<Step>)
    requires IsRun(h, s, steps)
    ensures |Final(h, s, steps).audit| == |s.audit| + CommitsIn(steps)
    ensures s.audit <= Final(h, s, steps).audit
    decreases |steps|
  {
    if steps != [] {
      OneAuditRowPerCommit(h, Apply(h, s, steps[0]), steps[1..]);
    }
  }

  // ---------------------------------------------------------------- serial schedules

  /** Every request begins after the previous one has ended. */
  ghost predicate IsSerial(h: Host, s: State, steps: seq<Step>)
    requires IsRun(h, s, steps)
    decreases |steps|
  {
    steps == [] || ((steps[0].Begin? ==> s.txns == map[]) && IsSerial(h, Apply(h, s, steps[0]), steps[1..]))
  }

  ghost predicate AtMostOneAndFresh(s: State) {
    && s.overwritten == {}
    && (forall v, w | v in s.txns && w in s.txns :: v == w)
    && (forall w | w in s.txns :: s.txns[w].seen == |Log(s.audit, s.txns[w].work.entry.flagId)|)
  }

  lemma {:induction false} SerialStaysFresh(h: Host, s: State, steps: seq<Step>)
    requires AtMostOneAndFresh(s) && IsRun(h, s, steps) && IsSerial(h, s, steps)
    ensures AtMostOneAndFresh(Final(h, s, steps))
    decreases |steps|
  {
    if steps != [] {
      SerialStaysFresh(h, Apply(h, s, steps[0]), steps[1..]);
    }
  }

  /** On a serial schedule the version always counts the changes and the audit log always replays. */
  lemma SerialSchedule(h: Host, processes: set<ReplicaId>, steps: seq<Step>, k: string)
    requires IsRun(h, Init(processes), steps) && IsSerial(h, Init(processes), steps)
    requires k in Final(h, Init(processes), steps).rows
    ensures var s := Final(h, Init(processes), steps);
      var log := Log(s.audit, s.rows[k].id);
      && s.rows[k].version - 1 == Edits(log)
      && (NoRuleEdits(log) ==> Chained(log) && Replay(log) == s.rows[k].environments)
  {
    var s := Final(h, Init(processes), steps);
    SerialStaysFresh(h, Init(processes), steps);
    VersionCountsEdits(h, s, k);
    if NoRuleEdits(Log(s.audit, s.rows[k].id)) { AuditReplays(h, s, k); }
  }
}
