/**
 The foreign key of the audit log, which restricts deletes.
 */
module References {
  import opened Values
  import opened Writes
  import opened Protocol
  import opened AuditTrail

  /** Some row of the table has this id. */
  ghost predicate Exists(rows: Rows, id: FlagId) {
    exists k | k in rows :: rows[k].id == id
  }

  /** Every audit row is about an existing flag. */
  ghost predicate ReferencesHold(s: State) {
    forall e | e in s.audit :: Exists(s.rows, e.flagId)
  }

  /** The audit row of a delete refers to the flag it removes. */
  lemma DeleteBreaksReferences(s: State, w: TxnId)
    requires AuditInv(s) && w in s.txns && Applied(s.rows, s.txns[w].work.write).Some?
    requires s.txns[w].work.write.Remove?
    ensures !ReferencesHold(Committed(s, w))
  {
    var s', work := Committed(s, w), s.txns[w].work;
    assert TxnAuditInv(s, w);
    CommitKeepsIds(s, w);
    assert work.entry in s'.audit && work.key !in s'.rows;
    assert !Exists(s'.rows, work.entry.flagId);
  }

  /** Any other commit keeps every flag and adds a row about the flag it writes. */
  lemma CommitKeepsExisting(s: State, w: TxnId, id: FlagId)
    requires AuditInv(s) && w in s.txns && Applied(s.rows, s.txns[w].work.write).Some?
    requires !s.txns[w].work.write.Remove?
    ensures Exists(Committed(s, w).rows, id) <==> Exists(s.rows, id) || id == s.txns[w].work.entry.flagId
  {
    var s', work := Committed(s, w), s.txns[w].work;
    assert TxnAuditInv(s, w);
    CommitKeepsIds(s, w);
    assert s'.rows[work.key].id == work.entry.flagId;
    if Exists(s.rows, id) {
      var k :| k in s.rows && s.rows[k].id == id;
      assert k in s'.rows && (s'.rows[k].id == id || work.write.Insert?);
    }
  }

  lemma OtherCommitsKeepReferences(s: State, w: TxnId)
    requires AuditInv(s) && w in s.txns && Applied(s.rows, s.txns[w].work.write).Some?
    requires !s.txns[w].work.write.Remove? && ReferencesHold(s)
    ensures ReferencesHold(Committed(s, w))
  {
    forall e | e in Committed(s, w).audit ensures Exists(Committed(s, w).rows, e.flagId) {
      CommitKeepsExisting(s, w, e.flagId);
    }
  }

  /**
   A database that enforces the key accepts every commit except that of a delete: the audit row the
   delete itself adds refers to the flag.
   */
  lemma KeyRefusesDeletes(h: Host, s: State, w: TxnId)
    requires Reachable(h, s) && CanStep(s, Commit(w)) && ReferencesHold(s)
    ensures ReferencesHold(Apply(h, s, Commit(w))) <==> !s.txns[w].work.write.Remove?
  {
    ReachableAudit(h, s);
    StepReferences(h, s, Commit(w));
  }

  // ---------------------------------------------------------------- runs

  lemma {:induction false} LogOfMember(audit: seq<AuditRow>, e: AuditRow)
    requires e in audit
    ensures Log(audit, e.flagId) != []
  {
    var init := audit[..|audit| - 1];
    assert audit == init + [audit[|audit| - 1]];
    if e in init { LogOfMember(init, e); }
  }

  /** A flag that is gone does not come back: ids are not given out twice. */
  lemma StepKeepsGone(h: Host, s: State, step: Step, e: AuditRow)
    requires AuditInv(s) && CanStep(s, step) && e in s.audit && !Exists(s.rows, e.flagId)
    ensures e in Apply(h, s, step).audit && !Exists(Apply(h, s, step).rows, e.flagId)
  {
    if step.Commit? {
      LogOfMember(s.audit, e);
      CommitKeepsGone(s, step.w, e.flagId);
    }
  }

  lemma CommitKeepsGone(s: State, w: TxnId, id: FlagId)
    requires AuditInv(s) && w in s.txns && Applied(s.rows, s.txns[w].work.write).Some?
    requires Log(s.audit, id) != [] && !Exists(s.rows, id)
    ensures !Exists(Committed(s, w).rows, id)
  {
    var work := s.txns[w].work;
    assert TxnAuditInv(s, w);
    CommitKeepsIds(s, w);
    if work.write.Update? { assert s.rows[work.key].id == work.entry.flagId; }
  }

  /** No delete is committed. */
  ghost predicate NoDeleteCommits(h: Host, s: State, steps: seq<Step>)
    requires IsRun(h, s, steps)
    decreases |steps|
  {
    steps == [] ||
    (&& (steps[0].Commit? ==> !s.txns[steps[0].w].work.write.Remove?)
     && NoDeleteCommits(h, Apply(h, s, steps[0]), steps[1..]))
  }

  lemma StepReferences(h: Host, s: State, step: Step)
    requires AuditInv(s) && CanStep(s, step)
    ensures ReferencesHold(Apply(h, s, step)) <==>
      ReferencesHold(s) && (step.Commit? ==> !s.txns[step.w].work.write.Remove?)
  {
    if !ReferencesHold(s) {
      var e :| e in s.audit && !Exists(s.rows, e.flagId);
      StepKeepsGone(h, s, step, e);
    } else if step.Commit? {
      if s.txns[step.w].work.write.Remove? {
        DeleteBreaksReferences(s, step.w);
      } else {
        OtherCommitsKeepReferences(s, step.w);
      }
    }
  }

  lemma {:induction false} RunReferences(h: Host, s: State, steps: seq<Step>)
    requires AuditInv(s) && IsRun(h, s, steps)
    ensures ReferencesHold(Final(h, s, steps)) <==> ReferencesHold(s) && NoDeleteCommits(h, s, steps)
    decreases |steps|
  {
    if steps != [] {
      StepReferences(h, s, steps[0]);
      StepKeepsAudit(h, s, steps[0]);
      RunReferences(h, Apply(h, s, steps[0]), steps[1..]);
    }
  }

  /** The references hold after a run exactly when no delete was committed on it. */
  lemma ReferencesHoldWithoutDeletes(h: Host, processes: set<ReplicaId>, steps: seq<Step>)
    requires IsRun(h, Init(processes), steps)
    ensures ReferencesHold(Final(h, Init(processes), steps)) <==> NoDeleteCommits(h, Init(processes), steps)
  {
    RunReferences(h, Init(processes), steps);
  }
}
