/**
 What a serving process may answer: its snapshots are the committed rows, except for keys whose
 invalidation is on its way or was missed.
 */
module Coherence {
  import opened Values
  import opened FlagCaches
  import opened Writes
  import opened Replicas
  import opened Protocol

  /** The snapshot held for `k` is the committed row. */
  predicate Current(rows: Rows, rep: Replica, k: string) {
    k in Held(rep) && k in rows && Held(rep)[k] == SnapshotOf(rows[k])
  }

  /** Start-up order: nothing is ready before the snapshot is installed, nothing is received before that. */
  ghost predicate InOrder(rep: Replica) {
    && (rep.phase == Down ==> rep == STOPPED)
    && (rep.phase == Loading ==>
          AllKeyed(rep.loaded) && rep.cache == EMPTY_CACHE && rep.listener == NOT_LISTENING)
    && (rep.phase == Ready <==> rep.cache.ready)
    && (!rep.listener.subscribed ==> rep.listener.inbox == [])
  }

  ghost predicate ReplicaInv(rows: Rows, txns: map<TxnId, Txn>, rep: Replica) {
    && InOrder(rep)
    && Keyed(Held(rep))
    && (forall k | k in Held(rep) :: Covered(rep, k) || Current(rows, rep, k))
    && (forall k | k in Announced(txns) && k in Held(rep) :: Covered(rep, k))
  }

  ghost predicate TxnInv(txn: Txn) {
    && txn.work.key != "" && WriteKey(txn.work.write) == txn.work.key
    && txn.work.entry.flagId == WriteId(txn.work.write)
  }

  ghost predicate Inv(s: State) {
    && WellKeyed(s.rows)
    && (forall w | w in s.txns :: TxnInv(s.txns[w]))
    && (forall r | r in s.replicas :: ReplicaInv(s.rows, s.txns, s.replicas[r]))
  }

  // ---------------------------------------------------------------- one step

  lemma LoadedSnapshots(rows: Rows, listing: seq<Row>)
    requires WellKeyed(rows) && IsListing(listing, rows)
    ensures AllKeyed(Snapshots(listing))
    ensures var flags := Indexed(Snapshots(listing));
      && flags.Keys == rows.Keys
      && forall k | k in rows :: flags[k] == SnapshotOf(rows[k])
  {
    var loaded := Snapshots(listing);
    IndexedIsKeyed(loaded);
    var flags := Indexed(loaded);
    forall k | k in flags ensures k in rows && flags[k] == SnapshotOf(rows[k]) {
      var i :| 0 <= i < |loaded| && loaded[i] == flags[k];
      assert listing[i] in listing;
    }
    forall k | k in rows ensures k in flags {
      var i :| 0 <= i < |listing| && listing[i] == rows[k];
      assert loaded[i] in loaded;
    }
  }

  lemma LoadKeeps(rows: Rows, txns: map<TxnId, Txn>, rep: Replica, step: Step)
    requires step.Load? && rep.phase == Down && WellKeyed(rows) && IsListing(step.listing, rows)
    requires ReplicaInv(rows, txns, rep)
    ensures ReplicaInv(rows, txns, ReplicaAfter(rep, step, txns))
  {
    LoadedSnapshots(rows, step.listing);
  }

  lemma TaskKeeps(rows: Rows, txns: map<TxnId, Txn>, rep: Replica, step: Step)
    requires step.RunTask? && step.i < |rep.listener.tasks| && ReplicaInv(rows, txns, rep)
    ensures ReplicaInv(rows, txns, ReplicaAfter(rep, step, txns))
  {}

  lemma ReplicaStepKeeps(rows: Rows, txns: map<TxnId, Txn>, rep: Replica, step: Step)
    requires step.Install? || step.Subscribe? || step.Receive? || step.LoseConnection? || step.Restart?
    requires step.Install? ==> rep.phase == Loading && AllKeyed(rep.loaded)
    requires step.Subscribe? || step.LoseConnection? ==> rep.phase == Ready
    requires step.Receive? ==> rep.listener.inbox != []
    requires ReplicaInv(rows, txns, rep)
    ensures ReplicaInv(rows, txns, ReplicaAfter(rep, step, txns))
  {
    var rep' := ReplicaAfter(rep, step, txns);
    if step.Receive? {
      forall k ensures InFlight(rep', k) <==> InFlight(rep, k) { ReceivedKeepsInFlight(rep, k); }
    } else if step.LoseConnection? {
      assert Mentioned([]) == {};
      forall k ensures Covered(rep', k) <==> Covered(rep, k) {}
    }
  }

  /** Announcing a change covers its key everywhere, whether or not the message arrives. */
  lemma PublishKeeps(rows: Rows, txns: map<TxnId, Txn>, txns': map<TxnId, Txn>, rep: Replica, work: Work,
                     delivered: bool)
    requires ReplicaInv(rows, txns, rep) && work.key != ""
    requires Announced(txns') == Announced(txns) + {work.key}
    ensures ReplicaInv(rows, txns', Told(rep, work, delivered))
  {
    var rep' := Told(rep, work, delivered);
    MentionedConcat(rep.listener.inbox, [MessageOf(work)]);
    assert Mentioned([MessageOf(work)]) == Removes(MessageOf(work)) == {work.key};
    forall k | k in Held(rep') ensures Covered(rep, k) ==> Covered(rep', k) {}
  }

  /** A commit changes one row, and the key of that row was announced before. */
  lemma CommitKeeps(rows: Rows, txns: map<TxnId, Txn>, w: TxnId, rep: Replica)
    requires w in txns && txns[w].phase == Published && TxnInv(txns[w])
    requires WellKeyed(rows) && Applied(rows, txns[w].work.write).Some?
    requires ReplicaInv(rows, txns, rep)
    ensures ReplicaInv(Applied(rows, txns[w].work.write).value, txns - {w}, rep)
  {
    AppliedIsLocal(rows, txns[w].work.write);
    assert txns[w].work.key in Announced(txns);
  }

  lemma BeginKeepsInv(h: Host, s: State, w: TxnId, req: Request)
    requires Inv(s) && CanStep(s, Begin(w, req))
    ensures Inv(Apply(h, s, Begin(w, req)))
  {
    var s' := Apply(h, s, Begin(w, req));
    if Prepare(h, req, s.rows).Ok? { WorkIsLocal(h, req, s.rows); }
    AnnouncedGrows(s'.txns, s.txns);
  }

  /** Before it is announced, a request in progress is invisible to every process. */
  lemma QuietStepKeepsInv(h: Host, s: State, step: Step)
    requires Inv(s) && CanStep(s, step) && (step.Flush? || step.Rollback?)
    ensures Inv(Apply(h, s, step))
  {
    AnnouncedGrows(Apply(h, s, step).txns, s.txns);
  }

  lemma PublishKeepsInv(h: Host, s: State, w: TxnId, delivered: bool)
    requires Inv(s) && CanStep(s, Publish(w, delivered))
    ensures Inv(Apply(h, s, Publish(w, delivered)))
  {
    var s' := Apply(h, s, Publish(w, delivered));
    var work := s.txns[w].work;
    assert w in s'.txns && s'.txns[w].phase == Published;
    AnnouncedGrows(s.txns, s'.txns);
    assert Announced(s'.txns) == Announced(s.txns) + {work.key};
    forall r | r in s'.replicas ensures ReplicaInv(s'.rows, s'.txns, s'.replicas[r]) {
      PublishKeeps(s.rows, s.txns, s'.txns, s.replicas[r], work, delivered);
    }
  }

  lemma CommitKeepsInv(h: Host, s: State, w: TxnId)
    requires Inv(s) && CanStep(s, Commit(w))
    ensures Inv(Apply(h, s, Commit(w)))
  {
    var s' := Apply(h, s, Commit(w));
    AppliedIsLocal(s.rows, s.txns[w].work.write);
    forall r | r in s'.replicas ensures ReplicaInv(s'.rows, s'.txns, s'.replicas[r]) {
      CommitKeeps(s.rows, s.txns, w, s.replicas[r]);
    }
  }

  lemma ReplicaKeepsInv(rows: Rows, txns: map<TxnId, Txn>, rep: Replica, step: Step)
    requires IsProcessStep(step) && WellKeyed(rows) && ReplicaInv(rows, txns, rep)
    requires step.Load? ==> rep.phase == Down && IsListing(step.listing, rows)
    requires step.Install? ==> rep.phase == Loading && AllKeyed(rep.loaded)
    requires step.Subscribe? || step.LoseConnection? ==> rep.phase == Ready
    requires step.Receive? ==> rep.listener.inbox != []
    requires step.RunTask? ==> step.i < |rep.listener.tasks|
    ensures ReplicaInv(rows, txns, ReplicaAfter(rep, step, txns))
  {
    if step.Load? {
      LoadKeeps(rows, txns, rep, step);
    } else if step.RunTask? {
      TaskKeeps(rows, txns, rep, step);
    } else {
      ReplicaStepKeeps(rows, txns, rep, step);
    }
  }

  lemma ProcessStepKeepsInv(h: Host, s: State, step: Step)
    requires Inv(s) && CanStep(s, step) && IsProcessStep(step)
    ensures Inv(Apply(h, s, step))
  {
    ReplicaKeepsInv(s.rows, s.txns, s.replicas[step.r], step);
  }

  lemma StepKeepsInv(h: Host, s: State, step: Step)
    requires Inv(s) && CanStep(s, step)
    ensures Inv(Apply(h, s, step))
  {
    match step
    case Begin(w, req) => BeginKeepsInv(h, s, w, req);
    case Flush(_) => QuietStepKeepsInv(h, s, step);
    case Rollback(_) => QuietStepKeepsInv(h, s, step);
    case Publish(w, delivered) => PublishKeepsInv(h, s, w, delivered);
    case Commit(w) => CommitKeepsInv(h, s, w);
    case _ => ProcessStepKeepsInv(h, s, step);
  }

  lemma {:induction false} RunKeepsInv(h: Host, s: State, steps: seq<Step>)
    requires Inv(s) && IsRun(h, s, steps)
    ensures Inv(Final(h, s, steps))
    decreases |steps|
  {
    if steps != [] {
      StepKeepsInv(h, s, steps[0]);
      RunKeepsInv(h, Apply(h, s, steps[0]), steps[1..]);
    }
  }

  lemma ReachableInv(h: Host, s: State)
    requires Reachable(h, s)
    ensures Inv(s)
  {
    var processes, steps :| IsRun(h, Init(processes), steps) && Final(h, Init(processes), steps) == s;
    RunKeepsInv(h, Init(processes), steps);
  }

  // ---------------------------------------------------------------- what counts as missed

  /**
   A key becomes missed at a process in exactly three situations: it is announced while the process
   is up and the message does not reach it; the message was unread when the connection broke; or it
   had been announced, and not yet committed, when the process loaded its snapshot.
   */
  lemma MissedOnlyWhen(h: Host, s: State, step: Step, r: ReplicaId, k: string)
    requires CanStep(s, step) && r in s.replicas && k !in s.replicas[r].missed
    ensures var s' := Apply(h, s, step);
      && r in s'.replicas
      && (k in s'.replicas[r].missed <==>
           || (step.Publish? && s.txns[step.w].work.key == k && s.replicas[r].phase != Down
               && !(step.delivered && s.replicas[r].listener.subscribed))
           || (step.LoseConnection? && step.r == r && k in Mentioned(s.replicas[r].listener.inbox))
           || (step.Load? && step.r == r && k in Announced(s.txns)))
  {}
}
