/**
 Composite runs: a process that starts or handles all its messages, a request from its read to its
 commit or rollback.
 */
module Schedules {
  import opened Values
  import opened FlagCaches
  import opened Writes
  import opened Replicas
  import opened Protocol
  import opened Coherence

  // ---------------------------------------------------------------- processes

  /** Everything in flight to a process has been handled. */
  function Drained(rep: Replica): Replica {
    rep.(listener := rep.listener.(inbox := [], tasks := []),
         cache := rep.cache.(flags := rep.cache.flags - Mentioned(rep.listener.inbox) - Mentioned(rep.listener.tasks)))
  }

  lemma DrainedReceive(rep: Replica)
    requires rep.listener.inbox != []
    ensures Drained(rep.(listener := Received(rep.listener))) == Drained(rep)
  {}

  lemma DrainedTask(rep: Replica, r: ReplicaId, i: nat, txns: map<TxnId, Txn>)
    requires i < |rep.listener.tasks|
    ensures Drained(ReplicaAfter(rep, RunTask(r, i), txns)) == Drained(rep)
  {}

  lemma DrainedAlready(rep: Replica)
    requires rep.listener.inbox == [] && rep.listener.tasks == []
    ensures Drained(rep) == rep
  {
    assert Mentioned([]) == {};
    assert rep.cache.flags - {} - {} == rep.cache.flags;
  }

  function WithReplica(s: State, r: ReplicaId, rep: Replica): State {
    s.(replicas := s.replicas[r := rep])
  }

  /** The process reads messages and runs handler tasks, in any order, and nothing else happens. */
  predicate OnlyHandles(steps: seq<Step>, r: ReplicaId) {
    forall i | 0 <= i < |steps| :: steps[i] == Receive(r) || (steps[i].RunTask? && steps[i].r == r)
  }

  /** The steps it takes to read every message and run every task. */
  function Backlog(l: ListenerState): nat {
    2 * |l.inbox| + |l.tasks|
  }

  /** An interleaving of reads and tasks that leaves nothing unread and no task waiting. */
  ghost predicate HandlesAll(h: Host, s: State, steps: seq<Step>, r: ReplicaId)
    requires r in s.replicas
  {
    IsRun(h, s, steps) && OnlyHandles(steps, r) && |steps| == Backlog(s.replicas[r].listener)
  }

  lemma HandlingStep(h: Host, s: State, step: Step, r: ReplicaId)
    requires r in s.replicas && CanStep(s, step) && (step == Receive(r) || (step.RunTask? && step.r == r))
    ensures var rep' := ReplicaAfter(s.replicas[r], step, s.txns);
      && Apply(h, s, step) == WithReplica(s, r, rep')
      && Drained(rep') == Drained(s.replicas[r])
      && 1 + Backlog(rep'.listener) == Backlog(s.replicas[r].listener)
  {
    if step.Receive? {
      DrainedReceive(s.replicas[r]);
    } else {
      DrainedTask(s.replicas[r], r, step.i, s.txns);
    }
  }

  /** Every step of handling takes one off the backlog and leaves it open what remains in the end. */
  lemma {:induction false} HandlingKeepsDrained(h: Host, s: State, steps: seq<Step>, r: ReplicaId)
    requires r in s.replicas && IsRun(h, s, steps) && OnlyHandles(steps, r)
    ensures var s' := Final(h, s, steps);
      && r in s'.replicas && s' == WithReplica(s, r, s'.replicas[r])
      && Drained(s'.replicas[r]) == Drained(s.replicas[r])
      && |steps| + Backlog(s'.replicas[r].listener) == Backlog(s.replicas[r].listener)
    decreases |steps|
  {
    if steps == [] {
      assert s.replicas[r := s.replicas[r]] == s.replicas;
    } else {
      HandlingStep(h, s, steps[0], r);
      assert forall i | 0 <= i < |steps[1..]| :: steps[1..][i] == steps[i + 1];
      HandlingKeepsDrained(h, Apply(h, s, steps[0]), steps[1..], r);
    }
  }

  /**
   Whatever the order in which messages are read and tasks are run, the process ends up without the
   mentioned keys and otherwise as it was, and nothing else is touched.
   */
  lemma AnyHandlingDrains(h: Host, s: State, steps: seq<Step>, r: ReplicaId)
    requires r in s.replicas && HandlesAll(h, s, steps, r)
    ensures Final(h, s, steps) == WithReplica(s, r, Drained(s.replicas[r]))
  {
    HandlingKeepsDrained(h, s, steps, r);
    DrainedAlready(Final(h, s, steps).replicas[r]);
  }

  /** One such order: read everything on the connection, then run every task. */
  function DrainSteps(r: ReplicaId, l: ListenerState): seq<Step>
    decreases |l.inbox|, |l.tasks|
  {
    if l.inbox != [] then [Receive(r)] + DrainSteps(r, Received(l))
    else if l.tasks != [] then [RunTask(r, 0)] + DrainSteps(r, l.(tasks := WithoutTask(l.tasks, 0)))
    else []
  }

  lemma PrependHandling(h: Host, s: State, step: Step, rest: seq<Step>, r: ReplicaId)
    requires r in s.replicas && CanStep(s, step) && (step == Receive(r) || (step.RunTask? && step.r == r))
    requires r in Apply(h, s, step).replicas && HandlesAll(h, Apply(h, s, step), rest, r)
    ensures HandlesAll(h, s, [step] + rest, r)
  {
    HandlingStep(h, s, step, r);
    assert ([step] + rest)[1..] == rest;
  }

  lemma {:induction false} DrainHandlesAll(h: Host, s: State, r: ReplicaId)
    requires r in s.replicas
    ensures HandlesAll(h, s, DrainSteps(r, s.replicas[r].listener), r)
    decreases Backlog(s.replicas[r].listener)
  {
    var l := s.replicas[r].listener;
    if l.inbox != [] || l.tasks != [] {
      var step := if l.inbox != [] then Receive(r) else RunTask(r, 0);
      HandlingStep(h, s, step, r);
      DrainHandlesAll(h, Apply(h, s, step), r);
      PrependHandling(h, s, step, DrainSteps(r, Apply(h, s, step).replicas[r].listener), r);
    }
  }

  lemma ThreeSteps(h: Host, s: State, a: Step, b: Step, c: Step)
    requires CanStep(s, a)
    requires var s1 := Apply(h, s, a); CanStep(s1, b)
    requires var s2 := Apply(h, Apply(h, s, a), b); CanStep(s2, c)
    ensures IsRun(h, s, [a, b, c])
    ensures Final(h, s, [a, b, c]) == Apply(h, Apply(h, Apply(h, s, a), b), c)
  {
    var s1 := Apply(h, s, a);
    var s2 := Apply(h, s1, b);
    OneStep(h, s, a);
    OneStep(h, s1, b);
    OneStep(h, s2, c);
    RunConcat(h, s1, [b], [c]);
    RunConcat(h, s, [a], [b] + [c]);
    assert [a] + ([b] + [c]) == [a, b, c];
  }

  /** Load, install and subscribe: the process then serves the rows it loaded. */
  lemma ProcessStarts(h: Host, s: State, r: ReplicaId, listing: seq<Row>)
    requires WellKeyed(s.rows) && CanStep(s, Load(r, listing)) && InOrder(s.replicas[r])
    ensures var steps := [Load(r, listing), Install(r), Subscribe(r)];
      && IsRun(h, s, steps)
      && var s' := Final(h, s, steps);
      && r in s'.replicas && s' == WithReplica(s, r, s'.replicas[r])
      && s'.replicas[r].phase == Ready && s'.replicas[r].missed == Announced(s.txns)
      && s'.replicas[r].listener == Subscribed(NOT_LISTENING)
      && s'.replicas[r].cache.flags == Indexed(Snapshots(listing))
  {
    LoadedSnapshots(s.rows, listing);
    var s1 := Apply(h, s, Load(r, listing));
    var s2 := Apply(h, s1, Install(r));
    ThreeSteps(h, s, Load(r, listing), Install(r), Subscribe(r));
    var s3 := Apply(h, s2, Subscribe(r));
    assert s3.replicas == s.replicas[r := s3.replicas[r]];
  }

  /** The table can always be listed, so a stopped process can always start. */
  lemma SomeListing(rows: Rows) returns (listing: seq<Row>)
    requires WellKeyed(rows)
    ensures IsListing(listing, rows)
    decreases |rows|
  {
    listing := [];
    if rows != map[] {
      var k :| k in rows;
      var rest := SomeListing(rows - {k});
      listing := [rows[k]] + rest;
      forall k' | k' in rows ensures rows[k'] in listing {
        if k' != k { assert (rows - {k})[k'] in rest; }
      }
    }
  }

  // ---------------------------------------------------------------- requests

  /** A request that its handler accepts in this state. */
  ghost predicate Accepted(h: Host, s: State, w: TxnId, req: Request) {
    CanStep(s, Begin(w, req)) && Prepare(h, req, s.rows).Ok?
  }

  /** A handler up to its return: read, flush, publish. Deletes are announced unflushed. */
  function AnnounceSteps(w: TxnId, req: Request, delivered: bool): seq<Step> {
    if req.DeleteFlag? then [Begin(w, req), Publish(w, delivered)]
    else [Begin(w, req), Flush(w), Publish(w, delivered)]
  }

  /** The usual life of a request. */
  function WriteSteps(w: TxnId, req: Request, delivered: bool): seq<Step> {
    AnnounceSteps(w, req, delivered) + [Commit(w)]
  }

  /** A request whose commit fails, or whose client is gone by then. */
  function AbortSteps(w: TxnId, req: Request, delivered: bool): seq<Step> {
    AnnounceSteps(w, req, delivered) + [Rollback(w)]
  }

  function AllTold(replicas: map<ReplicaId, Replica>, work: Work, delivered: bool): map<ReplicaId, Replica> {
    map r | r in replicas :: Told(replicas[r], work, delivered)
  }

  /** The state when the handler of an accepted request returns: the change is out, and not committed. */
  function AfterAnnouncing(s: State, w: TxnId, work: Work, delivered: bool): State {
    s.(txns := s.txns[w := Txn(work, Published, |Log(s.audit, work.entry.flagId)|)],
       usedIds := s.usedIds + {work.entry.flagId},
       replicas := AllTold(s.replicas, work, delivered))
  }

  /** The state when the request has read the row and prepared its write. */
  function AfterReading(s: State, w: TxnId, work: Work): State {
    s.(txns := s.txns[w := Txn(work, Handling, |Log(s.audit, work.entry.flagId)|)],
       usedIds := s.usedIds + {work.entry.flagId})
  }

  lemma DeleteAnnounces(h: Host, s: State, w: TxnId, req: Request, delivered: bool)
    requires WellKeyed(s.rows) && Accepted(h, s, w, req) && req.DeleteFlag?
    ensures IsRun(h, s, AnnounceSteps(w, req, delivered))
    ensures Final(h, s, AnnounceSteps(w, req, delivered))
         == AfterAnnouncing(s, w, Prepare(h, req, s.rows).value, delivered)
  {
    var work := Prepare(h, req, s.rows).value;
    WorkIsLocal(h, req, s.rows);
    var s1 := Apply(h, s, Begin(w, req));
    OneStep(h, s, Begin(w, req));
    RunThenStep(h, s, [Begin(w, req)], Publish(w, delivered));
    assert AnnounceSteps(w, req, delivered) == [Begin(w, req)] + [Publish(w, delivered)];
    assert Apply(h, s1, Publish(w, delivered)) == AfterAnnouncing(s, w, work, delivered);
  }

  lemma HandlerAnnounces(h: Host, s: State, w: TxnId, work: Work, delivered: bool)
    requires !work.write.Remove?
    ensures var s1 := AfterReading(s, w, work);
      && IsRun(h, s1, [Flush(w), Publish(w, delivered)])
      && Final(h, s1, [Flush(w), Publish(w, delivered)]) == AfterAnnouncing(s, w, work, delivered)
  {
    var s1 := AfterReading(s, w, work);
    RestOfHandler(h, s1, w, delivered);
    assert s1.txns[w := s1.txns[w].(phase := Published)] == AfterAnnouncing(s, w, work, delivered).txns;
  }

  lemma UpdateAnnounces(h: Host, s: State, w: TxnId, req: Request, delivered: bool)
    requires WellKeyed(s.rows) && Accepted(h, s, w, req) && !req.DeleteFlag?
    ensures IsRun(h, s, AnnounceSteps(w, req, delivered))
    ensures Final(h, s, AnnounceSteps(w, req, delivered))
         == AfterAnnouncing(s, w, Prepare(h, req, s.rows).value, delivered)
  {
    var work := Prepare(h, req, s.rows).value;
    WorkIsLocal(h, req, s.rows);
    OneStep(h, s, Begin(w, req));
    HandlerAnnounces(h, s, w, work, delivered);
    assert Apply(h, s, Begin(w, req)) == AfterReading(s, w, work);
    RunConcat(h, s, [Begin(w, req)], [Flush(w), Publish(w, delivered)]);
    assert AnnounceSteps(w, req, delivered) == [Begin(w, req)] + [Flush(w), Publish(w, delivered)];
  }

  lemma Announces(h: Host, s: State, w: TxnId, req: Request, delivered: bool)
    requires WellKeyed(s.rows) && Accepted(h, s, w, req)
    ensures IsRun(h, s, AnnounceSteps(w, req, delivered))
    ensures Final(h, s, AnnounceSteps(w, req, delivered))
         == AfterAnnouncing(s, w, Prepare(h, req, s.rows).value, delivered)
  {
    if req.DeleteFlag? { DeleteAnnounces(h, s, w, req, delivered); } else { UpdateAnnounces(h, s, w, req, delivered); }
  }

  /**
   Undisturbed, every accepted request goes through: its write is applied, one audit row is added,
   no change is overwritten, and every process has been told or has missed it.
   */
  lemma WriteGoesThrough(h: Host, s: State, w: TxnId, req: Request, delivered: bool)
    requires WellKeyed(s.rows) && Accepted(h, s, w, req)
    ensures var work := Prepare(h, req, s.rows).value;
      && Applied(s.rows, work.write).Some?
      && IsRun(h, s, WriteSteps(w, req, delivered))
      && Final(h, s, WriteSteps(w, req, delivered)) == s.(
           rows := Applied(s.rows, work.write).value,
           audit := s.audit + [work.entry],
           usedIds := s.usedIds + {work.entry.flagId},
           replicas := AllTold(s.replicas, work, delivered))
  {
    WorkIsLocal(h, req, s.rows);
    Announces(h, s, w, req, delivered);
    RunThenStep(h, s, AnnounceSteps(w, req, delivered), Commit(w));
    assert s.txns[w := Final(h, s, AnnounceSteps(w, req, delivered)).txns[w]] - {w} == s.txns;
  }

  /** A request that is announced and then rolled back leaves the tables alone, and its message out. */
  lemma AnnouncedThenRolledBack(h: Host, s: State, w: TxnId, req: Request, delivered: bool)
    requires WellKeyed(s.rows) && Accepted(h, s, w, req)
    ensures var work := Prepare(h, req, s.rows).value;
      && IsRun(h, s, AbortSteps(w, req, delivered))
      && Final(h, s, AbortSteps(w, req, delivered)) == s.(
           usedIds := s.usedIds + {work.entry.flagId},
           replicas := AllTold(s.replicas, work, delivered))
  {
    Announces(h, s, w, req, delivered);
    RunThenStep(h, s, AnnounceSteps(w, req, delivered), Rollback(w));
    assert s.txns[w := Final(h, s, AnnounceSteps(w, req, delivered)).txns[w]] - {w} == s.txns;
  }

  /** The rest of a handler whose request has read the row already. */
  lemma RestOfHandler(h: Host, s: State, w: TxnId, delivered: bool)
    requires w in s.txns && s.txns[w].phase == Handling && !s.txns[w].work.write.Remove?
    ensures IsRun(h, s, [Flush(w), Publish(w, delivered)])
    ensures Final(h, s, [Flush(w), Publish(w, delivered)]) == s.(
      txns := s.txns[w := s.txns[w].(phase := Published)],
      replicas := AllTold(s.replicas, s.txns[w].work, delivered))
  {
    OneStep(h, s, Flush(w));
    RunThenStep(h, s, [Flush(w)], Publish(w, delivered));
    assert [Flush(w)] + [Publish(w, delivered)] == [Flush(w), Publish(w, delivered)];
  }

  lemma ToldIsInFlight(rep: Replica, work: Work)
    requires rep.listener.subscribed && work.key != ""
    ensures work.key in Mentioned(Told(rep, work, true).listener.inbox)
  {
    var inbox := Told(rep, work, true).listener.inbox;
    assert MessageOf(work) in inbox && work.key in Removes(MessageOf(work));
  }
}
