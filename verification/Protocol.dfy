/**
 Any number of write requests and serving processes, interleaved one step at a time.

 A write reads the committed row, is flushed, publishes an invalidation, and only then commits or
 rolls back. A process loads a snapshot, installs it, and only then subscribes.
 */
module Protocol {
  import opened Values
  import opened Evaluation
  import opened FlagCaches
  import opened Writes
  import opened Replicas

  type TxnId = nat
  type ReplicaId = nat

  datatype TxnPhase = Handling | Flushed | Published

  /** A write request in progress; `seen` (history) counts the flag's audit rows when it was read. */
  datatype Txn = Txn(work: Work, phase: TxnPhase, seen: nat)

  /**
   `rows` and `audit` are the committed tables. `usedIds` and `overwritten` are history variables:
   the UUIDs given out, and the flags on which some commit went over a change its request had not read.
   */
  datatype State = State(
    rows: Rows,
    audit: seq<AuditRow>,
    txns: map<TxnId, Txn>,
    replicas: map<ReplicaId, Replica>,
    usedIds: set<FlagId>,
    overwritten: set<FlagId>)

  datatype Step =
    | Begin(w: TxnId, req: Request)
    | Flush(w: TxnId)
    | Publish(w: TxnId, delivered: bool)
    | Commit(w: TxnId)
    | Rollback(w: TxnId)
    | Load(r: ReplicaId, listing: seq<Row>)
    | Install(r: ReplicaId)
    | Subscribe(r: ReplicaId)
    | Receive(r: ReplicaId)
    | RunTask(r: ReplicaId, i: nat)
    | LoseConnection(r: ReplicaId)
    | Restart(r: ReplicaId)

  /** A step of a serving process; the other steps are those of write requests. */
  predicate IsProcessStep(step: Step) {
    || step.Load? || step.Install? || step.Subscribe? || step.Receive? || step.RunTask? || step.LoseConnection?
    || step.Restart?
  }

  /** The audit rows of one flag. */
  function Log(audit: seq<AuditRow>, id: FlagId): seq<AuditRow> {
    if audit == [] then []
    else
      var last := audit[|audit| - 1];
      Log(audit[..|audit| - 1], id) + if last.flagId == id then [last] else []
  }

  /** `SELECT * FROM flags`, in whatever order the database returns the rows. */
  ghost predicate IsListing(listing: seq<Row>, rows: Rows) {
    && (forall row | row in listing :: row.key in rows && rows[row.key] == row)
    && (forall k | k in rows :: rows[k] in listing)
  }

  function Snapshots(listing: seq<Row>): seq<FlagDict> {
    seq(|listing|, i requires 0 <= i < |listing| => SnapshotOf(listing[i]))
  }

  /** Keys whose invalidation is out while the change is not committed yet. */
  function Announced(txns: map<TxnId, Txn>): set<string> {
    set w | w in txns && txns[w].phase == Published :: txns[w].work.key
  }

  lemma AnnouncedGrows(txns: map<TxnId, Txn>, txns': map<TxnId, Txn>)
    requires forall w | w in txns && txns[w].phase == Published ::
      w in txns' && txns'[w].phase == Published && txns'[w].work.key == txns[w].work.key
    ensures Announced(txns) <= Announced(txns')
  {}

  function MessageOf(work: Work): Message {
    var version := match work.write
      case Insert(row) => row.version
      case Update(_, _, columns) => columns.version
      case Remove(_, _) => if work.read.Some? then work.read.value.version else 0;
    Message(Some(work.key), Some(version), Some(work.action))
  }

  /** The message names the key, the version of the row after the request, and whether it is a delete. */
  lemma MessageNamesChange(h: Host, req: Request, rows: Rows)
    requires WellKeyed(rows) && Prepare(h, req, rows).Ok?
    ensures var work := Prepare(h, req, rows).value;
      var rows' := Applied(rows, work.write);
      && rows'.Some? && (work.key in rows'.value || work.key in rows)
      && MessageOf(work) == Message(
           Some(work.key),
           Some(if work.key in rows'.value then rows'.value[work.key].version else rows[work.key].version),
           Some(if req.DeleteFlag? then "delete" else "update"))
  {}

  /** A published message reaches a process exactly when it is subscribed; a failed publish reaches nobody. */
  function Told(rep: Replica, work: Work, delivered: bool): Replica {
    if delivered && rep.listener.subscribed then
      rep.(listener := rep.listener.(inbox := rep.listener.inbox + [MessageOf(work)]))
    else if rep.phase == Down then rep
    else rep.(missed := rep.missed + {work.key})
  }

  // ---------------------------------------------------------------- transitions

  ghost predicate CanStep(s: State, step: Step) {
    match step
    case Begin(w, req) => w !in s.txns && (req.CreateFlag? ==> req.id !in s.usedIds)
    case Flush(w) => w in s.txns && s.txns[w].phase == Handling && !s.txns[w].work.write.Remove?
    case Publish(w, _) =>
      && w in s.txns
      // deletes are not flushed before they are announced
      && s.txns[w].phase == if s.txns[w].work.write.Remove? then Handling else Flushed
    case Commit(w) => w in s.txns && s.txns[w].phase == Published && Applied(s.rows, s.txns[w].work.write).Some?
    case Rollback(w) => w in s.txns
    case Load(r, listing) => r in s.replicas && s.replicas[r].phase == Down && IsListing(listing, s.rows)
    case Install(r) => r in s.replicas && s.replicas[r].phase == Loading && AllKeyed(s.replicas[r].loaded)
    case Subscribe(r) => r in s.replicas && s.replicas[r].phase == Ready && !s.replicas[r].listener.subscribed
    case Receive(r) => r in s.replicas && s.replicas[r].listener.inbox != []
    case RunTask(r, i) => r in s.replicas && i < |s.replicas[r].listener.tasks|
    case LoseConnection(r) => r in s.replicas && s.replicas[r].phase == Ready
    case Restart(r) => r in s.replicas
  }

  /** A step of one process. */
  function ReplicaAfter(rep: Replica, step: Step, txns: map<TxnId, Txn>): Replica
    requires step.Install? ==> AllKeyed(rep.loaded)
    requires step.Receive? ==> rep.listener.inbox != []
    requires step.RunTask? ==> step.i < |rep.listener.tasks|
  {
    match step
    case Load(_, listing) => rep.(phase := Loading, loaded := Snapshots(listing), missed := Announced(txns))
    case Install(_) => rep.(phase := Ready, loaded := [], cache := Installed(rep.cache, rep.loaded))
    case Subscribe(_) => rep.(listener := Subscribed(rep.listener))
    case Receive(_) => rep.(listener := Received(rep.listener))
    case RunTask(_, i) =>
      rep.(cache := rep.cache.(flags := Handled(rep.cache.flags, rep.listener.tasks[i])),
           listener := rep.listener.(tasks := WithoutTask(rep.listener.tasks, i)))
    case LoseConnection(_) =>
      rep.(listener := ConnectionLost(rep.listener), missed := rep.missed + Mentioned(rep.listener.inbox))
    case Restart(_) => STOPPED
    case _ => rep
  }

  function Begun(h: Host, s: State, w: TxnId, req: Request): State {
    match Prepare(h, req, s.rows)
    case Err(_) => s
    case Ok(work) =>
      s.(txns := s.txns[w := Txn(work, Handling, |Log(s.audit, work.entry.flagId)|)],
         usedIds := s.usedIds + {work.entry.flagId})
  }

  function Committed(s: State, w: TxnId): State
    requires w in s.txns && Applied(s.rows, s.txns[w].work.write).Some?
  {
    var txn := s.txns[w];
    var id := txn.work.entry.flagId;
    s.(rows := Applied(s.rows, txn.work.write).value,
       audit := s.audit + [txn.work.entry],
       txns := s.txns - {w},
       overwritten := if |Log(s.audit, id)| == txn.seen then s.overwritten else s.overwritten + {id})
  }

  ghost function Apply(h: Host, s: State, step: Step): State
    requires CanStep(s, step)
  {
    match step
    case Begin(w, req) => Begun(h, s, w, req)
    case Flush(w) => s.(txns := s.txns[w := s.txns[w].(phase := Flushed)])
    case Publish(w, delivered) =>
      var work := s.txns[w].work;
      s.(txns := s.txns[w := s.txns[w].(phase := Published)],
         replicas := map r | r in s.replicas :: Told(s.replicas[r], work, delivered))
    case Commit(w) => Committed(s, w)
    case Rollback(w) => s.(txns := s.txns - {w})
    case _ => s.(replicas := s.replicas[step.r := ReplicaAfter(s.replicas[step.r], step, s.txns)])
  }

  // ---------------------------------------------------------------- runs

  /** Empty tables, no request, every process stopped. */
  function Init(processes: set<ReplicaId>): State {
    State(map[], [], map[], map r | r in processes :: STOPPED, {}, {})
  }

  ghost predicate IsRun(h: Host, s: State, steps: seq<Step>)
    decreases |steps|
  {
    steps == [] || (CanStep(s, steps[0]) && IsRun(h, Apply(h, s, steps[0]), steps[1..]))
  }

  ghost function Final(h: Host, s: State, steps: seq<Step>): State
    requires IsRun(h, s, steps)
    decreases |steps|
  {
    if steps == [] then s else Final(h, Apply(h, s, steps[0]), steps[1..])
  }

  /** The states an arbitrary run can reach. */
  ghost predicate Reachable(h: Host, s: State) {
    exists processes, steps :: IsRun(h, Init(processes), steps) && Final(h, Init(processes), steps) == s
  }

  lemma {:induction false} RunConcat(h: Host, s: State, a: seq<Step>, b: seq<Step>)
    requires IsRun(h, s, a) && IsRun(h, Final(h, s, a), b)
    ensures IsRun(h, s, a + b) && Final(h, s, a + b) == Final(h, Final(h, s, a), b)
    decreases |a|
  {
    if a == [] {
      assert a + b == b;
    } else {
      assert (a + b)[0] == a[0] && (a + b)[1..] == a[1..] + b;
      RunConcat(h, Apply(h, s, a[0]), a[1..], b);
    }
  }

  lemma OneStep(h: Host, s: State, step: Step)
    requires CanStep(s, step)
    ensures IsRun(h, s, [step]) && Final(h, s, [step]) == Apply(h, s, step)
  {}

  /** A run with one more step at its end. */
  lemma RunThenStep(h: Host, s: State, steps: seq<Step>, step: Step)
    requires IsRun(h, s, steps) && CanStep(Final(h, s, steps), step)
    ensures IsRun(h, s, steps + [step]) && Final(h, s, steps + [step]) == Apply(h, Final(h, s, steps), step)
  {
    OneStep(h, Final(h, s, steps), step);
    RunConcat(h, s, steps, [step]);
  }

  /** What a run leads to from a reachable state is reachable. */
  lemma ReachableRun(h: Host, s: State, steps: seq<Step>)
    requires Reachable(h, s) && IsRun(h, s, steps)
    ensures Reachable(h, Final(h, s, steps))
  {
    var processes, init :| IsRun(h, Init(processes), init) && Final(h, Init(processes), init) == s;
    RunConcat(h, Init(processes), init, steps);
  }

  /** Processes stop and start, but are the same ones throughout. */
  lemma {:induction false} RunKeepsProcesses(h: Host, s: State, steps: seq<Step>)
    requires IsRun(h, s, steps)
    ensures Final(h, s, steps).replicas.Keys == s.replicas.Keys
    decreases |steps|
  {
    if steps != [] {
      assert Apply(h, s, steps[0]).replicas.Keys == s.replicas.Keys;
      RunKeepsProcesses(h, Apply(h, s, steps[0]), steps[1..]);
    }
  }

  predicate NeverRestarts(steps: seq<Step>, r: ReplicaId) {
    forall i | 0 <= i < |steps| :: steps[i] != Restart(r)
  }

  lemma NeverRestartsLater(steps: seq<Step>, r: ReplicaId)
    requires steps != [] && NeverRestarts(steps, r)
    ensures steps[0] != Restart(r) && NeverRestarts(steps[1..], r)
  {}
}
