/**
 The write endpoints: what each reads, what it assigns, the audit row it adds, and the session that
 commits both together or neither.
 */
module Writes {
  import opened Values
  import opened Evaluation
  import opened RuleEdits
  import Names

  type FlagId = nat

  /** A row of the flags table. */
  datatype Row = Row(
    id: FlagId, key: string, name: string, description: Option<string>, flagType: string,
    defaultValue: Value, environments: Environments, version: int)

  /** The flags table by its unique key. */
  type Rows = map<string, Row>

  datatype Action = Created | Updated | Enabled | Disabled | RuleAdded | RuleUpdated | RuleDeleted | Deleted

  /** One side of the recorded change: nothing, the whole flag, or its environments alone. */
  datatype Side = Nothing | WholeFlag(row: Row) | EnvironmentsOnly(environments: Environments)

  datatype AuditRow = AuditRow(flagId: FlagId, action: Action, before: Side, after: Side)

  function EnvironmentsIn(side: Side): Environments {
    match side
    case Nothing => map[]
    case WholeFlag(row) => row.environments
    case EnvironmentsOnly(envs) => envs
  }

  /** The snapshot `_load_all_flags` makes of a row. */
  function SnapshotOf(row: Row): FlagDict {
    FlagDict(Some(row.id), Some(row.key), Some(row.name), Some(row.flagType), Some(row.defaultValue),
             Some(row.environments), Some(row.version))
  }

  // ---------------------------------------------------------------- requests

  /**
   A request of a write endpoint. `id` is the fresh UUID of a new flag. `noticed` says whether the
   ORM detects the change a rule endpoint makes inside a nested dictionary: both cases are allowed.
   */
  datatype Request =
    | CreateFlag(id: FlagId, rawKey: string, name: string, description: Option<string>, flagType: string,
                 defaultValue: Value, environments: Environments)
    | PatchFlag(key: string, newName: Option<string>, newDescription: Option<string>, newDefault: Option<Value>,
                newEnvironments: Option<Environments>)
    | Toggle(key: string, environment: string, on: bool)
    | EditRules(key: string, environment: string, edit: RuleEdit, noticed: bool)
    | DeleteFlag(key: string)

  /** The columns an UPDATE assigns; the version always is. */
  datatype Columns = Columns(
    name: Option<string>, description: Option<string>, defaultValue: Option<Value>,
    environments: Option<Environments>, version: int)

  datatype Write =
    | Insert(row: Row)
    | Update(id: FlagId, key: string, columns: Columns)
    | Remove(id: FlagId, key: string)

  /** What a handler has done when it returns: the pending write, its audit row, and the key and action to publish. */
  datatype Work = Work(key: string, read: Option<Row>, write: Write, entry: AuditRow, action: string)

  function Assign(row: Row, c: Columns): Row {
    row.(name := c.name.GetOr(row.name),
         description := if c.description.Some? then c.description else row.description,
         defaultValue := c.defaultValue.GetOr(row.defaultValue),
         environments := c.environments.GetOr(row.environments),
         version := c.version)
  }

  function NewRow(req: Request, key: string): Row
    requires req.CreateFlag?
  {
    Row(req.id, key, req.name, req.description, req.flagType, req.defaultValue, req.environments, 1)
  }

  function PatchColumns(req: Request, row: Row): Columns
    requires req.PatchFlag?
  {
    // a null default value is no default value
    var given := if req.newDefault == Some(Null) then None else req.newDefault;
    Columns(req.newName, req.newDescription, given, req.newEnvironments, row.version + 1)
  }

  predicate NothingToPatch(req: Request)
    requires req.PatchFlag?
  {
    req.newName.None? && req.newDescription.None? && req.newDefault.GetOr(Null) == Null && req.newEnvironments.None?
  }

  function EnvironmentColumns(envs: Option<Environments>, row: Row): Columns {
    Columns(None, None, None, envs, row.version + 1)
  }

  function EditAction(edit: RuleEdit): Action {
    match edit
    case Append(_) => RuleAdded
    case Replace(_, _) => RuleUpdated
    case Drop(_) => RuleDeleted
  }

  /**
   What rule endpoints record as "before". The copy of the environments is shallow, so an existing
   environment is edited in the copy as well.
   */
  function RecordedBefore(envs: Environments, envs': Environments, name: string): Environments {
    if name in envs then envs' else envs
  }

  function Prepare(h: Host, req: Request, rows: Rows): Result<Work, HttpError> {
    match req
    case CreateFlag(id, rawKey, _, _, _, _, _) =>
      var key := Names.ValidateKey(h, rawKey);
      if key.None? then Err(Invalid422)
      else if key.value in rows then Err(Conflict409)
      else
        var row := NewRow(req, key.value);
        Ok(Work(key.value, None, Insert(row), AuditRow(id, Created, Nothing, WholeFlag(row)), "update"))
    case PatchFlag(key, _, _, _, _) =>
      if NothingToPatch(req) then Err(Invalid422)
      else if key !in rows then Err(NotFound404)
      else
        var row := rows[key];
        var columns := PatchColumns(req, row);
        Ok(Work(row.key, Some(row), Update(row.id, row.key, columns),
                AuditRow(row.id, Updated, WholeFlag(row), WholeFlag(Assign(row, columns))), "update"))
    case Toggle(key, name, on) =>
      if key !in rows then Err(NotFound404)
      else
        var row := rows[key];
        var envs := SetEnabled(row.environments, name, on);
        Ok(Work(row.key, Some(row), Update(row.id, row.key, EnvironmentColumns(Some(envs), row)),
                AuditRow(row.id, if on then Enabled else Disabled,
                         EnvironmentsOnly(row.environments), EnvironmentsOnly(envs)), "update"))
    case EditRules(key, name, edit, noticed) =>
      if key !in rows then Err(NotFound404)
      else
        var row := rows[key];
        var envs := Edited(row.environments, name, edit);
        if envs.Err? then Err(envs.error)
        else
          Ok(Work(row.key, Some(row),
                  Update(row.id, row.key, EnvironmentColumns(if noticed then Some(envs.value) else None, row)),
                  AuditRow(row.id, EditAction(edit),
                           EnvironmentsOnly(RecordedBefore(row.environments, envs.value, name)),
                           EnvironmentsOnly(envs.value)), "update"))
    case DeleteFlag(key) =>
      if key !in rows then Err(NotFound404)
      else
        var row := rows[key];
        Ok(Work(row.key, Some(row), Remove(row.id, row.key),
                AuditRow(row.id, Deleted, WholeFlag(row), Nothing), "delete"))
  }

  /** The table after the write; `None` when a constraint fails or the row is gone. */
  function Applied(rows: Rows, w: Write): Option<Rows> {
    match w
    case Insert(row) => if row.key in rows then None else Some(rows[row.key := row])
    case Update(id, key, columns) =>
      if key in rows && rows[key].id == id then Some(rows[key := Assign(rows[key], columns)]) else None
    case Remove(id, key) =>
      if key in rows && rows[key].id == id then Some(rows - {key}) else None
  }

  function WriteKey(w: Write): string {
    match w
    case Insert(row) => row.key
    case Update(_, key, _) => key
    case Remove(_, key) => key
  }

  function WriteId(w: Write): FlagId {
    match w
    case Insert(row) => row.id
    case Update(id, _, _) => id
    case Remove(id, _) => id
  }

  // ---------------------------------------------------------------- facts about single requests

  /** Rows are stored under their own, non-empty key. */
  ghost predicate WellKeyed(rows: Rows) {
    forall k | k in rows :: rows[k].key == k && k != ""
  }

  /**
   Every accepted request writes one row, under one non-empty key, and records that flag. Nothing
   but a change by another request can make the write fail.
   */
  lemma WorkIsLocal(h: Host, req: Request, rows: Rows)
    requires WellKeyed(rows) && Prepare(h, req, rows).Ok?
    ensures var work := Prepare(h, req, rows).value;
      && work.key != "" && WriteKey(work.write) == work.key && work.entry.flagId == WriteId(work.write)
      && (work.write.Insert? <==> work.read.None?) && (work.write.Insert? <==> work.entry.action == Created)
      && (work.read.Some? ==> work.key in rows && rows[work.key] == work.read.value
                              && work.read.value.id == WriteId(work.write))
      && (work.write.Update? ==> work.write.columns.version == work.read.value.version + 1)
      && (work.write.Insert? ==> work.key !in rows && work.write.row.version == 1)
      && (work.write.Insert? <==> req.CreateFlag?) && (work.write.Remove? <==> req.DeleteFlag?)
      && Applied(rows, work.write).Some?
  {}

  /** A write touches the row under its key and no other. */
  lemma AppliedIsLocal(rows: Rows, w: Write)
    requires WellKeyed(rows) && Applied(rows, w).Some? && WriteKey(w) != ""
    ensures var rows' := Applied(rows, w).value;
      && WellKeyed(rows')
      && forall k | k != WriteKey(w) :: (k in rows <==> k in rows') && (k in rows ==> rows'[k] == rows[k])
  {}

  /** Applied to the row it was computed from, a recorded change is exactly what is stored. */
  lemma FreshWriteMatchesAudit(h: Host, req: Request, rows: Rows)
    requires WellKeyed(rows) && Prepare(h, req, rows).Ok?
    requires !req.EditRules? && !req.DeleteFlag?
    ensures var work := Prepare(h, req, rows).value;
      && Applied(rows, work.write).Some?
      && Applied(rows, work.write).value[work.key].environments == EnvironmentsIn(work.entry.after)
      && (work.read.Some? ==> work.read.value.environments == EnvironmentsIn(work.entry.before))
  {}

  // ---------------------------------------------------------------- what requests store and record

  /** `row'` is `row` with the fields the PATCH gives, a version higher, and otherwise as it was. */
  ghost predicate IsPatched(req: Request, row: Row, row': Row)
    requires req.PatchFlag?
  {
    && row'.name == (if req.newName.Some? then req.newName.value else row.name)
    && row'.description == (if req.newDescription.Some? then req.newDescription else row.description)
    && row'.defaultValue ==
         (if req.newDefault.Some? && req.newDefault.value != Null then req.newDefault.value else row.defaultValue)
    && row'.environments == (if req.newEnvironments.Some? then req.newEnvironments.value else row.environments)
    && row'.version == row.version + 1
    && row'.id == row.id && row'.key == row.key && row'.flagType == row.flagType
  }

  /** `row` is the flag a POST describes, under the accepted key and with version 1. */
  ghost predicate IsCreated(h: Host, req: Request, row: Row)
    requires req.CreateFlag?
  {
    && Names.ValidateKey(h, req.rawKey) == Some(row.key) && row.id == req.id && row.version == 1
    && row.name == req.name && row.description == req.description && row.flagType == req.flagType
    && row.defaultValue == req.defaultValue && row.environments == req.environments
  }

  /** `row'` is `row` with other environments and a version higher. */
  ghost predicate OnlyEnvironmentsDiffer(row: Row, row': Row) {
    && row'.version == row.version + 1
    && row'.id == row.id && row'.key == row.key && row'.flagType == row.flagType
    && row'.name == row.name && row'.description == row.description && row'.defaultValue == row.defaultValue
  }

  /** What each accepted request stores, field by field. */
  lemma RequestStores(h: Host, req: Request, rows: Rows)
    requires WellKeyed(rows) && Prepare(h, req, rows).Ok?
    ensures Applied(rows, Prepare(h, req, rows).value.write).Some?
    ensures var rows' := Applied(rows, Prepare(h, req, rows).value.write).value;
      match req
      case CreateFlag(_, rawKey, _, _, _, _, _) =>
        var key := Names.ValidateKey(h, rawKey);
        key.Some? && key.value !in rows && key.value in rows' && IsCreated(h, req, rows'[key.value])
      case PatchFlag(key, _, _, _, _) =>
        key in rows && key in rows' && IsPatched(req, rows[key], rows'[key])
      case Toggle(key, name, on) =>
        && key in rows && key in rows' && OnlyEnvironmentsDiffer(rows[key], rows'[key])
        && rows'[key].environments == SetEnabled(rows[key].environments, name, on)
      case EditRules(key, name, edit, noticed) =>
        && key in rows && key in rows' && OnlyEnvironmentsDiffer(rows[key], rows'[key])
        && var edited := Edited(rows[key].environments, name, edit);
        && edited.Ok? && rows'[key].environments == if noticed then edited.value else rows[key].environments
      case DeleteFlag(key) => key in rows && key !in rows'
  {
    if req.CreateFlag? { Names.AcceptedKey(h, req.rawKey); }
  }

  /** What each accepted request records: the flag, the action, and both sides of the change. */
  lemma RequestRecords(h: Host, req: Request, rows: Rows)
    requires WellKeyed(rows) && Prepare(h, req, rows).Ok?
    ensures Applied(rows, Prepare(h, req, rows).value.write).Some?
    ensures var work := Prepare(h, req, rows).value;
      var rows' := Applied(rows, work.write).value;
      match req
      case CreateFlag(_, _, _, _, _, _, _) =>
        work.key in rows' && work.entry == AuditRow(req.id, Created, Nothing, WholeFlag(rows'[work.key]))
      case PatchFlag(key, _, _, _, _) =>
        && key in rows && key in rows'
        && work.entry == AuditRow(rows[key].id, Updated, WholeFlag(rows[key]), WholeFlag(rows'[key]))
      case Toggle(key, name, on) =>
        && key in rows && key in rows'
        && work.entry == AuditRow(rows[key].id, if on then Enabled else Disabled,
                                  EnvironmentsOnly(rows[key].environments), EnvironmentsOnly(rows'[key].environments))
      case EditRules(key, name, edit, _) =>
        && key in rows && Edited(rows[key].environments, name, edit).Ok?
        && var after := Edited(rows[key].environments, name, edit).value;
        && work.entry.flagId == rows[key].id && work.entry.after == EnvironmentsOnly(after)
        && work.entry.before
             == EnvironmentsOnly(if name in rows[key].environments then after else rows[key].environments)
        && (work.entry.action == RuleAdded <==> edit.Append?) && (work.entry.action == RuleUpdated <==> edit.Replace?)
        && (work.entry.action == RuleDeleted <==> edit.Drop?)
      case DeleteFlag(key) =>
        key in rows && work.entry == AuditRow(rows[key].id, Deleted, WholeFlag(rows[key]), Nothing)
  {
    RequestStores(h, req, rows);
  }

  /** Which requests are refused, and how. */
  lemma Refusals(h: Host, req: Request, rows: Rows)
    ensures var refused := Prepare(h, req, rows);
      match req
      case CreateFlag(_, rawKey, _, _, _, _, _) =>
        && (refused == Err(Invalid422) <==> Names.ValidateKey(h, rawKey).None?)
        && (refused == Err(Conflict409) <==>
              Names.ValidateKey(h, rawKey).Some? && Names.ValidateKey(h, rawKey).value in rows)
        && (refused.Err? ==> refused.error == Invalid422 || refused.error == Conflict409)
      case PatchFlag(key, newName, newDescription, newDefault, newEnvironments) =>
        var nothing := newName.None? && newDescription.None? && (newDefault.None? || newDefault.value == Null)
                       && newEnvironments.None?;
        && (refused == Err(Invalid422) <==> nothing)
        && (refused == Err(NotFound404) <==> !nothing && key !in rows)
        && (refused.Err? ==> refused.error == Invalid422 || refused.error == NotFound404)
      case Toggle(key, _, _) => (refused.Err? <==> key !in rows) && (refused.Err? ==> refused.error == NotFound404)
      case EditRules(key, name, edit, _) =>
        && (refused.Err? <==> key !in rows || Edited(rows[key].environments, name, edit).Err?)
        && (refused.Err? ==> refused.error == NotFound404)
      case DeleteFlag(key) => (refused.Err? <==> key !in rows) && (refused.Err? ==> refused.error == NotFound404)
  {}

  /** A write fails when the key is taken, or when the row it is meant for is gone. */
  lemma AppliedOnlyWhen(rows: Rows, w: Write)
    ensures Applied(rows, w).Some? <==>
      match w
      case Insert(row) => row.key !in rows
      case Update(id, key, _) => key in rows && rows[key].id == id
      case Remove(id, key) => key in rows && rows[key].id == id
  {}

  // ---------------------------------------------------------------- the objects the handlers work on

  class Database {
    var rows: Rows
    var audit: seq<AuditRow>

    constructor ()
      ensures rows == map[] && audit == []
    {
      rows, audit := map[], [];
    }
  }

  /** A flag as loaded into a session: the handlers assign its attributes. */
  class Flag {
    const id: FlagId
    const key: string
    const flagType: string
    var name: string
    var description: Option<string>
    var defaultValue: Value
    var environments: Environments
    var version: int

    constructor (row: Row)
      ensures ToRow() == row
    {
      id, key, flagType := row.id, row.key, row.flagType;
      name, description, defaultValue := row.name, row.description, row.defaultValue;
      environments, version := row.environments, row.version;
    }

    function ToRow(): Row
      reads this
    {
      Row(id, key, name, description, flagType, defaultValue, environments, version)
    }
  }

  /** A unit of work: what it will write and the audit rows added to it. */
  class Session {
    const db: Database
    var pending: Option<Write>
    var added: seq<AuditRow>

    constructor (db: Database)
      ensures this.db == db && IsEmpty()
    {
      this.db := db;
      pending, added := None, [];
    }

    ghost predicate IsEmpty()
      reads this
    {
      pending.None? && added == []
    }

    /** The session holds exactly what the request calls for, or nothing when it is refused. */
    ghost predicate Holds(h: Host, req: Request)
      reads this, db
    {
      match Prepare(h, req, db.rows)
      case Ok(work) => pending == Some(work.write) && added == [work.entry]
      case Err(_) => IsEmpty()
    }

    /**
     The end of `get_session`: commit when the handler returned, roll back when it or the database
     failed. Row and audit log change together or not at all.
     */
    method Finish(handlerFailed: bool) returns (committed: bool)
      requires pending.Some?
      modifies this, db
      ensures committed <==> !handlerFailed && old(Applied(db.rows, pending.value)).Some?
      ensures committed ==> db.rows == old(Applied(db.rows, pending.value)).value
      ensures committed ==> db.audit == old(db.audit) + old(added)
      ensures !committed ==> db.rows == old(db.rows) && db.audit == old(db.audit)
      ensures IsEmpty()
    {
      var after := Applied(db.rows, pending.value);
      committed := !handlerFailed && after.Some?;
      if committed {
        db.rows := after.value;
        db.audit := db.audit + added;
      }
      pending, added := None, [];
    }
  }

  /** `create_flag`. */
  method HandleCreate(h: Host, session: Session, req: Request) returns (res: Result<Row, HttpError>)
    requires session.IsEmpty() && req.CreateFlag?
    modifies session
    ensures session.Holds(h, req)
    ensures res.Ok? <==> Prepare(h, req, session.db.rows).Ok?
    ensures res.Err? ==> res.error == Prepare(h, req, session.db.rows).error
    ensures res.Ok? ==> IsCreated(h, req, res.value) && res.value.key !in session.db.rows
  {
    var key := Names.ValidateKey(h, req.rawKey);
    if key.None? {
      return Err(Invalid422);
    }
    if key.value in session.db.rows {
      return Err(Conflict409);
    }
    var flag := new Flag(Row(req.id, key.value, req.name, req.description, req.flagType, req.defaultValue,
                             req.environments, 1));
    session.pending := Some(Insert(flag.ToRow()));
    session.added := session.added + [AuditRow(flag.id, Created, Nothing, WholeFlag(flag.ToRow()))];
    res := Ok(flag.ToRow());
  }

  /** The assignments of `update_flag`. */
  method AssignGivenFields(flag: Flag, req: Request)
    requires req.PatchFlag?
    modifies flag
    ensures flag.ToRow() == Assign(old(flag.ToRow()), PatchColumns(req, old(flag.ToRow())))
    ensures IsPatched(req, old(flag.ToRow()), flag.ToRow())
  {
    if req.newName.Some? {
      flag.name := req.newName.value;
    }
    if req.newDescription.Some? {
      flag.description := req.newDescription;
    }
    if req.newDefault.Some? && req.newDefault.value != Null {
      flag.defaultValue := req.newDefault.value;
    }
    if req.newEnvironments.Some? {
      flag.environments := req.newEnvironments.value;
    }
    flag.version := flag.version + 1;
  }

  /** `update_flag`: each field that is given is assigned, and the version grows by one. */
  method HandlePatch(h: Host, session: Session, req: Request) returns (res: Result<Row, HttpError>)
    requires session.IsEmpty() && req.PatchFlag?
    modifies session
    ensures session.Holds(h, req)
    ensures res.Ok? <==> Prepare(h, req, session.db.rows).Ok?
    ensures res.Err? ==> res.error == Prepare(h, req, session.db.rows).error
    ensures res.Ok? ==> IsPatched(req, session.db.rows[req.key], res.value)
  {
    if NothingToPatch(req) {
      return Err(Invalid422);
    }
    if req.key !in session.db.rows {
      return Err(NotFound404);
    }
    var flag := new Flag(session.db.rows[req.key]);
    var before := flag.ToRow();
    AssignGivenFields(flag, req);
    session.added := session.added + [AuditRow(flag.id, Updated, WholeFlag(before), WholeFlag(flag.ToRow()))];
    session.pending := Some(Update(flag.id, flag.key, PatchColumns(req, before)));
    res := Ok(flag.ToRow());
  }

  /** `enable_flag_in_environment` and `disable_flag_in_environment`. */
  method HandleToggle(h: Host, session: Session, req: Request) returns (res: Result<Row, HttpError>)
    requires session.IsEmpty() && req.Toggle?
    modifies session
    ensures session.Holds(h, req)
    ensures res.Ok? <==> req.key in session.db.rows
    ensures res.Err? ==> res.error == NotFound404
    ensures res.Ok? ==> var row := session.db.rows[req.key];
      && OnlyEnvironmentsDiffer(row, res.value)
      && res.value.environments == SetEnabled(row.environments, req.environment, req.on)
  {
    if req.key !in session.db.rows {
      return Err(NotFound404);
    }
    var flag := new Flag(session.db.rows[req.key]);
    var before := flag.ToRow();
    var envs := flag.environments;
    if req.environment !in envs {
      envs := envs[req.environment := NEW_ENVIRONMENT];
    }
    envs := envs[req.environment := envs[req.environment].(enabled := Some(req.on))];
    assert envs == SetEnabled(before.environments, req.environment, req.on);
    flag.environments := envs;
    flag.version := flag.version + 1;
    session.added := session.added
      + [AuditRow(flag.id, if req.on then Enabled else Disabled,
                  EnvironmentsOnly(before.environments), EnvironmentsOnly(envs))];
    session.pending := Some(Update(flag.id, flag.key, EnvironmentColumns(Some(envs), before)));
    res := Ok(flag.ToRow());
  }

  /** `delete_flag`: the row is only removed when the session commits. */
  method HandleDelete(h: Host, session: Session, req: Request) returns (res: Result<Row, HttpError>)
    requires session.IsEmpty() && req.DeleteFlag?
    modifies session
    ensures session.Holds(h, req)
    ensures res == if req.key in session.db.rows then Ok(session.db.rows[req.key]) else Err(NotFound404)
  {
    if req.key !in session.db.rows {
      return Err(NotFound404);
    }
    var flag := new Flag(session.db.rows[req.key]);
    session.added := session.added + [AuditRow(flag.id, Deleted, WholeFlag(flag.ToRow()), Nothing)];
    session.pending := Some(Remove(flag.id, flag.key));
    res := Ok(flag.ToRow());
  }
}
