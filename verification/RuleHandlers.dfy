/**
 The rule endpoints on the nested dictionaries they really work on: the copy of the environments is
 shallow, so the environment that is edited is shared by the flag, the "before" and the "after".
 */
module RuleHandlers {
  import opened Values
  import opened Evaluation
  import opened RuleEdits
  import opened Writes

  class EnvironmentObject {
    var dict: EnvDict

    constructor (dict: EnvDict)
      ensures this.dict == dict
    {
      this.dict := dict;
    }
  }

  type EnvironmentObjects = map<string, EnvironmentObject>

  /** The JSON value of the nested dictionaries. */
  function Contents(envs: EnvironmentObjects): Environments
    reads set k | k in envs :: envs[k]
  {
    map k | k in envs :: envs[k].dict
  }

  /** Decoded JSON never shares a dictionary between two keys. */
  ghost predicate Unshared(envs: EnvironmentObjects) {
    forall k, k' | k in envs && k' in envs && k != k' :: envs[k] != envs[k']
  }

  /** Loading a flag decodes its JSON column into dictionaries of its own. */
  method Decode(envs: Environments) returns (objects: EnvironmentObjects)
    ensures Unshared(objects) && Contents(objects) == envs
    ensures forall k | k in objects :: fresh(objects[k])
  {
    objects := map[];
    var left := envs.Keys;
    while left != {}
      invariant left + objects.Keys == envs.Keys && left !! objects.Keys
      invariant Unshared(objects)
      invariant forall k | k in objects :: fresh(objects[k]) && objects[k].dict == envs[k]
    {
      var k :| k in left;
      var fetched := new EnvironmentObject(envs[k]);
      objects := objects[k := fetched];
      left := left - {k};
    }
  }

  /**
   `add_rule`, `update_rule` and `delete_rule` up to the assignment `flag.environments = envs`.
   The new value is the intended one; the recorded "before" already shows the edit when the
   environment existed, and so does the flag's previous value, with which the ORM compares.
   */
  method EditInPlace(environments: EnvironmentObjects, name: string, edit: RuleEdit)
    returns (res: Result<(EnvironmentObjects, EnvironmentObjects), HttpError>)
    requires Unshared(environments)
    modifies set k | k in environments && k == name :: environments[k]
    ensures var was := old(Contents(environments));
      && (res.Ok? <==> Edited(was, name, edit).Ok?)
      && (res.Err? ==> res.error == Edited(was, name, edit).error && Contents(environments) == was)
      && (res.Ok? ==>
            var (before, envs) := res.value;
            && Contents(envs) == Edited(was, name, edit).value
            && Contents(before) == RecordedBefore(was, Contents(envs), name)
            && Contents(environments) == Contents(before))
  {
    var before := environments;
    var envs := environments;
    if name !in envs {
      if !edit.Append? {
        return Err(NotFound404);
      }
      var created := new EnvironmentObject(NEW_ENVIRONMENT);
      envs := envs[name := created];
    }
    var rules := EditedRules(envs[name].dict.rules.GetOr([]), edit);
    if rules.Err? {
      return Err(rules.error);
    }
    envs[name].dict := envs[name].dict.(rules := Some(rules.value));
    return Ok((before, envs));
  }

  /** The edit on freshly loaded dictionaries: the recorded "before" and the new value, as JSON. */
  method EditLoaded(environments: Environments, name: string, edit: RuleEdit)
    returns (res: Result<(Environments, Environments), HttpError>)
    ensures res == match Edited(environments, name, edit)
      case Ok(envs) => Ok((RecordedBefore(environments, envs, name), envs))
      case Err(e) => Err(e)
  {
    var objects := Decode(environments);
    var edited := EditInPlace(objects, name, edit);
    if edited.Err? {
      return Err(edited.error);
    }
    return Ok((Contents(edited.value.0), Contents(edited.value.1)));
  }

  /**
   `add_rule`, `update_rule` and `delete_rule` as a whole. The audit row is built from the shared
   dictionaries after the edit, and one is added for every accepted request.
   */
  method HandleRules(h: Host, session: Session, req: Request) returns (res: Result<Row, HttpError>)
    requires session.IsEmpty() && req.EditRules?
    modifies session
    ensures session.Holds(h, req)
    ensures res.Ok? <==> Prepare(h, req, session.db.rows).Ok?
    ensures res.Err? ==> res.error == Prepare(h, req, session.db.rows).error
    ensures res.Ok? ==> var row := session.db.rows[req.key];
      && res.value.environments == Edited(row.environments, req.environment, req.edit).value
      && res.value == row.(environments := res.value.environments, version := row.version + 1)
  {
    if req.key !in session.db.rows {
      return Err(NotFound404);
    }
    var flag := new Flag(session.db.rows[req.key]);
    var row := flag.ToRow();
    var edited := EditLoaded(flag.environments, req.environment, req.edit);
    if edited.Err? {
      return Err(edited.error);
    }
    var (before, envs) := edited.value;
    flag.environments := envs;
    flag.version := flag.version + 1;
    session.added := session.added
      + [AuditRow(flag.id, EditAction(req.edit), EnvironmentsOnly(before), EnvironmentsOnly(envs))];
    session.pending := Some(
      Update(flag.id, flag.key, EnvironmentColumns(if req.noticed then Some(envs) else None, row)));
    res := Ok(flag.ToRow());
  }
}
