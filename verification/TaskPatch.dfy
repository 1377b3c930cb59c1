/** incident-svc PATCH /incidents/:id/tasks/:taskId: the UPDATE builder. */
module TaskPatch {
  import opened Common
  import opened Sql

  /** A parsed body; the schema admits only these four fields, and `status` is one of four non-empty words. */
  datatype Patch = Patch(
    status: Option<string>, title: Option<string>, description: Option<string>, assigneeUpn: Option<string>)

  const STATUSES := {"open", "in_progress", "done", "cancelled"}

  predicate Parsed(p: Patch) {
    p.status.Some? ==> p.status.value in STATUSES
  }

  /** A text field that is present and not empty. */
  predicate Truthy(s: Option<string>) {
    s.Some? && s.value != ""
  }

  /** No field of the patch is admitted: an empty title or description is skipped, an empty assignee is not. */
  predicate Nothing(p: Patch) {
    p.status.None? && !Truthy(p.title) && !Truthy(p.description) && p.assigneeUpn.None?
  }

  predicate IsTask(row: Row, incidentId: int, taskId: string) {
    && "incident_id" in row && row["incident_id"] == Num(incidentId)
    && "task_id" in row && row["task_id"] == Text(taskId)
  }

  /** The record update a patch stands for. */
  function Patched(row: Row, p: Patch, incidentId: int, taskId: string, now: int): Row {
    if !IsTask(row, incidentId, taskId) then row
    else
      var row := Put(row, "status", TextIfGiven(p.status));
      var row := Put(row, "title", TextIfTruthy(p.title));
      var row := Put(row, "description", TextIfTruthy(p.description));
      var row := Put(row, "assignee_upn", TextIfGiven(p.assigneeUpn));
      row["updated_at" := Num(now)]
  }

  function Fields(p: Patch): seq<(string, Value)> {
    Maybe("status", TextIfGiven(p.status)) + Maybe("title", TextIfTruthy(p.title))
    + Maybe("description", TextIfTruthy(p.description)) + Maybe("assignee_upn", TextIfGiven(p.assigneeUpn))
  }

  /** The field-setting part of the statement, before `updated_at` and the WHERE clause. */
  method PushFields(p: Patch) returns (fields: seq<Bind>, params: seq<Value>)
    requires Parsed(p)
    ensures Pushed(fields, params, Fields(p))
    ensures fields == [] <==> Nothing(p)
  {
    fields, params := [], [];
    if p.status.Some? {
      fields := fields + [Bind("status", |params| + 1)];
      params := params + [Text(p.status.value)];
    }
    ghost var fs := Maybe("status", TextIfGiven(p.status));
    PushMaybe(fields, params, fs, "title", TextIfTruthy(p.title));
    if Truthy(p.title) {
      fields := fields + [Bind("title", |params| + 1)];
      params := params + [Text(p.title.value)];
    }
    fs := fs + Maybe("title", TextIfTruthy(p.title));
    PushMaybe(fields, params, fs, "description", TextIfTruthy(p.description));
    if Truthy(p.description) {
      fields := fields + [Bind("description", |params| + 1)];
      params := params + [Text(p.description.value)];
    }
    fs := fs + Maybe("description", TextIfTruthy(p.description));
    PushMaybe(fields, params, fs, "assignee_upn", TextIfGiven(p.assigneeUpn));
    if p.assigneeUpn.Some? {
      fields := fields + [Bind("assignee_upn", |params| + 1)];
      params := params + [Text(p.assigneeUpn.value)];
    }
  }

  /** Column by column what a patch does to the one row it is for, and that it touches no other row or column. */
  lemma PatchedMeans(row: Row, p: Patch, incidentId: int, taskId: string, now: int)
    ensures var row' := Patched(row, p, incidentId, taskId, now);
      if "incident_id" in row && row["incident_id"] == Num(incidentId)
         && "task_id" in row && row["task_id"] == Text(taskId)
      then
        && Sets(row, row', "status", p.status, p.status.Some?)
        && Sets(row, row', "title", p.title, p.title.Some? && p.title.value != "")
        && Sets(row, row', "description", p.description, p.description.Some? && p.description.value != "")
        && Sets(row, row', "assignee_upn", p.assigneeUpn, p.assigneeUpn.Some?)
        && "updated_at" in row' && row'["updated_at"] == Num(now)
        && forall col :: col !in {"status", "title", "description", "assignee_upn", "updated_at"} ==>
             SameColumn(row, row', col)
      else row' == row
  {
  }

  predicate SameColumn(row: Row, row': Row, col: string) {
    (col in row <==> col in row') && (col in row ==> row[col] == row'[col])
  }

  /** The column has the given text if it is to be set, and is as before otherwise. */
  predicate Sets(row: Row, row': Row, col: string, text: Option<string>, given: bool) {
    if given then col in row' && text.Some? && row'[col] == Text(text.value) else SameColumn(row, row', col)
  }

  lemma OverwriteIsPatched(row: Row, p: Patch, incidentId: int, taskId: string, now: int)
    requires IsTask(row, incidentId, taskId)
    ensures Overwrite(row, Fields(p) + Maybe("updated_at", Some(Num(now)))) == Patched(row, p, incidentId, taskId, now)
  {
    var fs := Maybe("status", TextIfGiven(p.status));
    OverwriteMaybe(row, [], "status", TextIfGiven(p.status));
    assert [] + fs == fs;
    OverwriteMaybe(row, fs, "title", TextIfTruthy(p.title));
    fs := fs + Maybe("title", TextIfTruthy(p.title));
    OverwriteMaybe(row, fs, "description", TextIfTruthy(p.description));
    fs := fs + Maybe("description", TextIfTruthy(p.description));
    OverwriteMaybe(row, fs, "assignee_upn", TextIfGiven(p.assigneeUpn));
    OverwriteMaybe(row, Fields(p), "updated_at", Some(Num(now)));
  }

  lemma KeyedIsTask(row: Row, incidentId: int, taskId: string)
    ensures Keyed(row, [("incident_id", Num(incidentId)), ("task_id", Text(taskId))])
      <==> IsTask(row, incidentId, taskId)
  {
    var keys := [("incident_id", Num(incidentId)), ("task_id", Text(taskId))];
    if Keyed(row, keys) {
      assert keys[0].0 in row && keys[1].0 in row;
    }
  }

  /**
   For every patch: no statement when nothing is admitted; otherwise the placeholders are exactly 1..n, each bound to
   its own parameter, and on any row the statement does what `Patched` says.
   */
  method BuildPatch(p: Patch, incidentId: int, taskId: string, now: int) returns (u: Option<Update>, params: seq<Value>)
    requires Parsed(p)
    ensures u.None? <==> Nothing(p)
    ensures u.Some? ==> Numbered(u.value, params)
    ensures u.Some? ==> forall row: Row :: ExecRow(u.value, params, row) == Patched(row, p, incidentId, taskId, now)
  {
    var fields;
    fields, params := PushFields(p);
    if fields == [] {
      return None, [];
    }
    PushMaybe(fields, params, Fields(p), "updated_at", Some(Num(now)));
    fields := fields + [Bind("updated_at", |params| + 1)];
    params := params + [Num(now)];
    ghost var all := Fields(p) + Maybe("updated_at", Some(Num(now)));
    ghost var keys := [("incident_id", Num(incidentId)), ("task_id", Text(taskId))];
    PushedIsBuilt(fields, params, all, keys[0], keys[1]);
    params := params + [Num(incidentId)];
    params := params + [Text(taskId)];
    var where := [Bind("incident_id", |params| - 1), Bind("task_id", |params|)];
    u := Some(Update(fields, where));
    assert params == params[..|params| - 2] + [Num(incidentId), Text(taskId)];
    forall row: Row
      ensures Numbered(u.value, params)
      ensures ExecRow(u.value, params, row) == Patched(row, p, incidentId, taskId, now)
    {
      BuiltMeans(u.value, params, all, keys, row);
      KeyedIsTask(row, incidentId, taskId);
      if IsTask(row, incidentId, taskId) {
        OverwriteIsPatched(row, p, incidentId, taskId, now);
      }
    }
  }
}
