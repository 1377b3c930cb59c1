/**
 incident-svc command-post scheduling: create, update and delete over a table
 of half-open shifts, with policy checks and an overlap test. Each call runs
 alone on the table.
 */
module Schedule {
  import opened Common
  import opened Sql

  /** A date string: empty, unparsable, or an instant in milliseconds. An absent date parses like an unparsable one. */
  datatype Stamp = Blank | Malformed | At(ms: int)

  datatype ShiftInput = ShiftInput(user: string, role: string, start: Stamp, end: Stamp, notes: Option<string>)

  datatype Patch = Patch(
    user: Option<string>, role: Option<string>, start: Option<Stamp>, end: Option<Stamp>, notes: Option<string>)

  datatype Shift = Shift(
    op: string, user: string, role: string, start: int, end: int, notes: Option<string>, createdBy: string)

  type Table = map<string, Shift>
  type Roster = set<(string, string, string)>

  /** The environment settings SHIFT_MAX_HOURS, ALLOW_OVERSIZE_SHIFTS and SCHEDULE_HORIZON_DAYS. */
  datatype Policy = Policy(maxHours: real, allowOversize: bool, horizonDays: real)

  /** The clock is read once for each end of the shift. */
  datatype Env = Env(policy: Policy, now1: int, now2: int, roster: Roster)

  datatype Code = InvalidTime | OutOfHorizon | DurationExceedsMax | NotInRoster

  datatype Outcome = Absent | Refuse(code: Code) | Clash | Write

  datatype Reply = Stored(id: string) | Refused(why: Code) | Overlap(conflicting: string) | NotFound | DuplicateKey

  /** The values that are checked: the input itself, or the stored row with the patch spread over it. */
  datatype Candidate = Candidate(user: Option<string>, role: string, start: Stamp, end: Stamp, notes: Option<string>)

  function Within(policy: Policy, t: int, now: int): bool {
    (if t < now then now - t else t - now) as real <= policy.horizonDays * 86400000.0
  }

  function TooLong(policy: Policy, start: int, end: int): bool {
    (end - start) as real / 3600000.0 > policy.maxHours && !policy.allowOversize
  }

  function Check(env: Env, op: string, c: Candidate): Option<Code> {
    if !(c.start.At? && c.end.At? && c.start.ms < c.end.ms) then Some(InvalidTime)
    else if !Within(env.policy, c.start.ms, env.now1) || !Within(env.policy, c.end.ms, env.now2) then Some(OutOfHorizon)
    else if TooLong(env.policy, c.start.ms, c.end.ms) then Some(DurationExceedsMax)
    else if c.user.None? || (op, c.user.value, c.role) !in env.roster then Some(NotInRoster)
    else None
  }

  predicate SameKey(s: Shift, op: string, user: string, role: string) {
    s.op == op && s.user == user && s.role == role
  }

  /** Within so many days of the clock, in milliseconds. */
  predicate Near(days: real, t: int, now: int) {
    -days * 24.0 * 3600.0 * 1000.0 <= (t - now) as real <= days * 24.0 * 3600.0 * 1000.0
  }

  /** The dates are instants in order, and both within the horizon. */
  predicate Placed(env: Env, c: Candidate) {
    && c.start.At? && c.end.At? && c.start.ms < c.end.ms
    && Near(env.policy.horizonDays, c.start.ms, env.now1) && Near(env.policy.horizonDays, c.end.ms, env.now2)
  }

  /** Exactly when each check refuses, in the order of the checks. */
  lemma CheckExactly(env: Env, op: string, c: Candidate)
    ensures Check(env, op, c) == Some(InvalidTime) <==> !(c.start.At? && c.end.At? && c.start.ms < c.end.ms)
    ensures Check(env, op, c) == Some(OutOfHorizon) <==>
      c.start.At? && c.end.At? && c.start.ms < c.end.ms && !Placed(env, c)
    ensures Check(env, op, c) == Some(DurationExceedsMax) <==>
      && Placed(env, c) && !env.policy.allowOversize
      && (c.end.ms - c.start.ms) as real > env.policy.maxHours * 3600000.0
    ensures Check(env, op, c) == Some(NotInRoster) <==>
      && Placed(env, c)
      && (env.policy.allowOversize || (c.end.ms - c.start.ms) as real <= env.policy.maxHours * 3600000.0)
      && (c.user.None? || (op, c.user.value, c.role) !in env.roster)
  {
    if c.start.At? && c.end.At? {
      NearIsWithin(env.policy, c.start.ms, env.now1);
      NearIsWithin(env.policy, c.end.ms, env.now2);
    }
  }

  lemma NearIsWithin(policy: Policy, t: int, now: int)
    ensures Within(policy, t, now) <==> Near(policy.horizonDays, t, now)
  {
    assert (now - t) as real == -((t - now) as real);
  }

  /** The overlap query; an update leaves its own row out. */
  function Clashes(t: Table, op: string, user: string, role: string, start: int, end: int, except: Option<string>)
    : set<string>
  {
    set id | id in t && SameKey(t[id], op, user, role) && Some(id) != except && t[id].start < end && t[id].end > start
  }

  function Decide(env: Env, t: Table, op: string, c: Candidate, except: Option<string>): Outcome {
    var bad := Check(env, op, c);
    if bad.Some? then Refuse(bad.value)
    else if Clashes(t, op, c.user.value, c.role, c.start.ms, c.end.ms, except) != {} then Clash
    else Write
  }

  function InputCandidate(i: ShiftInput): Candidate {
    Candidate(Some(i.user), i.role, i.start, i.end, i.notes)
  }

  function NewShift(op: string, i: ShiftInput, createdBy: string): Shift
    requires i.start.At? && i.end.At?
  {
    Shift(op, i.user, i.role, i.start.ms, i.end.ms, i.notes, createdBy)
  }

  function CreateNext(env: Env, t: Table, op: string, i: ShiftInput, createdBy: string, id: string): Table {
    if Decide(env, t, op, InputCandidate(i), None) == Write && id !in t then t[id := NewShift(op, i, createdBy)] else t
  }

  // ---------------------------------------------------------------------
  // The stored row with the patch spread over it
  // ---------------------------------------------------------------------

  function TextOrNull(s: Option<string>): Value {
    if s.Some? then Text(s.value) else Null
  }

  /** A row of the database. */
  function RowOf(id: string, s: Shift): Row {
    map["shift_id" := Text(id), "operation_id" := Text(s.op), "user_upn" := Text(s.user), "role" := Text(s.role),
        "starts_at" := Num(s.start), "ends_at" := Num(s.end), "notes" := TextOrNull(s.notes),
        "created_by" := Text(s.createdBy)]
  }

  /** The same row under the keys that `camel` gives it. */
  function CamelRowOf(id: string, s: Shift): Row {
    map["shiftId" := Text(id), "operationId" := Text(s.op), "userUpn" := Text(s.user), "role" := Text(s.role),
        "startsAt" := Num(s.start), "endsAt" := Num(s.end), "notes" := TextOrNull(s.notes),
        "createdBy" := Text(s.createdBy)]
  }

  /** A date string as a property: an instant, or a text that is empty or not a date. */
  function StampIfGiven(s: Option<Stamp>): Option<Value> {
    if s.None? then None
    else match s.value
      case At(ms) => Some(Num(ms))
      case Blank => Some(Text(""))
      case Malformed => Some(Text("?"))
  }

  /** The properties of a patch. */
  function Properties(p: Patch): seq<(string, Value)> {
    Maybe("userUpn", TextIfGiven(p.user)) + Maybe("role", TextIfGiven(p.role))
    + Maybe("startsAt", StampIfGiven(p.start)) + Maybe("endsAt", StampIfGiven(p.end))
    + Maybe("notes", TextIfGiven(p.notes))
  }

  /** `None` is undefined. */
  function Property(o: Row, key: string): Option<Value> {
    if key in o then Some(o[key]) else None
  }

  function AsText(v: Option<Value>): Option<string> {
    if v.Some? && v.value.Text? then Some(v.value.s) else None
  }

  /** `new Date` of a property: of undefined it is invalid, of null it is the epoch. */
  function AsDate(v: Option<Value>): Stamp {
    if v.None? then Malformed
    else match v.value
      case Num(ms) => At(ms)
      case Null => At(0)
      case Text(t) => if t == "" then Blank else Malformed
  }

  /**
   The row that `updateShift` spreads the patch over: the code takes it as the database returns it, `Camel` is the form
   in which the patch is written and the merged object is read.
   */
  datatype RowForm = Raw | Camel

  function Existing(form: RowForm, id: string, s: Shift): Row {
    if form == Raw then RowOf(id, s) else CamelRowOf(id, s)
  }

  function Or<T>(o: Option<T>, default: T): T {
    if o.Some? then o.value else default
  }

  function ReadCandidate(next: Row): Candidate {
    Candidate(
      AsText(Property(next, "userUpn")), Or(AsText(Property(next, "role")), ""),
      AsDate(Property(next, "startsAt")), AsDate(Property(next, "endsAt")), AsText(Property(next, "notes")))
  }

  /** The object spread `{ ...existing, ...patch }`, and what is read from it. */
  function Merge(form: RowForm, id: string, s: Shift, p: Patch): Candidate {
    ReadCandidate(Overwrite(Existing(form, id, s), Properties(p)))
  }

  lemma SpreadOne(o: Row, fields: seq<(string, Value)>, key: string, v: Option<Value>, read: string)
    ensures Property(Overwrite(o, fields + Maybe(key, v)), read) ==
      if read == key && v.Some? then v else Property(Overwrite(o, fields), read)
  {
    OverwriteMaybe(o, fields, key, v);
  }

  /** A property of the merged object is the patch's if it has one under that key, otherwise the row's. */
  lemma SpreadReads(o: Row, p: Patch, read: string)
    ensures Property(Overwrite(o, Properties(p)), read) ==
      if read == "notes" && p.notes.Some? then TextIfGiven(p.notes)
      else if read == "endsAt" && p.end.Some? then StampIfGiven(p.end)
      else if read == "startsAt" && p.start.Some? then StampIfGiven(p.start)
      else if read == "role" && p.role.Some? then TextIfGiven(p.role)
      else if read == "userUpn" && p.user.Some? then TextIfGiven(p.user)
      else Property(o, read)
  {
    var fs := [];
    SpreadOne(o, fs, "userUpn", TextIfGiven(p.user), read);
    fs := fs + Maybe("userUpn", TextIfGiven(p.user));
    SpreadOne(o, fs, "role", TextIfGiven(p.role), read);
    fs := fs + Maybe("role", TextIfGiven(p.role));
    SpreadOne(o, fs, "startsAt", StampIfGiven(p.start), read);
    fs := fs + Maybe("startsAt", StampIfGiven(p.start));
    SpreadOne(o, fs, "endsAt", StampIfGiven(p.end), read);
    fs := fs + Maybe("endsAt", StampIfGiven(p.end));
    SpreadOne(o, fs, "notes", TextIfGiven(p.notes), read);
    assert fs + Maybe("notes", TextIfGiven(p.notes)) == Properties(p);
  }

  /** Which of the keys that are read the two forms of a row have. */
  lemma RowReads(id: string, s: Shift)
    ensures var o := RowOf(id, s);
      Property(o, "userUpn") == Property(o, "startsAt") == Property(o, "endsAt") == None
      && Property(o, "role") == Some(Text(s.role)) && Property(o, "notes") == Some(TextOrNull(s.notes))
    ensures var o := CamelRowOf(id, s);
      Property(o, "userUpn") == Some(Text(s.user)) && Property(o, "startsAt") == Some(Num(s.start))
      && Property(o, "endsAt") == Some(Num(s.end))
      && Property(o, "role") == Some(Text(s.role)) && Property(o, "notes") == Some(TextOrNull(s.notes))
  {
  }

  /**
   What the merge reads, key by key: `role` and `notes` are called the same in both forms; the user and the dates of the
   raw row are under other keys than those that are read, so there they are undefined unless patched.
   */
  lemma MergeReads(form: RowForm, id: string, s: Shift, p: Patch)
    ensures Merge(form, id, s, p) == Candidate(
      if form == Raw then p.user else Some(Or(p.user, s.user)),
      Or(p.role, s.role),
      Or(p.start, if form == Raw then Malformed else At(s.start)),
      Or(p.end, if form == Raw then Malformed else At(s.end)),
      if p.notes.Some? then p.notes else s.notes)
  {
    var o := Existing(form, id, s);
    var next := Overwrite(o, Properties(p));
    RowReads(id, s);
    assert AsText(Property(next, "userUpn")) == if form == Raw then p.user else Some(Or(p.user, s.user)) by {
      SpreadReads(o, p, "userUpn");
    }
    assert AsText(Property(next, "role")) == Some(Or(p.role, s.role)) by {
      SpreadReads(o, p, "role");
    }
    assert AsDate(Property(next, "startsAt")) == Or(p.start, if form == Raw then Malformed else At(s.start)) by {
      SpreadReads(o, p, "startsAt");
    }
    assert AsDate(Property(next, "endsAt")) == Or(p.end, if form == Raw then Malformed else At(s.end)) by {
      SpreadReads(o, p, "endsAt");
    }
    assert AsText(Property(next, "notes")) == if p.notes.Some? then p.notes else s.notes by {
      SpreadReads(o, p, "notes");
    }
  }

  /** The row after the repository's UPDATE, which skips empty strings. */
  function StorePatch(s: Shift, p: Patch): Shift {
    s.(user := if p.user.Some? && p.user.value != "" then p.user.value else s.user,
       role := if p.role.Some? && p.role.value != "" then p.role.value else s.role,
       start := if p.start.Some? && p.start.value.At? then p.start.value.ms else s.start,
       end := if p.end.Some? && p.end.value.At? then p.end.value.ms else s.end,
       notes := if p.notes.Some? then p.notes else s.notes)
  }

  function UpdateOutcome(env: Env, form: RowForm, t: Table, op: string, id: string, p: Patch): Outcome {
    if id !in t || t[id].op != op then Absent else Decide(env, t, op, Merge(form, id, t[id], p), Some(id))
  }

  function UpdateNext(env: Env, form: RowForm, t: Table, op: string, id: string, p: Patch): Table {
    if UpdateOutcome(env, form, t, op, id, p) == Write then t[id := StorePatch(t[id], p)] else t
  }

  function DeleteNext(t: Table, op: string, id: string): Table {
    if id in t && t[id].op == op then t - {id} else t
  }

  // ---------------------------------------------------------------------
  // The repository's UPDATE builder
  // ---------------------------------------------------------------------

  /** Checked patches carry no unparsable date. */
  predicate Dated(p: Patch) {
    (p.start.Some? ==> !p.start.value.Malformed?) && (p.end.Some? ==> !p.end.value.Malformed?)
  }

  function NumIfDated(s: Option<Stamp>): Option<Value> {
    if s.Some? && s.value.At? then Some(Num(s.value.ms)) else None
  }

  function Fields(p: Patch): seq<(string, Value)> {
    Maybe("user_upn", TextIfTruthy(p.user)) + Maybe("role", TextIfTruthy(p.role))
    + Maybe("starts_at", NumIfDated(p.start)) + Maybe("ends_at", NumIfDated(p.end))
    + Maybe("notes", TextIfGiven(p.notes))
  }

  method PushUserAndRole(p: Patch) returns (fields: seq<Bind>, params: seq<Value>, idx: nat)
    ensures Pushed(fields, params, Maybe("user_upn", TextIfTruthy(p.user)) + Maybe("role", TextIfTruthy(p.role)))
    ensures idx == |params| + 1
  {
    fields, params, idx := [], [], 1;
    if p.user.Some? && p.user.value != "" {
      fields, idx := fields + [Bind("user_upn", idx)], idx + 1;
      params := params + [Text(p.user.value)];
    }
    ghost var fs := Maybe("user_upn", TextIfTruthy(p.user));
    PushMaybe(fields, params, fs, "role", TextIfTruthy(p.role));
    if p.role.Some? && p.role.value != "" {
      fields, idx := fields + [Bind("role", idx)], idx + 1;
      params := params + [Text(p.role.value)];
    }
  }

  method PushFields(p: Patch) returns (fields: seq<Bind>, params: seq<Value>, idx: nat)
    requires Dated(p)
    ensures Pushed(fields, params, Fields(p)) && idx == |params| + 1
  {
    fields, params, idx := PushUserAndRole(p);
    ghost var fs := Maybe("user_upn", TextIfTruthy(p.user)) + Maybe("role", TextIfTruthy(p.role));
    PushMaybe(fields, params, fs, "starts_at", NumIfDated(p.start));
    if p.start.Some? && !p.start.value.Blank? {
      fields, idx := fields + [Bind("starts_at", idx)], idx + 1;
      params := params + [Num(p.start.value.ms)];
    }
    fs := fs + Maybe("starts_at", NumIfDated(p.start));
    PushMaybe(fields, params, fs, "ends_at", NumIfDated(p.end));
    if p.end.Some? && !p.end.value.Blank? {
      fields, idx := fields + [Bind("ends_at", idx)], idx + 1;
      params := params + [Num(p.end.value.ms)];
    }
    fs := fs + Maybe("ends_at", NumIfDated(p.end));
    PushMaybe(fields, params, fs, "notes", TextIfGiven(p.notes));
    if p.notes.Some? {
      fields, idx := fields + [Bind("notes", idx)], idx + 1;
      params := params + [Text(p.notes.value)];
    }
  }

  lemma PutUser(id: string, s: Shift, v: Option<string>)
    ensures Put(RowOf(id, s), "user_upn", TextIfTruthy(v)) ==
      RowOf(id, s.(user := if v.Some? && v.value != "" then v.value else s.user))
  {
  }

  lemma PutRole(id: string, s: Shift, v: Option<string>)
    ensures Put(RowOf(id, s), "role", TextIfTruthy(v)) ==
      RowOf(id, s.(role := if v.Some? && v.value != "" then v.value else s.role))
  {
  }

  lemma PutStart(id: string, s: Shift, v: Option<Stamp>)
    ensures Put(RowOf(id, s), "starts_at", NumIfDated(v)) ==
      RowOf(id, s.(start := if v.Some? && v.value.At? then v.value.ms else s.start))
  {
  }

  lemma PutEnd(id: string, s: Shift, v: Option<Stamp>)
    ensures Put(RowOf(id, s), "ends_at", NumIfDated(v)) ==
      RowOf(id, s.(end := if v.Some? && v.value.At? then v.value.ms else s.end))
  {
  }

  lemma PutNotes(id: string, s: Shift, v: Option<string>)
    ensures Put(RowOf(id, s), "notes", TextIfGiven(v)) ==
      RowOf(id, s.(notes := if v.Some? then v else s.notes))
  {
  }

  lemma OverwriteIsStore(id: string, s: Shift, p: Patch)
    ensures Overwrite(RowOf(id, s), Fields(p)) == RowOf(id, StorePatch(s, p))
  {
    var row, fs := RowOf(id, s), Maybe("user_upn", TextIfTruthy(p.user));
    OverwriteMaybe(row, [], "user_upn", TextIfTruthy(p.user));
    assert [] + fs == fs;
    PutUser(id, s, p.user);
    var t := s.(user := StorePatch(s, p).user);
    OverwriteMaybe(row, fs, "role", TextIfTruthy(p.role));
    fs := fs + Maybe("role", TextIfTruthy(p.role));
    PutRole(id, t, p.role);
    t := t.(role := StorePatch(s, p).role);
    OverwriteMaybe(row, fs, "starts_at", NumIfDated(p.start));
    fs := fs + Maybe("starts_at", NumIfDated(p.start));
    PutStart(id, t, p.start);
    t := t.(start := StorePatch(s, p).start);
    OverwriteMaybe(row, fs, "ends_at", NumIfDated(p.end));
    fs := fs + Maybe("ends_at", NumIfDated(p.end));
    PutEnd(id, t, p.end);
    t := t.(end := StorePatch(s, p).end);
    OverwriteMaybe(row, fs, "notes", TextIfGiven(p.notes));
    PutNotes(id, t, p.notes);
  }

  lemma KeyedIsRow(id': string, s: Shift, op: string, id: string)
    ensures Keyed(RowOf(id', s), [("operation_id", Text(op)), ("shift_id", Text(id))]) <==> id' == id && s.op == op
  {
    var keys := [("operation_id", Text(op)), ("shift_id", Text(id))];
    if Keyed(RowOf(id', s), keys) {
      assert keys[0].0 in RowOf(id', s) && keys[1].0 in RowOf(id', s);
    }
  }

  /** The statement is well numbered and means `StorePatch` on the one row it names and nothing on any other. */
  method BuildUpdate(p: Patch, op: string, id: string) returns (u: Option<Update>, params: seq<Value>)
    requires Dated(p)
    ensures u.Some? ==> Numbered(u.value, params)
    ensures u.Some? ==> forall id': string, s: Shift ::
      ExecRow(u.value, params, RowOf(id', s)) == RowOf(id', if id' == id && s.op == op then StorePatch(s, p) else s)
    ensures u.None? ==> forall s: Shift :: StorePatch(s, p) == s
  {
    var fields, idx;
    fields, params, idx := PushFields(p);
    if fields == [] {
      NoFields(p);
      return None, [];
    }
    ghost var keys := [("operation_id", Text(op)), ("shift_id", Text(id))];
    PushedIsBuilt(fields, params, Fields(p), keys[0], keys[1]);
    params := params + [Text(op), Text(id)];
    var where := [Bind("operation_id", idx)];
    idx := idx + 1;
    where := where + [Bind("shift_id", idx)];
    u := Some(Update(fields, where));
    BuiltMeans(u.value, params, Fields(p), keys, map[]);
    forall id': string, s: Shift
      ensures ExecRow(u.value, params, RowOf(id', s)) ==
        RowOf(id', if id' == id && s.op == op then StorePatch(s, p) else s)
    {
      BuiltMeans(u.value, params, Fields(p), keys, RowOf(id', s));
      KeyedIsRow(id', s, op, id);
      OverwriteIsStore(id', s, p);
    }
  }

  lemma NoFields(p: Patch)
    requires Fields(p) == []
    ensures forall s: Shift :: StorePatch(s, p) == s
  {
    assert |Fields(p)| == |Maybe("user_upn", TextIfTruthy(p.user))| + |Maybe("role", TextIfTruthy(p.role))|
      + |Maybe("starts_at", NumIfDated(p.start))| + |Maybe("ends_at", NumIfDated(p.end))|
      + |Maybe("notes", TextIfGiven(p.notes))|;
  }

  // ---------------------------------------------------------------------
  // The service
  // ---------------------------------------------------------------------

  class ScheduleService {
    var shifts: Table

    constructor ()
      ensures shifts == map[]
    {
      shifts := map[];
    }

    method CreateShift(env: Env, op: string, input: ShiftInput, createdBy: string, id: string) returns (reply: Reply)
      modifies this
      ensures shifts == CreateNext(env, old(shifts), op, input, createdBy, id)
      ensures match Decide(env, old(shifts), op, InputCandidate(input), None)
        case Refuse(code) => reply == Refused(code)
        case Clash => reply.Overlap?
          && reply.conflicting in Clashes(old(shifts), op, input.user, input.role, input.start.ms, input.end.ms, None)
        case Write => reply == if id in old(shifts) then DuplicateKey else Stored(id)
        case Absent => false
    {
      if !(input.start.At? && input.end.At? && input.start.ms < input.end.ms) {
        return Refused(InvalidTime);
      }
      var start, end := input.start.ms, input.end.ms;
      if !Within(env.policy, start, env.now1) || !Within(env.policy, end, env.now2) {
        return Refused(OutOfHorizon);
      }
      if TooLong(env.policy, start, end) {
        return Refused(DurationExceedsMax);
      }
      if (op, input.user, input.role) !in env.roster {
        return Refused(NotInRoster);
      }
      var rows := Clashes(shifts, op, input.user, input.role, start, end, None);
      if rows != {} {
        var conflicting :| conflicting in rows;
        return Overlap(conflicting);
      }
      if id in shifts {
        return DuplicateKey;
      }
      shifts := shifts[id := NewShift(op, input, createdBy)];
      reply := Stored(id);
    }

    method UpdateShift(env: Env, form: RowForm, op: string, id: string, patch: Patch) returns (reply: Reply)
      modifies this
      ensures shifts == UpdateNext(env, form, old(shifts), op, id, patch)
      ensures match UpdateOutcome(env, form, old(shifts), op, id, patch)
        case Absent => reply == NotFound
        case Refuse(code) => reply == Refused(code)
        case Clash => reply.Overlap?
          && var c := Merge(form, id, old(shifts)[id], patch);
          reply.conflicting in Clashes(old(shifts), op, c.user.value, c.role, c.start.ms, c.end.ms, Some(id))
        case Write => reply == Stored(id)
    {
      if id !in shifts || shifts[id].op != op {
        return NotFound;
      }
      var existing := Existing(form, id, shifts[id]);
      MergeReads(form, id, shifts[id], patch);
      var next := ReadCandidate(Overwrite(existing, Properties(patch)));
      var bad := Check(env, op, next);
      if bad.Some? {
        return Refused(bad.value);
      }
      var rows := Clashes(shifts, op, next.user.value, next.role, next.start.ms, next.end.ms, Some(id));
      if rows != {} {
        var conflicting :| conflicting in rows;
        return Overlap(conflicting);
      }
      RepoUpdate(op, id, patch);
      reply := Stored(id);
    }

    /** Runs the built statement: by the contract of `BuildUpdate` it stores `StorePatch` in the named row only. */
    method RepoUpdate(op: string, id: string, patch: Patch)
      requires id in shifts && shifts[id].op == op && Dated(patch)
      modifies this
      ensures shifts == old(shifts)[id := StorePatch(old(shifts)[id], patch)]
    {
      var u, params := BuildUpdate(patch, op, id);
      if u.Some? {
        shifts := map k | k in shifts ::
          if k == id && shifts[k].op == op then StorePatch(shifts[k], patch) else shifts[k];
        assert forall k :: k in shifts ==>
          ExecRow(u.value, params, RowOf(k, old(shifts)[k])) == RowOf(k, shifts[k]);
      } else {
        assert shifts == shifts[id := StorePatch(shifts[id], patch)];
      }
    }

    method DeleteShift(op: string, id: string)
      modifies this
      ensures shifts == DeleteNext(old(shifts), op, id)
    {
      shifts := map k | k in shifts && !(k == id && shifts[k].op == op) :: shifts[k];
    }
  }

  // ---------------------------------------------------------------------
  // The table invariant over every run
  // ---------------------------------------------------------------------

  ghost predicate Disjoint(x: Shift, y: Shift) {
    SameKey(x, y.op, y.user, y.role) ==> x.end <= y.start || y.end <= x.start
  }

  ghost predicate TableOk(policy: Policy, t: Table) {
    && (forall id :: id in t ==> t[id].start < t[id].end && !TooLong(policy, t[id].start, t[id].end))
    && (forall i, j :: i in t && j in t && i != j ==> Disjoint(t[i], t[j]))
  }

  /** Nobody on the roster has an empty name or role. */
  ghost predicate Named(roster: Roster) {
    forall r :: r in roster ==> r.1 != "" && r.2 != ""
  }

  datatype Call =
    | Create(env: Env, op: string, input: ShiftInput, createdBy: string, id: string)
    | Patching(env: Env, form: RowForm, op: string, id: string, patch: Patch)
    | Delete(op: string, id: string)

  function Next(t: Table, call: Call): Table {
    match call
    case Create(env, op, input, createdBy, id) => CreateNext(env, t, op, input, createdBy, id)
    case Patching(env, form, op, id, patch) => UpdateNext(env, form, t, op, id, patch)
    case Delete(op, id) => DeleteNext(t, op, id)
  }

  function RunFrom(t: Table, calls: seq<Call>): Table {
    if calls == [] then t else Next(RunFrom(t, calls[..|calls| - 1]), calls[|calls| - 1])
  }

  function Run(calls: seq<Call>): Table {
    RunFrom(map[], calls)
  }

  /** The stored shift has another key than s or reaches beyond it. */
  predicate Moves(s: Shift, stored: Shift) {
    !SameKey(stored, s.op, s.user, s.role) || stored.start < s.start || stored.end > s.end
  }

  /**
   A patch of row s passes the checks under one key and is stored, somewhere new, under another: it blanks the user or
   the role, the check uses the empty string, the statement skips it.
   */
  predicate Strays(env: Env, form: RowForm, op: string, id: string, s: Shift, p: Patch) {
    var c, stored := Merge(form, id, s, p), StorePatch(s, p);
    && Check(env, op, c).None?
    && (c.user != Some(stored.user) || c.role != stored.role)
    && Moves(s, stored)
  }

  /** The call is made under the policy, with whatever clock and roster there is at the time, and no patch strays. */
  ghost predicate Proper(policy: Policy, t: Table, call: Call) {
    && (!call.Delete? ==> call.env.policy == policy)
    && (call.Patching? && call.id in t && t[call.id].op == call.op ==>
          !Strays(call.env, call.form, call.op, call.id, t[call.id], call.patch))
  }

  /** Every call is proper for the table it finds. */
  ghost predicate ProperRun(policy: Policy, calls: seq<Call>) {
    calls == [] ||
    var front, last := calls[..|calls| - 1], calls[|calls| - 1];
    ProperRun(policy, front) && Proper(policy, Run(front), last)
  }

  /** An update stores the checked times and notes, and the checked user and role unless it is a blanking patch. */
  lemma StoreAgrees(env: Env, form: RowForm, t: Table, op: string, id: string, p: Patch)
    requires UpdateOutcome(env, form, t, op, id, p) == Write
    ensures var c, s := Merge(form, id, t[id], p), StorePatch(t[id], p);
      && c.user.Some? && c.start.At? && c.end.At?
      && s.start == c.start.ms && s.end == c.end.ms && s.notes == c.notes && s.op == op
      && (Named(env.roster) || (c.user != Some("") && c.role != "") || (p.user != Some("") && p.role != Some("")) ==>
            s.user == c.user.value && s.role == c.role)
  {
    MergeReads(form, id, t[id], p);
    var c := Merge(form, id, t[id], p);
    assert (op, c.user.value, c.role) in env.roster;
  }

  lemma CreateKeepsTable(policy: Policy, env: Env, t: Table, op: string, i: ShiftInput, createdBy: string, id: string)
    requires TableOk(policy, t) && env.policy == policy
    ensures TableOk(policy, CreateNext(env, t, op, i, createdBy, id))
  {
    var t' := CreateNext(env, t, op, i, createdBy, id);
    if t' != t {
      forall j | j in t
        ensures Disjoint(t'[id], t'[j]) && Disjoint(t'[j], t'[id])
      {
        assert j !in Clashes(t, op, i.user, i.role, i.start.ms, i.end.ms, None);
      }
    }
  }

  /** An update that does not stray keeps the table. */
  lemma UpdateKeepsTable(policy: Policy, env: Env, form: RowForm, t: Table, op: string, id: string, p: Patch)
    requires TableOk(policy, t) && env.policy == policy
    requires id in t && t[id].op == op ==> !Strays(env, form, op, id, t[id], p)
    ensures TableOk(policy, UpdateNext(env, form, t, op, id, p))
  {
    var t' := UpdateNext(env, form, t, op, id, p);
    if t' != t {
      StoreAgrees(env, form, t, op, id, p);
      var c := Merge(form, id, t[id], p);
      forall j | j in t && j != id
        ensures Disjoint(t'[id], t'[j]) && Disjoint(t'[j], t'[id])
      {
        if c.user == Some(t'[id].user) && c.role == t'[id].role {
          assert j !in Clashes(t, op, c.user.value, c.role, c.start.ms, c.end.ms, Some(id));
        } else {
          assert Disjoint(t[id], t[j]);
        }
      }
    }
  }

  lemma NextKeepsTable(policy: Policy, t: Table, call: Call)
    requires TableOk(policy, t) && Proper(policy, t, call)
    ensures TableOk(policy, Next(t, call))
  {
    match call
    case Create(env, op, input, createdBy, id) =>
      CreateKeepsTable(policy, env, t, op, input, createdBy, id);
    case Patching(env, form, op, id, patch) =>
      UpdateKeepsTable(policy, env, form, t, op, id, patch);
    case Delete(op, id) =>
  }

  /** The shift ends after it starts, and after at most maxHours hours of 3600000 ms unless oversize is allowed. */
  ghost predicate Sound(policy: Policy, s: Shift) {
    s.start < s.end && (policy.allowOversize || (s.end - s.start) as real <= policy.maxHours * 3600000.0)
  }

  /** If they are of one operation, user and role, one shift ends before the other starts. */
  ghost predicate Apart(x: Shift, y: Shift) {
    x.op != y.op || x.user != y.user || x.role != y.role || x.end <= y.start || y.end <= x.start
  }

  /**
   Over every run, with either form of the merge, every shift ends after it starts and is within the limit unless
   oversize is allowed, and no two shifts of one operation, user and role overlap.
   */
  lemma {:induction false} RunKeepsTable(policy: Policy, calls: seq<Call>)
    requires ProperRun(policy, calls)
    ensures TableOk(policy, Run(calls))
    ensures var t := Run(calls);
      && (forall id :: id in t ==> Sound(policy, t[id]))
      && (forall i, j :: i in t && j in t && i != j ==> Apart(t[i], t[j]))
  {
    if calls != [] {
      var front, last := calls[..|calls| - 1], calls[|calls| - 1];
      RunKeepsTable(policy, front);
      NextKeepsTable(policy, Run(front), last);
    }
    TableMeans(policy, Run(calls));
  }

  lemma TableMeans(policy: Policy, t: Table)
    requires TableOk(policy, t)
    ensures forall id :: id in t ==> Sound(policy, t[id])
    ensures forall i, j :: i in t && j in t && i != j ==> Apart(t[i], t[j])
  {
    forall i, j | i in t && j in t && i != j
      ensures Apart(t[i], t[j])
    {
      assert Disjoint(t[i], t[j]);
    }
  }

  ghost predicate Covers(s: Shift, instant: int) {
    s.start <= instant < s.end
  }

  /** Another shift of this operation, user and role, and an instant that lies in both it and the request. */
  ghost predicate SharesInstant(t: Table, op: string, c: Candidate, except: Option<string>, id: string, instant: int)
    requires c.user.Some? && c.start.At? && c.end.At?
  {
    && id in t && Some(id) != except && t[id].op == op && t[id].user == c.user.value && t[id].role == c.role
    && Covers(t[id], instant) && c.start.ms <= instant < c.end.ms
  }

  /**
   A request is refused for overlap exactly when it passes the other checks and shares an instant with another shift
   of its key; otherwise the first check that fails decides, and if none does it is written.
   */
  lemma ClashMeansSharedInstant(policy: Policy, env: Env, t: Table, op: string, c: Candidate, except: Option<string>)
    requires TableOk(policy, t)
    ensures Decide(env, t, op, c, except) == Clash <==>
      Check(env, op, c).None? && exists id, instant: int :: SharesInstant(t, op, c, except, id, instant)
    ensures Check(env, op, c).Some? ==> Decide(env, t, op, c, except) == Refuse(Check(env, op, c).value)
    ensures Decide(env, t, op, c, except) == Write <==>
      Check(env, op, c).None? && !exists id, instant: int :: SharesInstant(t, op, c, except, id, instant)
  {
    if Check(env, op, c).None? {
      var clashes := Clashes(t, op, c.user.value, c.role, c.start.ms, c.end.ms, except);
      if clashes != {} {
        var id :| id in clashes;
        var instant := if t[id].start < c.start.ms then c.start.ms else t[id].start;
        assert SharesInstant(t, op, c, except, id, instant);
      }
      if id, instant: int :| SharesInstant(t, op, c, except, id, instant) {
        assert id in clashes;
      }
    }
  }

  /**
   Only an update that is written changes anything, an update is about a shift of its operation, and it is refused for
   overlap exactly when another shift than its own is in the way. A create is written once its id is new.
   */
  lemma UpdateExactly(policy: Policy, env: Env, form: RowForm, t: Table, op: string, id: string, p: Patch)
    requires TableOk(policy, t)
    ensures UpdateOutcome(env, form, t, op, id, p) == Absent <==> id !in t || t[id].op != op
    ensures id in t && t[id].op == op ==>
      var c, outcome := Merge(form, id, t[id], p), UpdateOutcome(env, form, t, op, id, p);
      && (forall code :: outcome == Refuse(code) <==> Check(env, op, c) == Some(code))
      && (outcome == Clash <==>
            Check(env, op, c).None? && exists other, instant: int :: SharesInstant(t, op, c, Some(id), other, instant))
    ensures UpdateOutcome(env, form, t, op, id, p) != Write ==> UpdateNext(env, form, t, op, id, p) == t
  {
    if id in t && t[id].op == op {
      ClashMeansSharedInstant(policy, env, t, op, Merge(form, id, t[id], p), Some(id));
    }
  }

  lemma CreateExactly(env: Env, t: Table, op: string, i: ShiftInput, createdBy: string, id: string)
    ensures var c := Candidate(Some(i.user), i.role, i.start, i.end, i.notes);
      CreateNext(env, t, op, i, createdBy, id) ==
      if Decide(env, t, op, c, None) == Write && id !in t then
        t[id := Shift(op, i.user, i.role, i.start.ms, i.end.ms, i.notes, createdBy)]
      else t
  {
  }

  /** At no instant is a user on duty twice in one role of one operation. */
  lemma OnDutyOnce(policy: Policy, calls: seq<Call>, i: string, j: string, instant: int)
    requires ProperRun(policy, calls)
    requires var t := Run(calls);
      i in t && j in t && t[i].start <= instant < t[i].end && t[j].start <= instant < t[j].end
    requires var t := Run(calls); t[i].op == t[j].op && t[i].user == t[j].user && t[i].role == t[j].role
    ensures i == j
  {
    RunKeepsTable(policy, calls);
    var t := Run(calls);
    assert i != j ==> Apart(t[i], t[j]);
  }

  // ---------------------------------------------------------------------
  // Workload
  // ---------------------------------------------------------------------

  function Min(a: int, b: int): int {
    if a < b then a else b
  }

  function Max(a: int, b: int): int {
    if a < b then b else a
  }

  /** The part of a shift that lies in [a, b). */
  function Clipped(s: Shift, a: int, b: int): int {
    Max(0, Min(s.end, b) - Max(s.start, a))
  }

  ghost function Load(t: Table, ids: set<string>, a: int, b: int): int
    requires ids <= t.Keys
  {
    if ids == {} then 0
    else
      var id :| id in ids;
      Clipped(t[id], a, b) + Load(t, ids - {id}, a, b)
  }

  lemma {:induction false} LoadSplit(t: Table, ids: set<string>, id: string, a: int, b: int)
    requires ids <= t.Keys && id in ids
    ensures Load(t, ids, a, b) == Clipped(t[id], a, b) + Load(t, ids - {id}, a, b)
  {
    var x :| x in ids && Load(t, ids, a, b) == Clipped(t[x], a, b) + Load(t, ids - {x}, a, b);
    if x != id {
      LoadSplit(t, ids - {x}, id, a, b);
      LoadSplit(t, ids - {id}, x, a, b);
      assert ids - {x} - {id} == ids - {id} - {x};
    }
  }

  lemma {:induction false} LoadSame(t: Table, ids: set<string>, a: int, b: int, b': int)
    requires ids <= t.Keys && forall id :: id in ids ==> Clipped(t[id], a, b) == Clipped(t[id], a, b')
    ensures Load(t, ids, a, b) == Load(t, ids, a, b')
  {
    if ids != {} {
      var id :| id in ids;
      LoadSplit(t, ids, id, a, b);
      LoadSplit(t, ids, id, a, b');
      LoadSame(t, ids - {id}, a, b, b');
    }
  }

  lemma {:induction false} Latest(t: Table, ids: set<string>) returns (last: string)
    requires ids <= t.Keys && ids != {}
    ensures last in ids && forall id :: id in ids ==> t[id].start <= t[last].start
  {
    last :| last in ids;
    if ids != {last} {
      var other := Latest(t, ids - {last});
      if t[last].start < t[other].start {
        last := other;
      }
    }
  }

  lemma {:induction false} LoadBound(t: Table, ids: set<string>, a: int, b: int)
    requires ids <= t.Keys && a <= b
    requires forall i :: i in ids ==> t[i].start < t[i].end
    requires forall i, j :: i in ids && j in ids && i != j ==> t[i].end <= t[j].start || t[j].end <= t[i].start
    ensures Load(t, ids, a, b) <= b - a
    decreases |ids|
  {
    if ids != {} {
      var last := Latest(t, ids);
      var m := Max(a, Min(t[last].start, b));
      LoadSplit(t, ids, last, a, b);
      forall i | i in ids - {last}
        ensures Clipped(t[i], a, b) == Clipped(t[i], a, m)
      {
        assert t[i].end <= t[last].start;
      }
      LoadSame(t, ids - {last}, a, b, m);
      LoadBound(t, ids - {last}, a, m);
    }
  }

  function ShiftsOf(t: Table, op: string, user: string, role: string): set<string> {
    set id | id in t && t[id].op == op && t[id].user == user && t[id].role == role
  }

  /**
   However shifts were created, moved and deleted, one (operation, user, role) is never scheduled for more than a
   window holds.
   */
  lemma WorkloadBound(policy: Policy, calls: seq<Call>, op: string, user: string, role: string, a: int, b: int)
    requires a <= b && ProperRun(policy, calls)
    ensures var t := Run(calls);
      Load(t, ShiftsOf(t, op, user, role), a, b) <= b - a
  {
    RunKeepsTable(policy, calls);
    var t := Run(calls);
    var ids := ShiftsOf(t, op, user, role);
    forall i, j | i in ids && j in ids && i != j
      ensures t[i].end <= t[j].start || t[j].end <= t[i].start
    {
      assert Apart(t[i], t[j]);
    }
    LoadBound(t, ids, a, b);
  }

  // ---------------------------------------------------------------------
  // What an update stores
  // ---------------------------------------------------------------------

  ghost predicate StoredAsChecked(s: Shift, c: Candidate) {
    && c.user == Some(s.user) && c.role == s.role && c.start == At(s.start) && c.end == At(s.end) && c.notes == s.notes
  }

  /** The call is a patch or a deletion of this shift of this operation. */
  predicate Touches(call: Call, op: string, id: string) {
    match call
    case Create(_, _, _, _, _) => false
    case Patching(_, _, op', id', _) => op' == op && id' == id
    case Delete(op', id') => op' == op && id' == id
  }

  lemma {:induction false} UntouchedStays(t: Table, calls: seq<Call>, id: string)
    requires id in t && forall k :: 0 <= k < |calls| ==> !Touches(calls[k], t[id].op, id)
    ensures id in RunFrom(t, calls) && RunFrom(t, calls)[id] == t[id]
  {
    if calls != [] {
      UntouchedStays(t, calls[..|calls| - 1], id);
    }
  }

  /**
   A successful create adds one row, the checked input, and touches no other. The row stays as it is through every later
   run of calls that does not patch or delete it under its own operation. Deleting it there and then gives the table
   back; under any other operation a deletion does nothing.
   */
  lemma {:induction false} CreatedShiftStays(env: Env, t: Table, op: string, i: ShiftInput, createdBy: string,
                                             id: string, other: string, calls: seq<Call>)
    requires Decide(env, t, op, InputCandidate(i), None) == Write && id !in t
    requires forall k :: 0 <= k < |calls| ==> !Touches(calls[k], op, id)
    ensures var t' := CreateNext(env, t, op, i, createdBy, id);
      && t'.Keys == t.Keys + {id}
      && (forall k :: k in t ==> t'[k] == t[k])
      && DeleteNext(t', other, id) == if other == op then t else t'
    ensures var u := RunFrom(CreateNext(env, t, op, i, createdBy, id), calls);
      id in u && u[id] == Shift(op, i.user, i.role, i.start.ms, i.end.ms, i.notes, createdBy)
  {
    var t' := CreateNext(env, t, op, i, createdBy, id);
    UntouchedStays(t', calls, id);
    assert t' - {id} == t;
  }

  /**
   A successful update stores exactly the values it checked, and touches no other row, unless the patch blanks a user
   or a role: the check uses the empty string, the statement skips it.
   */
  lemma UpdateStoresWhatItChecked(env: Env, form: RowForm, t: Table, op: string, id: string, p: Patch)
    requires UpdateOutcome(env, form, t, op, id, p) == Write
    ensures var t' := UpdateNext(env, form, t, op, id, p);
      && t'.Keys == t.Keys
      && (forall k :: k in t && k != id ==> t'[k] == t[k])
      && (StoredAsChecked(t'[id], Merge(form, id, t[id], p)) <==>
            (p.user == Some("") ==> t[id].user == "") && (p.role == Some("") ==> t[id].role == ""))
      && (Named(env.roster) ==> StoredAsChecked(t'[id], Merge(form, id, t[id], p)))
  {
    MergeReads(form, id, t[id], p);
    StoreAgrees(env, form, t, op, id, p);
  }

  /**
   As written, an update succeeds exactly when the patch restates user, start and end and the intended merge would
   succeed; any smaller patch of an existing shift is refused.
   */
  lemma RawRowNeedsFullPatch(env: Env, t: Table, op: string, id: string, p: Patch)
    ensures UpdateOutcome(env, Raw, t, op, id, p) == Write <==>
      p.user.Some? && p.start.Some? && p.end.Some? && UpdateOutcome(env, Camel, t, op, id, p) == Write
    ensures id in t && t[id].op == op && (p.start.None? || p.end.None?) ==>
      UpdateOutcome(env, Raw, t, op, id, p) == Refuse(InvalidTime)
  {
    if id in t {
      MergeReads(Raw, id, t[id], p);
      MergeReads(Camel, id, t[id], p);
    }
  }

  /** The check passes for an empty user or role: the guard under which the statement stores something else. */
  predicate BlankAdmitted(env: Env, op: string, p: Patch, role: string) {
    && p.user.Some? && p.start.Some? && p.end.Some?
    && role == Or(p.role, role)
    && Check(env, op, Candidate(p.user, role, p.start.value, p.end.value, None)).None?
    && (p.user == Some("") || p.role == Some(""))
  }

  ghost predicate RowOk(policy: Policy, s: Shift) {
    s.start < s.end && !TooLong(policy, s.start, s.end)
  }

  /** A short shift in the place that the patch moves row s to, outside of s. */
  function Neighbour(s: Shift, stored: Shift): Shift {
    var at :=
      if !SameKey(stored, s.op, s.user, s.role) || stored.start < s.start then stored.start else stored.end - 1;
    stored.(start := at, end := at + 1)
  }

  /** A patch that strays makes two shifts overlap that did not. */
  lemma StrayBreaksTable(env: Env, form: RowForm, op: string, id: string, other: string, s: Shift, p: Patch)
    requires RowOk(env.policy, s) && s.op == op && Strays(env, form, op, id, s, p) && id != other
    ensures var t := map[other := Neighbour(s, StorePatch(s, p)), id := s];
      TableOk(env.policy, t) && !TableOk(env.policy, UpdateNext(env, form, t, op, id, p))
  {
    var stored := StorePatch(s, p);
    var n := Neighbour(s, stored);
    var t := map[other := n, id := s];
    var c := Merge(form, id, s, p);
    MergeReads(form, id, s, p);
    assert stored.start == c.start.ms && stored.end == c.end.ms;
    assert !TooLong(env.policy, n.start, n.end) by {
      assert (stored.end - stored.start) as real >= 1.0;
    }
    assert Disjoint(n, s) && Disjoint(s, n);
    assert TableOk(env.policy, t);
    assert Clashes(t, op, c.user.value, c.role, c.start.ms, c.end.ms, Some(id)) == {};
    assert UpdateOutcome(env, form, t, op, id, p) == Write;
    var t' := UpdateNext(env, form, t, op, id, p);
    assert t'[id] == stored && t'[other] == n;
    assert !Disjoint(t'[id], t'[other]);
  }

  /** With either form of the row, an update of row s keeps every good table good if and only if it does not stray. */
  lemma UpdateKeepsTableExactly(env: Env, form: RowForm, op: string, id: string, other: string, s: Shift, p: Patch)
    requires RowOk(env.policy, s) && s.op == op && id != other
    ensures (forall t :: TableOk(env.policy, t) && id in t && t[id] == s ==>
               TableOk(env.policy, UpdateNext(env, form, t, op, id, p)))
      <==> !Strays(env, form, op, id, s, p)
  {
    if Strays(env, form, op, id, s, p) {
      StrayBreaksTable(env, form, op, id, other, s, p);
      var t := map[other := Neighbour(s, StorePatch(s, p)), id := s];
      assert TableOk(env.policy, t) && id in t && t[id] == s;
    } else {
      forall t | TableOk(env.policy, t) && id in t && t[id] == s
        ensures TableOk(env.policy, UpdateNext(env, form, t, op, id, p))
      {
        UpdateKeepsTable(env.policy, env, form, t, op, id, p);
      }
    }
  }

  /** A row that a raw patch moves, if its check passes for an empty user or role. */
  function BlankVictim(op: string, p: Patch, role: string): Shift
    requires p.end.Some? && p.end.value.At?
  {
    var b := p.end.value.ms;
    Shift(op, "u", if p.role == Some("") then "r" else role, b, b + 1, None, "c")
  }

  lemma BlankVictimStrays(env: Env, op: string, id: string, p: Patch, role: string)
    requires BlankAdmitted(env, op, p, role)
    ensures p.end.value.At?
    ensures var s := BlankVictim(op, p, role);
      s.op == op && RowOk(env.policy, s) && Strays(env, Raw, op, id, s, p)
  {
    var s := BlankVictim(op, p, role);
    MergeReads(Raw, id, s, p);
    assert (p.end.value.ms - p.start.value.ms) as real >= 1.0;
    assert Merge(Raw, id, s, p).role == role;
  }

  lemma StrayIsAdmitted(env: Env, op: string, id: string, s: Shift, p: Patch)
    requires Strays(env, Raw, op, id, s, p)
    ensures BlankAdmitted(env, op, p, Merge(Raw, id, s, p).role)
  {
    MergeReads(Raw, id, s, p);
  }

  /**
   As written, an update keeps every good table good, whatever row it finds, if and only if its check cannot pass for an
   empty user or role.
   */
  lemma RawUpdateKeepsTableExactly(env: Env, op: string, id: string, other: string, p: Patch)
    requires id != other
    ensures (forall t :: TableOk(env.policy, t) ==> TableOk(env.policy, UpdateNext(env, Raw, t, op, id, p)))
      <==> !exists role :: BlankAdmitted(env, op, p, role)
  {
    if role :| BlankAdmitted(env, op, p, role) {
      BlankVictimStrays(env, op, id, p, role);
      StrayBreaksTable(env, Raw, op, id, other, BlankVictim(op, p, role), p);
    } else {
      forall t | TableOk(env.policy, t)
        ensures TableOk(env.policy, UpdateNext(env, Raw, t, op, id, p))
      {
        if id in t && Strays(env, Raw, op, id, t[id], p) {
          StrayIsAdmitted(env, op, id, t[id], p);
          assert false;
        }
        UpdateKeepsTable(env.policy, env, Raw, t, op, id, p);
      }
    }
  }

  /** With nobody unnamed on the roster, or without an empty user or role in the patch, nothing strays. */
  lemma UnblankedNeverStrays(env: Env, form: RowForm, op: string, id: string, s: Shift, p: Patch)
    requires Named(env.roster) || (p.user != Some("") && p.role != Some(""))
    ensures !Strays(env, form, op, id, s, p)
  {
    MergeReads(form, id, s, p);
    var c := Merge(form, id, s, p);
    if Check(env, op, c).None? {
      assert (op, c.user.value, c.role) in env.roster;
    }
  }

  // ---------------------------------------------------------------------
  // Grouping the active shifts by role
  // ---------------------------------------------------------------------

  datatype ActiveRow = ActiveRow(role: string, user: string, display: Option<string>, id: string, end: int)
  datatype Entry = Entry(user: string, display: Option<string>, id: string, end: int)

  function EntryOf(r: ActiveRow): Entry {
    Entry(r.user, r.display, r.id, r.end)
  }

  function OfRole(rows: seq<ActiveRow>, role: string): seq<Entry> {
    if rows == [] then []
    else
      var r := rows[|rows| - 1];
      OfRole(rows[..|rows| - 1], role) + if r.role == role then [Entry(r.user, r.display, r.id, r.end)] else []
  }

  /** `roles` is the grouping of these rows: each role that occurs with its rows in order, no other role. */
  ghost predicate Grouped(roles: map<string, seq<Entry>>, rows: seq<ActiveRow>) {
    && (forall role :: role in roles ==> roles[role] != [] && roles[role] == OfRole(rows, role))
    && (forall role :: role !in roles ==> OfRole(rows, role) == [])
  }

  lemma GroupOne(roles: map<string, seq<Entry>>, rows: seq<ActiveRow>, k: nat)
    requires k < |rows| && Grouped(roles, rows[..k])
    ensures var r := rows[k];
      Grouped(roles[r.role := (if r.role in roles then roles[r.role] else []) + [EntryOf(r)]], rows[..k + 1])
  {
    assert rows[..k + 1][..k] == rows[..k];
  }

  /**
   `inherited` are the property names that a plain object inherits, `constructor` and `toString` among them. `None` is
   the exception: under such a name the grouping object already has something, and that has no `push`.
   */
  method GroupByRole(rows: seq<ActiveRow>, inherited: set<string>) returns (roles: Option<map<string, seq<Entry>>>)
    ensures roles.Some? <==> forall r :: r in rows ==> r.role !in inherited
    ensures roles.Some? ==> Grouped(roles.value, rows)
  {
    var groups: map<string, seq<Entry>> := map[];
    for k := 0 to |rows|
      invariant Grouped(groups, rows[..k])
      invariant forall j :: 0 <= j < k ==> rows[j].role !in inherited
    {
      var r := rows[k];
      if r.role in inherited {
        return None;
      }
      GroupOne(groups, rows, k);
      groups := groups[r.role := (if r.role in groups then groups[r.role] else []) + [EntryOf(r)]];
    }
    assert rows[..|rows|] == rows;
    roles := Some(groups);
  }
}
