/**
 incident-svc: the append-only event log, the read model that every handler
 changes in the same synchronous section, and the replay that defines what
 the read model has to be.
 */
module IncidentLog {
  import opened Common

  type Bytes = seq<bv8>

  datatype Payload =
    | Created(title: string, severity: string, description: Option<string>)
    | CommentAdded(comment: string)
    | StatusChanged(status: string)
    | AttachmentAdded(attachmentId: nat, objectName: string, filename: string)

  datatype Event = Event(id: nat, incidentId: nat, payload: Payload)

  datatype Incident = Incident(
    id: nat, title: string, description: Option<string>, severity: string, status: string, comments: seq<string>)

  datatype Attachment = Attachment(id: nat, incidentId: nat, objectName: string, filename: string)

  datatype File = File(filename: string, data: Bytes)

  datatype State = State(
    incidents: seq<Incident>, events: seq<Event>, attachments: seq<Attachment>, objects: map<string, Bytes>,
    nextIncidentId: nat, nextEventId: nat, nextAttachmentId: nat)

  const INIT := State([], [], [], map[], 1, 1, 1)

  /** A body field that is absent is the empty string: the handlers only test for falsy values. */
  datatype Request =
    | Create(title: string, severity: string, description: Option<string>)
    | Comment(id: nat, comment: string)
    | SetStatus(dispatcher: bool, id: nat, status: string)
    | Attach(id: nat, file: Option<File>, objectName: string)

  datatype Reply =
    | Refused(code: nat)
    | OkIncident(code: nat, incident: Incident)
    | OkAttachment(code: nat, attachment: Attachment)

  /** Index of the first incident with the given id, or the length. */
  function Find(incidents: seq<Incident>, id: int): (k: nat)
    ensures k <= |incidents|
    ensures k < |incidents| ==> incidents[k].id == id
    ensures forall j :: 0 <= j < k ==> incidents[j].id != id
  {
    if incidents == [] then 0
    else if incidents[0].id == id then 0
    else 1 + Find(incidents[1..], id)
  }

  /** What GET /incidents/:id returns; `None` is the 404 body `{}`. */
  function Lookup(incidents: seq<Incident>, id: int): Option<Incident> {
    var k := Find(incidents, id);
    if k < |incidents| then Some(incidents[k]) else None
  }

  /** `description ?? ''` */
  function Described(i: Incident): string {
    if i.description.Some? then i.description.value else ""
  }

  // ---------------------------------------------------------------------
  // The handlers
  // ---------------------------------------------------------------------

  function Commit(s: State, id: nat, payload: Payload): State {
    s.(events := s.events + [Event(s.nextEventId, id, payload)], nextEventId := s.nextEventId + 1)
  }

  function Handle(s: State, r: Request): (State, Reply) {
    match r
    case Create(title, severity, description) =>
      if title == "" || severity == "" then (s, Refused(400))
      else
        var incident := Incident(s.nextIncidentId, title, description, severity, "open", []);
        var s' := s.(incidents := s.incidents + [incident], nextIncidentId := s.nextIncidentId + 1);
        (Commit(s', incident.id, Created(title, severity, description)), OkIncident(201, incident))
    case Comment(id, comment) =>
      var k := Find(s.incidents, id);
      if comment == "" then (s, Refused(400))
      else if k == |s.incidents| then (s, Refused(404))
      else
        var incident := s.incidents[k].(comments := s.incidents[k].comments + [comment]);
        (Commit(s.(incidents := s.incidents[k := incident]), id, CommentAdded(comment)), OkIncident(200, incident))
    case SetStatus(dispatcher, id, status) =>
      var k := Find(s.incidents, id);
      if !dispatcher then (s, Refused(403))
      else if status == "" then (s, Refused(400))
      else if k == |s.incidents| then (s, Refused(404))
      else
        var incident := s.incidents[k].(status := status);
        (Commit(s.(incidents := s.incidents[k := incident]), id, StatusChanged(status)), OkIncident(200, incident))
    case Attach(id, file, objectName) =>
      if Find(s.incidents, id) == |s.incidents| then (s, Refused(404))
      else if file.None? then (s, Refused(400))
      else
        var a := Attachment(s.nextAttachmentId, id, objectName, file.value.filename);
        var s' := s.(objects := s.objects[objectName := file.value.data],
                     attachments := s.attachments + [a], nextAttachmentId := s.nextAttachmentId + 1);
        (Commit(s', id, AttachmentAdded(a.id, objectName, a.filename)), OkAttachment(201, a))
  }

  function Run(rs: seq<Request>): State {
    if rs == [] then INIT else Handle(Run(rs[..|rs| - 1]), rs[|rs| - 1]).0
  }

  /** The service module: its arrays, its object store and its three counters. */
  class IncidentService {
    var incidents: seq<Incident>
    var events: seq<Event>
    var attachments: seq<Attachment>
    var objectStore: map<string, Bytes>
    var nextIncidentId: nat
    var nextEventId: nat
    var nextAttachmentId: nat

    constructor ()
      ensures View() == INIT
    {
      incidents, events, attachments, objectStore := [], [], [], map[];
      nextIncidentId, nextEventId, nextAttachmentId := 1, 1, 1;
    }

    ghost function View(): State
      reads this
    {
      State(incidents, events, attachments, objectStore, nextIncidentId, nextEventId, nextAttachmentId)
    }

    method FindIncident(id: nat) returns (k: nat)
      ensures k == Find(incidents, id)
    {
      k := 0;
      while k < |incidents| && incidents[k].id != id
        invariant k <= |incidents|
        invariant Find(incidents, id) == k + Find(incidents[k..], id)
      {
        assert incidents[k..][1..] == incidents[k + 1..];
        k := k + 1;
      }
    }

    method CommitEvent(id: nat, payload: Payload)
      modifies this`events, this`nextEventId
      ensures View() == Commit(old(View()), id, payload)
    {
      var event := Event(nextEventId, id, payload);
      nextEventId := nextEventId + 1;
      events := events + [event];
    }

    method CreateIncident(title: string, severity: string, description: Option<string>) returns (reply: Reply)
      modifies this
      ensures (View(), reply) == Handle(old(View()), Create(title, severity, description))
    {
      if title == "" || severity == "" {
        return Refused(400);
      }
      var incident := Incident(nextIncidentId, title, description, severity, "open", []);
      nextIncidentId := nextIncidentId + 1;
      incidents := incidents + [incident];
      CommitEvent(incident.id, Created(title, severity, description));
      reply := OkIncident(201, incident);
    }

    method AddComment(id: nat, comment: string) returns (reply: Reply)
      modifies this
      ensures (View(), reply) == Handle(old(View()), Comment(id, comment))
    {
      if comment == "" {
        return Refused(400);
      }
      var k := FindIncident(id);
      if k == |incidents| {
        return Refused(404);
      }
      var incident := incidents[k].(comments := incidents[k].comments + [comment]);
      incidents := incidents[k := incident];
      CommitEvent(id, CommentAdded(comment));
      reply := OkIncident(200, incident);
    }

    method ChangeStatus(dispatcher: bool, id: nat, status: string) returns (reply: Reply)
      modifies this
      ensures (View(), reply) == Handle(old(View()), SetStatus(dispatcher, id, status))
    {
      if !dispatcher {
        return Refused(403);
      }
      if status == "" {
        return Refused(400);
      }
      var k := FindIncident(id);
      if k == |incidents| {
        return Refused(404);
      }
      var incident := incidents[k].(status := status);
      incidents := incidents[k := incident];
      CommitEvent(id, StatusChanged(status));
      reply := OkIncident(200, incident);
    }

    method AddAttachment(id: nat, file: Option<File>, objectName: string) returns (reply: Reply)
      modifies this
      ensures (View(), reply) == Handle(old(View()), Attach(id, file, objectName))
    {
      var k := FindIncident(id);
      if k == |incidents| {
        return Refused(404);
      }
      if file.None? {
        return Refused(400);
      }
      objectStore := objectStore[objectName := file.value.data];
      var attachment := Attachment(nextAttachmentId, id, objectName, file.value.filename);
      nextAttachmentId := nextAttachmentId + 1;
      attachments := attachments + [attachment];
      CommitEvent(id, AttachmentAdded(attachment.id, objectName, attachment.filename));
      reply := OkAttachment(201, attachment);
    }
  }

  // ---------------------------------------------------------------------
  // Replay: the read model as a fold of the log
  // ---------------------------------------------------------------------

  datatype Model = Model(incidents: seq<Incident>, attachments: seq<Attachment>)

  function ApplyTo(i: Incident, e: Event): Incident {
    if i.id != e.incidentId then i
    else match e.payload
      case CommentAdded(comment) => i.(comments := i.comments + [comment])
      case StatusChanged(status) => i.(status := status)
      case _ => i
  }

  function Apply(m: Model, e: Event): Model {
    match e.payload
    case Created(title, severity, description) =>
      m.(incidents := m.incidents + [Incident(e.incidentId, title, description, severity, "open", [])])
    case AttachmentAdded(attachmentId, objectName, filename) =>
      m.(attachments := m.attachments + [Attachment(attachmentId, e.incidentId, objectName, filename)])
    case _ =>
      m.(incidents := seq(|m.incidents|, k requires 0 <= k < |m.incidents| => ApplyTo(m.incidents[k], e)))
  }

  function Replay(es: seq<Event>): Model {
    if es == [] then Model([], []) else Apply(Replay(es[..|es| - 1]), es[|es| - 1])
  }

  /**
   The log alone is coherent: dense ids, incidents numbered in order, nothing said of an incident before it exists.
   */
  ghost predicate LogOk(es: seq<Event>) {
    es == [] ||
    var before, e := es[..|es| - 1], es[|es| - 1];
    && LogOk(before)
    && e.id == |es|
    && var n := |Replay(before).incidents|;
    if e.payload.Created? then e.incidentId == n + 1 else 1 <= e.incidentId <= n
  }

  ghost predicate Inv(s: State) {
    && Replay(s.events) == Model(s.incidents, s.attachments)
    && LogOk(s.events)
    && s.nextEventId == |s.events| + 1
    && s.nextIncidentId == |s.incidents| + 1
    && s.nextAttachmentId == |s.attachments| + 1
    && (forall k :: 0 <= k < |s.attachments| ==> s.attachments[k].id == k + 1)
    && s.objects.Keys == (set a | a in s.attachments :: a.objectName)
  }

  lemma {:induction false} LogFacts(es: seq<Event>)
    requires LogOk(es)
    ensures forall k :: 0 <= k < |es| ==> es[k].id == k + 1 && 1 <= es[k].incidentId <= |Replay(es).incidents|
    ensures forall k :: 0 <= k < |Replay(es).incidents| ==> Replay(es).incidents[k].id == k + 1
  {
    if es != [] {
      var before, e := es[..|es| - 1], es[|es| - 1];
      LogFacts(before);
      var m, m' := Replay(before), Replay(es);
      forall k | 0 <= k < |m'.incidents|
        ensures m'.incidents[k].id == k + 1
      {
        if k < |m.incidents| {
          assert m.incidents[k].id == k + 1;
        }
      }
    }
  }

  /** In a state that satisfies the invariant, `Find` is subtraction. */
  lemma FindIn(s: State, id: int)
    requires Inv(s)
    ensures Find(s.incidents, id) == if 1 <= id <= |s.incidents| then id - 1 else |s.incidents|
  {
    LogFacts(s.events);
    FindDense(Replay(s.events).incidents, id);
  }

  lemma FindDense(incidents: seq<Incident>, id: int)
    requires forall k :: 0 <= k < |incidents| ==> incidents[k].id == k + 1
    ensures Find(incidents, id) == if 1 <= id <= |incidents| then id - 1 else |incidents|
  {
    if 1 <= id <= |incidents| {
      assert incidents[id - 1].id == id;
    }
  }

  lemma CommitReplays(s: State, s': State, id: nat, payload: Payload)
    requires Inv(s) && s'.events == s.events && s'.nextEventId == s.nextEventId
    requires if payload.Created? then id == |s.incidents| + 1 else 1 <= id <= |s.incidents|
    requires Apply(Model(s.incidents, s.attachments), Event(s.nextEventId, id, payload)) ==
      Model(s'.incidents, s'.attachments)
    ensures var t := Commit(s', id, payload); Replay(t.events) == Model(t.incidents, t.attachments) && LogOk(t.events)
  {
    var t := Commit(s', id, payload);
    assert t.events[..|t.events| - 1] == s.events;
  }

  /** An event about incident `id` changes that entry of the read model and no other. */
  lemma ApplyAt(m: Model, e: Event)
    requires forall k :: 0 <= k < |m.incidents| ==> m.incidents[k].id == k + 1
    requires 1 <= e.incidentId <= |m.incidents| && (e.payload.CommentAdded? || e.payload.StatusChanged?)
    ensures var k := e.incidentId - 1;
      Apply(m, e) == m.(incidents := m.incidents[k := ApplyTo(m.incidents[k], e)])
  {
    var k := e.incidentId - 1;
    assert Apply(m, e).incidents == m.incidents[k := ApplyTo(m.incidents[k], e)];
  }

  lemma UpdateKeepsInv(s: State, id: nat, payload: Payload)
    requires Inv(s) && 1 <= id <= |s.incidents| && (payload.CommentAdded? || payload.StatusChanged?)
    ensures var i := ApplyTo(s.incidents[id - 1], Event(s.nextEventId, id, payload));
      Inv(Commit(s.(incidents := s.incidents[id - 1 := i]), id, payload))
  {
    LogFacts(s.events);
    var e := Event(s.nextEventId, id, payload);
    assert forall k :: 0 <= k < |s.incidents| ==> s.incidents[k] == Replay(s.events).incidents[k];
    ApplyAt(Model(s.incidents, s.attachments), e);
    CommitReplays(s, s.(incidents := s.incidents[id - 1 := ApplyTo(s.incidents[id - 1], e)]), id, payload);
  }

  lemma AttachKeepsInv(s: State, id: nat, file: File, objectName: string)
    requires Inv(s) && 1 <= id <= |s.incidents|
    ensures Inv(Handle(s, Attach(id, Some(file), objectName)).0)
  {
    FindIn(s, id);
    var a := Attachment(s.nextAttachmentId, id, objectName, file.filename);
    var s' := s.(objects := s.objects[objectName := file.data], attachments := s.attachments + [a],
                 nextAttachmentId := s.nextAttachmentId + 1);
    CommitReplays(s, s', id, AttachmentAdded(a.id, objectName, a.filename));
    assert (set x | x in s'.attachments :: x.objectName) == (set x | x in s.attachments :: x.objectName) + {objectName};
  }

  lemma CreateKeepsInv(s: State, title: string, severity: string, description: Option<string>)
    requires Inv(s) && title != "" && severity != ""
    ensures Inv(Handle(s, Create(title, severity, description)).0)
  {
    var i := Incident(s.nextIncidentId, title, description, severity, "open", []);
    var s' := s.(incidents := s.incidents + [i], nextIncidentId := s.nextIncidentId + 1);
    CommitReplays(s, s', s.nextIncidentId, Created(title, severity, description));
  }

  lemma HandleKeepsInv(s: State, r: Request)
    requires Inv(s)
    ensures Inv(Handle(s, r).0)
  {
    if !Handle(s, r).1.Refused? {
      match r
      case Create(title, severity, description) =>
        CreateKeepsInv(s, title, severity, description);
      case Comment(id, comment) =>
        FindIn(s, id);
        UpdateKeepsInv(s, id, CommentAdded(comment));
      case SetStatus(_, id, status) =>
        FindIn(s, id);
        UpdateKeepsInv(s, id, StatusChanged(status));
      case Attach(id, file, objectName) =>
        FindIn(s, id);
        AttachKeepsInv(s, id, file.value, objectName);
    } else {
      assert Handle(s, r).0 == s;
    }
  }

  lemma {:induction false} RunKeepsInv(rs: seq<Request>)
    ensures Inv(Run(rs))
  {
    if rs != [] {
      RunKeepsInv(rs[..|rs| - 1]);
      HandleKeepsInv(Run(rs[..|rs| - 1]), rs[|rs| - 1]);
    }
  }

  /**
   Over every run the read model is the fold of the log, ids are dense from 1, and no stored object is orphaned or
   missing.
   */
  lemma {:induction false} ReadModelIsReplay(rs: seq<Request>)
    ensures var s := Run(rs);
      && Replay(s.events) == Model(s.incidents, s.attachments)
      && (forall k :: 0 <= k < |s.events| ==> s.events[k].id == k + 1)
      && (forall k :: 0 <= k < |s.incidents| ==> s.incidents[k].id == k + 1)
      && (forall k :: 0 <= k < |s.attachments| ==> s.attachments[k].id == k + 1)
      && s.objects.Keys == (set a | a in s.attachments :: a.objectName)
  {
    RunKeepsInv(rs);
    LogFacts(Run(rs).events);
  }

  /** Requests either leave the whole state alone or add exactly one event; an event, once logged, is never changed. */
  lemma HandleAppendsOne(s: State, r: Request)
    requires Inv(s)
    ensures var (t, reply) := Handle(s, r);
      if reply.Refused? then t == s else |t.events| == |s.events| + 1 && t.events[..|s.events|] == s.events
  {
  }

  predicate Known(s: State, id: int) {
    exists k :: 0 <= k < |s.incidents| && s.incidents[k].id == id
  }

  /** Exactly when a request is refused, with which code, in the order of the checks; a refusal changes nothing. */
  lemma RefusedExactly(s: State, r: Request)
    ensures var (t, reply) := Handle(s, r);
      && (reply.Refused? ==> t == s)
      && match r
         case Create(title, severity, _) =>
           if title == "" || severity == "" then reply == Refused(400) else !reply.Refused?
         case Comment(id, comment) =>
           if comment == "" then reply == Refused(400)
           else if !Known(s, id) then reply == Refused(404)
           else !reply.Refused?
         case SetStatus(dispatcher, id, status) =>
           if !dispatcher then reply == Refused(403)
           else if status == "" then reply == Refused(400)
           else if !Known(s, id) then reply == Refused(404)
           else !reply.Refused?
         case Attach(id, file, _) =>
           if !Known(s, id) then reply == Refused(404)
           else if file.None? then reply == Refused(400)
           else !reply.Refused?
  {
  }

  /**
   What an accepted request does in a reachable state: incident `id` is entry `id - 1`, and only what is said changes.
   The answer to a comment or a change of status is what a reader of the incident gets from then on.
   */
  lemma AcceptedDoes(s: State, r: Request)
    requires Inv(s) && !Handle(s, r).1.Refused?
    ensures var (t, reply) := Handle(s, r);
      var n := |s.events| + 1;
      match r
      case Create(title, severity, description) =>
        var i := Incident(|s.incidents| + 1, title, description, severity, "open", []);
        && t.incidents == s.incidents + [i] && reply == OkIncident(201, i)
        && t.events == s.events + [Event(n, i.id, Created(title, severity, description))]
        && t.attachments == s.attachments && t.objects == s.objects
      case Comment(id, comment) =>
        && 1 <= id <= |s.incidents|
        && var i := s.incidents[id - 1].(comments := s.incidents[id - 1].comments + [comment]);
        && t.incidents == s.incidents[id - 1 := i] && reply == OkIncident(200, i) && Lookup(t.incidents, id) == Some(i)
        && t.events == s.events + [Event(n, id, CommentAdded(comment))]
        && t.attachments == s.attachments && t.objects == s.objects
      case SetStatus(_, id, status) =>
        && 1 <= id <= |s.incidents|
        && var i := s.incidents[id - 1].(status := status);
        && t.incidents == s.incidents[id - 1 := i] && reply == OkIncident(200, i) && Lookup(t.incidents, id) == Some(i)
        && t.events == s.events + [Event(n, id, StatusChanged(status))]
        && t.attachments == s.attachments && t.objects == s.objects
      case Attach(id, file, objectName) =>
        && 1 <= id <= |s.incidents| && file.Some?
        && var a := Attachment(|s.attachments| + 1, id, objectName, file.value.filename);
        && t.attachments == s.attachments + [a] && reply == OkAttachment(201, a)
        && t.events == s.events + [Event(n, id, AttachmentAdded(a.id, objectName, a.filename))]
        && t.incidents == s.incidents && t.objects == s.objects[objectName := file.value.data]
  {
    match r
    case Create(_, _, _) =>
    case Comment(id, comment) =>
      FindIn(s, id);
      AnswerIsLookup(s, r, id);
    case SetStatus(_, id, status) =>
      FindIn(s, id);
      AnswerIsLookup(s, r, id);
    case Attach(id, _, _) =>
      FindIn(s, id);
  }

  lemma AnswerIsLookup(s: State, r: Request, id: nat)
    requires Inv(s) && 1 <= id <= |s.incidents| && |Handle(s, r).0.incidents| == |s.incidents|
    ensures Lookup(Handle(s, r).0.incidents, id) == Some(Handle(s, r).0.incidents[id - 1])
  {
    HandleKeepsInv(s, r);
    FindIn(Handle(s, r).0, id);
  }

  /** The event is what an admissible request of this kind logs. */
  predicate Logs(r: Request, e: Event) {
    match r
    case Create(title, severity, description) =>
      title != "" && severity != "" && e.payload == Created(title, severity, description)
    case Comment(id, comment) => comment != "" && e.incidentId == id && e.payload == CommentAdded(comment)
    case SetStatus(dispatcher, id, status) =>
      dispatcher && status != "" && e.incidentId == id && e.payload == StatusChanged(status)
    case Attach(id, file, objectName) =>
      file.Some? && e.incidentId == id && e.payload.AttachmentAdded?
      && e.payload.objectName == objectName && e.payload.filename == file.value.filename
  }

  /** Every logged event comes from a request that asked for it; only a dispatcher's for a change of status. */
  lemma {:induction false} EveryEventWasAskedFor(rs: seq<Request>, e: Event)
    requires e in Run(rs).events
    ensures exists k :: 0 <= k < |rs| && Logs(rs[k], e)
  {
    var front, last := rs[..|rs| - 1], rs[|rs| - 1];
    RunKeepsInv(front);
    RefusedExactly(Run(front), last);
    if e in Run(front).events {
      EveryEventWasAskedFor(front, e);
      var k :| 0 <= k < |front| && Logs(front[k], e);
      assert rs[k] == front[k];
    } else {
      AcceptedDoes(Run(front), last);
      assert Logs(rs[|rs| - 1], e);
    }
  }

  /** How many of the requests were not refused. */
  function Accepted(rs: seq<Request>): nat {
    if rs == [] then 0
    else
      Accepted(rs[..|rs| - 1]) + if Handle(Run(rs[..|rs| - 1]), rs[|rs| - 1]).1.Refused? then 0 else 1
  }

  /** The log is append-only over every run, and holds one event for each accepted request. */
  lemma {:induction false} LogOnlyGrows(rs: seq<Request>, n: nat)
    requires n <= |rs|
    ensures Run(rs[..n]).events <= Run(rs).events
    ensures |Run(rs).events| == Accepted(rs)
    decreases |rs|
  {
    if rs != [] {
      var front, last := rs[..|rs| - 1], rs[|rs| - 1];
      RunKeepsInv(front);
      HandleAppendsOne(Run(front), last);
      if n < |rs| {
        assert front[..n] == rs[..n];
        LogOnlyGrows(front, n);
      } else {
        assert rs[..n] == rs;
        LogOnlyGrows(front, |front|);
      }
    }
  }

  lemma {:induction false} ObjectKept(s: State, after: seq<Request>, name: string)
    requires name in s.objects
    requires forall k :: 0 <= k < |after| && after[k].Attach? ==> after[k].objectName != name
    ensures var t := RunFrom(s, after);
      name in t.objects && t.objects[name] == s.objects[name] && s.attachments <= t.attachments
  {
    if after != [] {
      ObjectKept(s, after[..|after| - 1], name);
    }
  }

  function RunFrom(s: State, rs: seq<Request>): State {
    if rs == [] then s else Handle(RunFrom(s, rs[..|rs| - 1]), rs[|rs| - 1]).0
  }

  lemma AttachStores(s: State, id: nat, file: File, name: string)
    requires Inv(s) && 1 <= id <= |s.incidents|
    ensures var (t, reply) := Handle(s, Attach(id, Some(file), name));
      && reply == OkAttachment(201, Attachment(|s.attachments| + 1, id, name, file.filename))
      && t.attachments == s.attachments + [reply.attachment]
      && t.objects == s.objects[name := file.data]
  {
    FindIn(s, id);
  }

  /**
   An uploaded file stays stored, byte for byte, under the name its attachment carries, as long as names do not
   repeat.
   */
  lemma {:induction false} UploadSurvives(s: State, id: nat, file: File, name: string, after: seq<Request>)
    requires Inv(s) && 1 <= id <= |s.incidents|
    requires forall k :: 0 <= k < |after| && after[k].Attach? ==> after[k].objectName != name
    ensures var (t, reply) := Handle(s, Attach(id, Some(file), name));
      var u := RunFrom(t, after);
      && reply.OkAttachment? && reply.attachment.objectName == name && reply.attachment.filename == file.filename
      && reply.attachment in u.attachments
      && name in u.objects && u.objects[name] == file.data
  {
    AttachStores(s, id, file, name);
    var (t, reply) := Handle(s, Attach(id, Some(file), name));
    ObjectKept(t, after, name);
    var u := RunFrom(t, after);
    assert u.attachments[|s.attachments|] == t.attachments[|s.attachments|] == reply.attachment;
  }

  // ---------------------------------------------------------------------
  // The read model of one incident in closed form
  // ---------------------------------------------------------------------

  function CommentsOf(es: seq<Event>, id: int): seq<string> {
    if es == [] then []
    else
      var e := es[|es| - 1];
      CommentsOf(es[..|es| - 1], id)
      + if e.incidentId == id && e.payload.CommentAdded? then [e.payload.comment] else []
  }

  /** The status that the last status change of an incident in the log has set. */
  function LastStatus(es: seq<Event>, id: int): Option<string> {
    if es == [] then None
    else
      var e := es[|es| - 1];
      if e.incidentId == id && e.payload.StatusChanged? then Some(e.payload.status)
      else LastStatus(es[..|es| - 1], id)
  }

  /** Nothing is said of an incident before its creation. */
  lemma {:induction false} NothingYet(es: seq<Event>, id: int)
    requires LogOk(es) && |Replay(es).incidents| < id
    ensures CommentsOf(es, id) == [] && LastStatus(es, id) == None
  {
    if es != [] {
      LogFacts(es);
      NothingYet(es[..|es| - 1], id);
    }
  }

  /** The number of the event that created the incident. */
  function CreationId(es: seq<Event>, id: int): nat {
    if es == [] then 0
    else
      var e := es[|es| - 1];
      if e.incidentId == id && e.payload.Created? then e.id else CreationId(es[..|es| - 1], id)
  }

  ghost predicate Means(i: Incident, es: seq<Event>, id: int) {
    && i.id == id && i.comments == CommentsOf(es, id)
    && (var status := LastStatus(es, id); i.status == if status.Some? then status.value else "open")
    && Event(CreationId(es, id), i.id, Created(i.title, i.severity, i.description)) in es
  }

  lemma MeansGrows(i: Incident, before: seq<Event>, e: Event, id: int)
    requires Means(i, before, id) && (e.incidentId == id ==> !e.payload.Created?)
    ensures Means(ApplyTo(i, e), before + [e], id)
  {
    var es := before + [e];
    assert es[..|es| - 1] == before && es[|es| - 1] == e;
    assert Event(CreationId(before, id), i.id, Created(i.title, i.severity, i.description)) in es;
  }

  /** What one more event does to an entry of the read model, and which entry a creation adds. */
  lemma EntryAfter(es: seq<Event>, id: int)
    requires LogOk(es) && es != [] && 1 <= id <= |Replay(es).incidents|
    ensures var before, e := es[..|es| - 1], es[|es| - 1];
      var m := Replay(before);
      && LogOk(before)
      && (id <= |m.incidents| ==>
            Replay(es).incidents[id - 1] == ApplyTo(m.incidents[id - 1], e)
            && (e.incidentId == id ==> !e.payload.Created?))
      && (id > |m.incidents| ==>
            e.incidentId == id && e.payload.Created?
            && Replay(es).incidents[id - 1] ==
               Incident(id, e.payload.title, e.payload.description, e.payload.severity, "open", []))
  {
    var before, e := es[..|es| - 1], es[|es| - 1];
    LogFacts(before);
    var m := Replay(before);
    assert id <= |m.incidents| ==> m.incidents[id - 1].id == id;
  }

  lemma NewMeans(i: Incident, before: seq<Event>, e: Event, id: int)
    requires CommentsOf(before, id) == [] && LastStatus(before, id) == None
    requires e.incidentId == id && e.payload.Created?
    requires i == Incident(e.incidentId, e.payload.title, e.payload.description, e.payload.severity, "open", [])
    ensures Means(i, before + [e], id)
  {
    var es := before + [e];
    assert es[..|es| - 1] == before && es[|es| - 1] == e;
    assert e in es;
  }

  /**
   An incident is its creation with all its comments, in order, and the last status set, or "open": for every log of a
   reachable state and every incident in it.
   */
  lemma {:induction false} IncidentMeans(es: seq<Event>, id: int)
    requires LogOk(es) && 1 <= id <= |Replay(es).incidents|
    ensures Means(Replay(es).incidents[id - 1], es, id)
  {
    var before, e := es[..|es| - 1], es[|es| - 1];
    assert es == before + [e];
    EntryAfter(es, id);
    if id <= |Replay(before).incidents| {
      IncidentMeans(before, id);
      MeansGrows(Replay(before).incidents[id - 1], before, e, id);
    } else {
      NothingYet(before, id);
      NewMeans(Replay(es).incidents[id - 1], before, e, id);
    }
  }

  // ---------------------------------------------------------------------
  // What a reader of one incident can see of an event
  // ---------------------------------------------------------------------

  /**
   The JSON of the incident, read when the log was es, shows event e: a creation by its fields, a comment at its place,
   a status change by the status that is in force in es. Attachments are not part of that JSON.
   */
  ghost predicate Shows(content: Option<Incident>, es: seq<Event>, e: Event)
    requires 1 <= e.id <= |es|
  {
    && content.Some?
    && content.value.id == e.incidentId
    && match e.payload
       case Created(title, severity, description) =>
         content.value.title == title && content.value.severity == severity && content.value.description == description
       case CommentAdded(comment) =>
         var k := |CommentsOf(es[..e.id - 1], e.incidentId)|;
         k < |content.value.comments| && content.value.comments[k] == comment
       case StatusChanged(_) => LastStatus(es, e.incidentId) == Some(content.value.status)
       case AttachmentAdded(_, _, _) => false
  }

  lemma {:induction false} LogOkPrefix(es: seq<Event>, n: nat)
    requires LogOk(es) && n <= |es|
    ensures LogOk(es[..n])
  {
    if n < |es| {
      assert es[..|es| - 1][..n] == es[..n];
      LogOkPrefix(es[..|es| - 1], n);
    } else {
      assert es[..n] == es;
    }
  }

  /** One more event of the log acts on the incident that a reader looks up as `ApplyTo` says. */
  lemma LookupAfter(before: seq<Event>, last: Event, id: int)
    requires LogOk(before + [last]) && LogOk(before)
    requires 1 <= id <= |Replay(before).incidents|
    ensures Lookup(Replay(before + [last]).incidents, id) == Some(ApplyTo(Replay(before).incidents[id - 1], last))
    ensures Lookup(Replay(before).incidents, id) == Some(Replay(before).incidents[id - 1])
  {
    var es, m := before + [last], Replay(before);
    assert es[..|es| - 1] == before && Replay(es) == Apply(m, last);
    LogFacts(before);
    LogFacts(es);
    FindDense(m.incidents, id);
    FindDense(Replay(es).incidents, id);
  }

  /** One more event does not hide what the incident's JSON already shows. */
  lemma ApplyKeepsShowing(i: Incident, before: seq<Event>, last: Event, e: Event)
    requires 1 <= e.id <= |before| && Shows(Some(i), before, e)
    ensures Shows(Some(ApplyTo(i, last)), before + [last], e)
  {
    var es := before + [last];
    assert es[..|es| - 1] == before && es[|es| - 1] == last;
    assert es[..e.id - 1] == before[..e.id - 1];
  }

  /** The incident's JSON shows an event as soon as it is logged, unless it is an attachment. */
  lemma LastShows(es: seq<Event>)
    requires LogOk(es) && es != [] && !es[|es| - 1].payload.AttachmentAdded?
    ensures var e := es[|es| - 1]; e.id == |es| && Shows(Lookup(Replay(es).incidents, e.incidentId), es, e)
  {
    var before, e := es[..|es| - 1], es[|es| - 1];
    LogFacts(before);
    LogFacts(es);
    FindDense(Replay(es).incidents, e.incidentId);
    if e.payload.CommentAdded? {
      IncidentMeans(before, e.incidentId);
    }
  }

  /** A read of the incident made after e was logged shows e, whatever came in between, unless e is an attachment. */
  lemma {:induction false} ReplayShows(es: seq<Event>, e: Event)
    requires LogOk(es) && e in es && !e.payload.AttachmentAdded?
    ensures 1 <= e.id <= |es|
    ensures Shows(Lookup(Replay(es).incidents, e.incidentId), es, e)
    decreases |es|
  {
    LogFacts(es);
    var before, last := es[..|es| - 1], es[|es| - 1];
    assert before + [last] == es;
    if e == last {
      LastShows(es);
    } else {
      ReplayShows(before, e);
      LogFacts(before);
      LookupAfter(before, last, e.incidentId);
      ApplyKeepsShowing(Replay(before).incidents[e.incidentId - 1], before, last, e);
    }
  }
}
