/**
 The event-sourced Incident aggregate, its stores, and the handlers of the
 incident service interleaved at their awaits.
 */
module Aggregate {
  import opened Common

  datatype Event =
    | IncidentCreated(title: string, description: string, org: string)
    | IncidentUpdated(newTitle: Option<string>, newDescription: Option<string>)
    | IncidentSubmitted
    | MessageAdded(message: string)

  datatype Status = Draft | Submitted | Closed

  datatype State = State(
    id: string, title: string, description: string, status: Status, org: string, messages: seq<string>)

  function Blank(id: string): State {
    State(id, "", "", Draft, "", [])
  }

  function Applied(s: State, e: Event): State {
    match e
    case IncidentCreated(title, description, org) =>
      s.(title := title, description := description, org := org, status := Draft)
    case IncidentUpdated(title, description) =>
      s.(title := if title.Some? then title.value else s.title,
         description := if description.Some? then description.value else s.description)
    case IncidentSubmitted => s.(status := Submitted)
    case MessageAdded(message) => s.(messages := s.messages + [message])
  }

  function Replay(id: string, es: seq<Event>): State {
    if es == [] then Blank(id) else Applied(Replay(id, es[..|es| - 1]), es[|es| - 1])
  }

  class Incident {
    const id: string
    var title: string
    var description: string
    var status: Status
    var org: string
    var messages: seq<string>

    constructor (id: string, org: string)
      ensures View() == Blank(id).(org := org)
    {
      this.id, title, description, status, this.org, messages := id, "", "", Draft, org, [];
    }

    function View(): State
      reads this
    {
      State(id, title, description, status, org, messages)
    }

    static method Create(id: string, title: string, description: string, org: string) returns (i: Incident, e: Event)
      ensures fresh(i) && e == IncidentCreated(title, description, org) && i.View() == Replay(id, [e])
    {
      e := IncidentCreated(title, description, org);
      i := new Incident(id, org);
      i.Apply(e);
      assert [e][..0] == [];
    }

    static method From(id: string, events: seq<Event>) returns (i: Incident)
      ensures fresh(i) && i.View() == Replay(id, events)
    {
      i := new Incident(id, "");
      for k := 0 to |events|
        invariant fresh(i) && i.View() == Replay(id, events[..k])
      {
        assert events[..k + 1][..k] == events[..k];
        i.Apply(events[k]);
      }
      assert events[..|events|] == events;
    }

    method Apply(e: Event)
      modifies this
      ensures View() == Applied(old(View()), e)
    {
      match e
      case IncidentCreated(newTitle, newDescription, newOrg) =>
        title, description, org, status := newTitle, newDescription, newOrg, Draft;
      case IncidentUpdated(newTitle, newDescription) =>
        if newTitle.Some? {
          title := newTitle.value;
        }
        if newDescription.Some? {
          description := newDescription.value;
        }
      case IncidentSubmitted =>
        status := Submitted;
      case MessageAdded(message) =>
        messages := messages + [message];
    }

    method AddMessage(message: string) returns (e: Event)
      modifies this
      ensures e == MessageAdded(message) && View() == Applied(old(View()), e)
    {
      e := MessageAdded(message);
      Apply(e);
    }

    /** `None` is the exception; the aggregate is then unchanged. */
    method Submit() returns (e: Option<Event>)
      modifies this
      ensures e == if old(status) == Draft then Some(IncidentSubmitted) else None
      ensures View() == if e.Some? then Applied(old(View()), e.value) else old(View())
    {
      if status != Draft {
        return None;
      }
      Apply(IncidentSubmitted);
      e := Some(IncidentSubmitted);
    }

    method Update(newTitle: Option<string>, newDescription: Option<string>) returns (e: Event)
      modifies this
      ensures e == IncidentUpdated(newTitle, newDescription) && View() == Applied(old(View()), e)
    {
      e := IncidentUpdated(newTitle, newDescription);
      Apply(e);
    }
  }

  // ---------------------------------------------------------------------
  // The in-memory store
  // ---------------------------------------------------------------------

  type Logs = map<string, seq<Event>>

  function LogOf(logs: Logs, id: string): seq<Event> {
    if id in logs then logs[id] else []
  }

  /** A JavaScript array: `load` hands out the object, not its contents. */
  class EventArray {
    var items: seq<Event>

    constructor ()
      ensures items == []
    {
      items := [];
    }
  }

  class InMemoryEventStore {
    var events: map<string, EventArray>

    constructor ()
      ensures Valid() && Contents() == map[]
    {
      events := map[];
    }

    ghost predicate Valid()
      reads this
    {
      forall i, j :: i in events && j in events && i != j ==> events[i] != events[j]
    }

    ghost function Contents(): Logs
      reads this, events.Values
    {
      map id | id in events :: events[id].items
    }

    method Append(id: string, e: Event)
      requires Valid()
      modifies this, if id in events then {events[id]} else {}
      ensures Valid() && Contents() == old(Contents())[id := LogOf(old(Contents()), id) + [e]]
      ensures forall i :: i in old(events) ==> i in events && events[i] == old(events)[i]
      ensures id !in old(events) ==> id in events && fresh(events[id])
    {
      var arr;
      if id in events {
        arr := events[id];
      } else {
        arr := new EventArray();
      }
      arr.items := arr.items + [e];
      events := events[id := arr];
    }

    /** The live array of a known incident; a new empty one that the store never sees otherwise. */
    method Load(id: string) returns (arr: EventArray)
      requires Valid()
      ensures if id in events then arr == events[id] else fresh(arr) && arr.items == []
    {
      if id in events {
        arr := events[id];
      } else {
        arr := new EventArray();
      }
    }
  }

  datatype Reply = NotFound | Failed | Answer(state: State)

  /** `arr` is what `Load(id)` returned some time ago. */
  ghost predicate Held(store: InMemoryEventStore, id: string, arr: EventArray)
    reads store, arr
  {
    if id in store.events && store.events[id] == arr then true
    else arr.items == [] && arr !in store.events.Values
  }

  function SendResumed(id: string, es: seq<Event>, message: string): (seq<Event>, Reply) {
    if es == [] then (es, NotFound)
    else
      var e := MessageAdded(message);
      (es + [e], Answer(Applied(Replay(id, es), e)))
  }

  function SubmitResumed(id: string, es: seq<Event>): (seq<Event>, Reply) {
    if es == [] then (es, NotFound)
    else if Replay(id, es).status != Draft then (es, Failed)
    else (es + [IncidentSubmitted], Answer(Applied(Replay(id, es), IncidentSubmitted)))
  }

  /** The message handler from the end of its first await to its second: no other handler runs in between. */
  method ResumeSend(store: InMemoryEventStore, id: string, arr: EventArray, message: string) returns (reply: Reply)
    requires store.Valid() && Held(store, id, arr)
    modifies store, arr
    ensures reply == SendResumed(id, old(arr.items), message).1
    ensures store.Contents() ==
      if reply.Answer? then old(store.Contents())[id := SendResumed(id, old(arr.items), message).0]
      else old(store.Contents())
  {
    if |arr.items| == 0 {
      return NotFound;
    }
    var incident := Incident.From(id, arr.items);
    var event := incident.AddMessage(message);
    store.Append(id, event);
    reply := Answer(incident.View());
  }

  method ResumeSubmit(store: InMemoryEventStore, id: string, arr: EventArray) returns (reply: Reply)
    requires store.Valid() && Held(store, id, arr)
    modifies store, arr
    ensures reply == SubmitResumed(id, old(arr.items)).1
    ensures store.Contents() ==
      if reply.Answer? then old(store.Contents())[id := SubmitResumed(id, old(arr.items)).0] else old(store.Contents())
  {
    if |arr.items| == 0 {
      return NotFound;
    }
    var incident := Incident.From(id, arr.items);
    var event := incident.Submit();
    if event.None? {
      return Failed;
    }
    store.Append(id, event.value);
    reply := Answer(incident.View());
  }

  // ---------------------------------------------------------------------
  // Handlers interleaved
  // ---------------------------------------------------------------------

  /**
   In memory a load of a known incident yields the live array; Postgres yields the rows read, and a writing request is
   resumed at the moment its INSERT takes effect, so that it waits until then.
   */
  datatype Kind = InMemory | Postgres

  datatype Loaded = Live | Copy(events: seq<Event>)

  datatype Job = Send(message: string) | Submit | Read

  datatype Request =
    | Suspended(id: string, job: Job, loaded: Loaded)
    | Answered(id: string, own: Option<Event>, state: State)
    | Refused(id: string, reply: Reply)

  datatype System = System(kind: Kind, logs: Logs, requests: seq<Request>)

  datatype Step =
    | Create(id: string, title: string, description: string, org: string)
    | Arrive(id: string, job: Job)
    | Resume(k: nat)

  /** What a suspended handler sees when it goes on. */
  function EventsOf(s: System, r: Request): seq<Event>
    requires r.Suspended?
  {
    if r.loaded.Live? then LogOf(s.logs, r.id) else r.loaded.events
  }

  /** A random UUID is assumed to be new: creation under a known id does not happen. */
  function Next(s: System, step: Step): System {
    match step
    case Create(id, title, description, org) =>
      if id in s.logs then s
      else
        var e := IncidentCreated(title, description, org);
        s.(logs := s.logs[id := [e]], requests := s.requests + [Answered(id, Some(e), Replay(id, [e]))])
    case Arrive(id, job) =>
      var loaded := if s.kind == InMemory && id in s.logs then Live else Copy(LogOf(s.logs, id));
      s.(requests := s.requests + [Suspended(id, job, loaded)])
    case Resume(k) =>
      if k >= |s.requests| || !s.requests[k].Suspended? then s
      else
        var r := s.requests[k];
        var es := EventsOf(s, r);
        match r.job
        case Read =>
          var answer := if es == [] then Refused(r.id, NotFound) else Answered(r.id, None, Replay(r.id, es));
          s.(requests := s.requests[k := answer])
        case Send(message) =>
          Finished(s, k, MessageAdded(message), SendResumed(r.id, es, message).1)
        case Submit =>
          Finished(s, k, IncidentSubmitted, SubmitResumed(r.id, es).1)
  }

  /** The append goes to the store's log, whatever the handler had loaded. */
  function Finished(s: System, k: nat, e: Event, reply: Reply): System
    requires k < |s.requests|
  {
    var id := s.requests[k].id;
    if reply.Answer? then
      s.(logs := s.logs[id := LogOf(s.logs, id) + [e]], requests := s.requests[k := Answered(id, Some(e), reply.state)])
    else s.(requests := s.requests[k := Refused(id, reply)])
  }

  function Run(kind: Kind, steps: seq<Step>): System {
    if steps == [] then System(kind, map[], []) else Next(Run(kind, steps[..|steps| - 1]), steps[|steps| - 1])
  }

  function Count(es: seq<Event>): nat {
    if es == [] then 0 else Count(es[..|es| - 1]) + if es[|es| - 1].IncidentSubmitted? then 1 else 0
  }

  ghost predicate CreatedFirst(es: seq<Event>) {
    es != [] && es[0].IncidentCreated? && forall k :: 1 <= k < |es| ==> !es[k].IncidentCreated?
  }

  lemma {:induction false} DraftUntilSubmitted(id: string, es: seq<Event>)
    requires CreatedFirst(es)
    ensures Replay(id, es).status == if Count(es) == 0 then Draft else Submitted
  {
    if |es| == 1 {
      assert es[..0] == [];
    } else {
      DraftUntilSubmitted(id, es[..|es| - 1]);
    }
  }

  // ---------------------------------------------------------------------
  // What a log says
  // ---------------------------------------------------------------------

  /** The texts of the messages, in order. */
  function Texts(es: seq<Event>): seq<string> {
    if es == [] then []
    else
      var e := es[|es| - 1];
      Texts(es[..|es| - 1]) + if e.MessageAdded? then [e.message] else []
  }

  /** The title that the last update to give one has given. */
  function LastTitle(es: seq<Event>): Option<string> {
    if es == [] then None
    else
      var e := es[|es| - 1];
      if e.IncidentUpdated? && e.newTitle.Some? then e.newTitle else LastTitle(es[..|es| - 1])
  }

  function LastDescription(es: seq<Event>): Option<string> {
    if es == [] then None
    else
      var e := es[|es| - 1];
      if e.IncidentUpdated? && e.newDescription.Some? then e.newDescription else LastDescription(es[..|es| - 1])
  }

  /**
   The replayed state, field by field: the last title and description given, the messages in the order in which they
   were added, submitted or not, and from the creation whatever was not updated.
   */
  lemma {:induction false} ReplayMeans(id: string, es: seq<Event>)
    requires CreatedFirst(es)
    ensures var s, title, description := Replay(id, es), LastTitle(es), LastDescription(es);
      && s.id == id && s.org == es[0].org && s.messages == Texts(es)
      && s.title == (if title.Some? then title.value else es[0].title)
      && s.description == (if description.Some? then description.value else es[0].description)
      && (s.status == Submitted <==> IncidentSubmitted in es) && (s.status == Draft <==> IncidentSubmitted !in es)
  {
    var front, e := es[..|es| - 1], es[|es| - 1];
    assert es == front + [e];
    if |es| == 1 {
      assert front == [] && Replay(id, front) == Blank(id);
      assert Texts(front) == [] && LastTitle(front) == None && LastDescription(front) == None;
    } else {
      ReplayMeans(id, front);
    }
  }

  // ---------------------------------------------------------------------
  // What every reachable state satisfies, with either store
  // ---------------------------------------------------------------------

  /** The answer is the replay of the prefix of the log that ends in the request's own event. */
  ghost predicate IsPrefixReplay(logs: Logs, r: Request)
    requires r.Answered?
  {
    && r.id in logs
    && exists n :: 1 <= n <= |logs[r.id]| && (r.own.Some? ==> logs[r.id][n - 1] == r.own.value)
         && r.state == Replay(r.id, logs[r.id][..n])
  }

  /** The request wrote to incident id: any event, or a submission. */
  predicate Wrote(r: Request, id: string, submission: bool) {
    r.Answered? && r.id == id && r.own.Some? && (submission ==> r.own.value.IncidentSubmitted?)
  }

  function Writes(rs: seq<Request>, id: string, submission: bool): nat {
    if rs == [] then 0
    else Writes(rs[..|rs| - 1], id, submission) + if Wrote(rs[|rs| - 1], id, submission) then 1 else 0
  }

  /** A copy is a prefix of the log, an in-memory answer a replay of one, and a failed submit finds a submission. */
  ghost predicate RequestOk(s: System, r: Request) {
    match r
    case Suspended(id, _, Live) => s.kind == InMemory && id in s.logs
    case Suspended(id, _, Copy(events)) => events <= LogOf(s.logs, id) && (s.kind == InMemory ==> events == [])
    case Answered(_, _, _) => s.kind == InMemory ==> IsPrefixReplay(s.logs, r)
    case Refused(id, reply) => !reply.Answer? && (reply.Failed? ==> Count(LogOf(s.logs, id)) > 0)
  }

  ghost predicate Inv(s: System) {
    && (forall id :: id in s.logs ==> CreatedFirst(s.logs[id]))
    && (s.kind == InMemory ==> forall id :: id in s.logs ==> Count(s.logs[id]) <= 1)
    && (forall id :: Writes(s.requests, id, false) == |LogOf(s.logs, id)|)
    && (forall id :: Writes(s.requests, id, true) == Count(LogOf(s.logs, id)))
    && (forall k :: 0 <= k < |s.requests| ==> RequestOk(s, s.requests[k]))
  }

  lemma {:induction false} WritesUpdate(rs: seq<Request>, k: nat, r: Request, id: string, submission: bool)
    requires k < |rs| && rs[k].Suspended?
    ensures Writes(rs[k := r], id, submission) == Writes(rs, id, submission) + if Wrote(r, id, submission) then 1 else 0
  {
    if k == |rs| - 1 {
      assert rs[k := r][..k] == rs[..k];
    } else {
      assert rs[k := r][..|rs| - 1] == rs[..|rs| - 1][k := r];
      WritesUpdate(rs[..|rs| - 1], k, r, id, submission);
    }
  }

  lemma CountSnoc(es: seq<Event>, e: Event)
    ensures Count(es + [e]) == Count(es) + if e.IncidentSubmitted? then 1 else 0
  {
    assert (es + [e])[..|es|] == es;
  }

  lemma PrefixReplayGrows(logs: Logs, r: Request, id: string, e: Event)
    requires r.Answered? && IsPrefixReplay(logs, r)
    ensures IsPrefixReplay(logs[id := LogOf(logs, id) + [e]], r)
  {
    var n :| 1 <= n <= |logs[r.id]| && (r.own.Some? ==> logs[r.id][n - 1] == r.own.value)
      && r.state == Replay(r.id, logs[r.id][..n]);
    var logs' := logs[id := LogOf(logs, id) + [e]];
    assert logs'[r.id][..n] == logs[r.id][..n];
  }

  /** One more event in a log spoils no other request. */
  lemma RequestGrows(s: System, t: System, r: Request, id: string, e: Event)
    requires RequestOk(s, r) && t.kind == s.kind && t.logs == s.logs[id := LogOf(s.logs, id) + [e]]
    ensures RequestOk(t, r)
  {
    CountSnoc(LogOf(s.logs, id), e);
    if r.Answered? && s.kind == InMemory {
      PrefixReplayGrows(s.logs, r, id, e);
    }
  }

  /** The answer to request k is the replay of the log it extends by e. */
  lemma FinishAnswers(s: System, k: nat, e: Event)
    requires Inv(s) && k < |s.requests| && s.requests[k].Suspended? && EventsOf(s, s.requests[k]) != []
    ensures var r := s.requests[k];
      var t := Finished(s, k, e, Answer(Applied(Replay(r.id, EventsOf(s, r)), e)));
      r.id in s.logs && RequestOk(t, t.requests[k])
  {
    var r := s.requests[k];
    assert RequestOk(s, r);
    var log := s.logs[r.id];
    assert (log + [e])[..|log| + 1] == log + [e] && (log + [e])[..|log|] == log;
  }

  lemma FinishCounts(s: System, k: nat, e: Event, state: State, id: string)
    requires Inv(s) && k < |s.requests| && s.requests[k].Suspended?
    ensures var t := Finished(s, k, e, Answer(state));
      && Writes(t.requests, id, false) == |LogOf(t.logs, id)|
      && Writes(t.requests, id, true) == Count(LogOf(t.logs, id))
  {
    var r := Finished(s, k, e, Answer(state)).requests[k];
    CountSnoc(LogOf(s.logs, s.requests[k].id), e);
    WritesUpdate(s.requests, k, r, id, false);
    WritesUpdate(s.requests, k, r, id, true);
  }

  /** Appending e, which the handler replayed and admitted, and answering request k with the new state. */
  lemma FinishKeepsInv(s: System, k: nat, e: Event)
    requires Inv(s) && k < |s.requests| && s.requests[k].Suspended? && !e.IncidentCreated?
    requires var es := EventsOf(s, s.requests[k]); es != [] && (e.IncidentSubmitted? ==> Count(es) == 0)
    ensures var r := s.requests[k];
      Inv(Finished(s, k, e, Answer(Applied(Replay(r.id, EventsOf(s, r)), e))))
  {
    var r := s.requests[k];
    var state := Applied(Replay(r.id, EventsOf(s, r)), e);
    var t := Finished(s, k, e, Answer(state));
    assert RequestOk(s, r);
    FinishAnswers(s, k, e);
    CountSnoc(s.logs[r.id], e);
    forall i
      ensures Writes(t.requests, i, false) == |LogOf(t.logs, i)|
      ensures Writes(t.requests, i, true) == Count(LogOf(t.logs, i))
    {
      FinishCounts(s, k, e, state, i);
    }
    forall j | 0 <= j < |t.requests|
      ensures RequestOk(t, t.requests[j])
    {
      if j != k {
        RequestGrows(s, t, s.requests[j], r.id, e);
      }
    }
  }

  lemma RefuseKeepsInv(s: System, k: nat, r: Request)
    requires Inv(s) && k < |s.requests| && s.requests[k].Suspended?
    requires (r.Refused? || (r.Answered? && r.own.None?)) && RequestOk(s, r)
    ensures Inv(s.(requests := s.requests[k := r]))
  {
    var t := s.(requests := s.requests[k := r]);
    forall i
      ensures Writes(t.requests, i, false) == |LogOf(s.logs, i)|
      ensures Writes(t.requests, i, true) == Count(LogOf(s.logs, i))
    {
      WritesUpdate(s.requests, k, r, i, false);
      WritesUpdate(s.requests, k, r, i, true);
    }
    forall j | 0 <= j < |t.requests|
      ensures RequestOk(t, t.requests[j])
    {
      assert RequestOk(s, t.requests[j]);
    }
  }

  lemma {:induction false} CountPrefix(es: seq<Event>, fs: seq<Event>)
    requires es <= fs
    ensures Count(es) <= Count(fs)
  {
    if |es| == |fs| {
      assert es == fs;
    } else {
      assert es <= fs[..|fs| - 1];
      CountPrefix(es, fs[..|fs| - 1]);
    }
  }

  lemma ResumeKeepsInv(s: System, k: nat)
    requires Inv(s) && k < |s.requests| && s.requests[k].Suspended?
    ensures Inv(Next(s, Resume(k)))
  {
    var r := s.requests[k];
    var es := EventsOf(s, r);
    assert RequestOk(s, r);
    if es == [] {
      RefuseKeepsInv(s, k, Refused(r.id, NotFound));
    } else {
      CreatedPrefix(es, LogOf(s.logs, r.id));
      DraftUntilSubmitted(r.id, es);
      match r.job
      case Read =>
        assert es[..|es|] == es;
        RefuseKeepsInv(s, k, Answered(r.id, None, Replay(r.id, es)));
      case Send(message) =>
        FinishKeepsInv(s, k, MessageAdded(message));
      case Submit =>
        if Count(es) == 0 {
          FinishKeepsInv(s, k, IncidentSubmitted);
        } else {
          CountPrefix(es, LogOf(s.logs, r.id));
          RefuseKeepsInv(s, k, Refused(r.id, Failed));
        }
    }
  }

  lemma CreatedPrefix(es: seq<Event>, log: seq<Event>)
    requires es != [] && es <= log && CreatedFirst(log)
    ensures CreatedFirst(es)
  {
    assert forall k :: 0 <= k < |es| ==> es[k] == log[k];
  }

  lemma CreateKeepsInv(s: System, id: string, e: Event)
    requires Inv(s) && id !in s.logs && e.IncidentCreated?
    ensures Inv(Next(s, Create(id, e.title, e.description, e.org)))
  {
    var t := Next(s, Create(id, e.title, e.description, e.org));
    assert t.requests[..|s.requests|] == s.requests;
    assert [e][..0] == [] && [e][..1] == [e];
    assert LogOf(s.logs, id) + [e] == [e];
    CountSnoc([], e);
    forall j | 0 <= j < |t.requests|
      ensures RequestOk(t, t.requests[j])
    {
      if j < |s.requests| {
        RequestGrows(s, t, s.requests[j], id, e);
      } else {
        assert t.logs[id][..1] == [e];
      }
    }
  }

  lemma ArriveKeepsInv(s: System, id: string, job: Job)
    requires Inv(s)
    ensures Inv(Next(s, Arrive(id, job)))
  {
    var t := Next(s, Arrive(id, job));
    assert t.requests[..|s.requests|] == s.requests;
    forall j | 0 <= j < |t.requests|
      ensures RequestOk(t, t.requests[j])
    {
      assert j < |s.requests| ==> RequestOk(s, s.requests[j]);
    }
  }

  lemma NextKeepsInv(s: System, step: Step)
    requires Inv(s)
    ensures Inv(Next(s, step))
  {
    match step
    case Create(id, title, description, org) =>
      if id !in s.logs {
        CreateKeepsInv(s, id, IncidentCreated(title, description, org));
      }
    case Arrive(id, job) =>
      ArriveKeepsInv(s, id, job);
    case Resume(k) =>
      if k < |s.requests| && s.requests[k].Suspended? {
        ResumeKeepsInv(s, k);
      }
  }

  lemma {:induction false} RunKeepsInv(kind: Kind, steps: seq<Step>)
    ensures Run(kind, steps).kind == kind && Inv(Run(kind, steps))
  {
    if steps != [] {
      RunKeepsInv(kind, steps[..|steps| - 1]);
      NextKeepsInv(Run(kind, steps[..|steps| - 1]), steps[|steps| - 1]);
    }
  }

  /**
   With the in-memory store, under every interleaving at the awaits: each log starts with its only IncidentCreated
   and holds at most one IncidentSubmitted, every successful response is the replay of the log up to its own event,
   the events of a log are exactly as many as its successful writes, and a submit only fails if there was one before.
   */
  lemma {:induction false} HandlersAreAtomic(steps: seq<Step>)
    ensures var s := Run(InMemory, steps);
      && (forall id :: id in s.logs ==> CreatedFirst(s.logs[id]) && Count(s.logs[id]) <= 1)
      && (forall id :: Writes(s.requests, id, false) == |LogOf(s.logs, id)|)
      && (forall k :: 0 <= k < |s.requests| && s.requests[k].Answered? ==> IsPrefixReplay(s.logs, s.requests[k]))
      && (forall k :: 0 <= k < |s.requests| && s.requests[k].Refused? && s.requests[k].reply.Failed? ==>
            Count(LogOf(s.logs, s.requests[k].id)) == 1)
  {
    RunKeepsInv(InMemory, steps);
    var s := Run(InMemory, steps);
    assert forall k :: 0 <= k < |s.requests| ==> RequestOk(s, s.requests[k]);
  }

  /** A new incident's log is its creation, and so is the answer. */
  lemma CreateDoes(s: System, id: string, title: string, description: string, org: string)
    requires id !in s.logs
    ensures var t := Next(s, Create(id, title, description, org));
      && t.logs == s.logs[id := [IncidentCreated(title, description, org)]]
      && t.requests == s.requests +
         [Answered(id, Some(IncidentCreated(title, description, org)), State(id, title, description, Draft, org, []))]
  {
    var e := IncidentCreated(title, description, org);
    assert [e][..0] == [];
    assert Replay(id, [e]) == Applied(Blank(id), e);
  }

  /** A load takes the whole log as it is, and in memory keeps following it. */
  lemma ArriveDoes(s: System, id: string, job: Job)
    ensures var t := Next(s, Arrive(id, job));
      && t.logs == s.logs && |t.requests| == |s.requests| + 1 && t.requests[..|s.requests|] == s.requests
      && t.requests[|s.requests|].Suspended? && t.requests[|s.requests|].id == id && t.requests[|s.requests|].job == job
      && (id in s.logs ==> EventsOf(t, t.requests[|s.requests|]) == s.logs[id])
      && (id !in s.logs ==> t.requests[|s.requests|].loaded == Copy([]))
      && (s.kind == InMemory && id in s.logs <==> t.requests[|s.requests|].loaded.Live?)
  {
  }

  /** A message is added to the log and comes last in the answer. */
  lemma SendDoes(s: System, k: nat, message: string)
    requires Inv(s) && k < |s.requests| && s.requests[k].Suspended? && s.requests[k].job == Send(message)
    requires EventsOf(s, s.requests[k]) != []
    ensures var t, id, es := Next(s, Resume(k)), s.requests[k].id, EventsOf(s, s.requests[k]);
      && id in s.logs && t.logs == s.logs[id := s.logs[id] + [MessageAdded(message)]]
      && t.requests[k].Answered? && t.requests[k].id == id && t.requests[k].own == Some(MessageAdded(message))
      && t.requests[k].state == Replay(id, es).(messages := Texts(es) + [message])
  {
    var r := s.requests[k];
    assert RequestOk(s, r);
    var es := EventsOf(s, r);
    CreatedPrefix(es, s.logs[r.id]);
    ReplayMeans(r.id, es);
    var all := es + [MessageAdded(message)];
    assert all[..|es|] == es;
    assert CreatedFirst(all);
    ReplayMeans(r.id, all);
  }

  /** A submit goes through exactly if the events it sees hold no submission; otherwise no log changes. */
  lemma SubmitDoes(s: System, k: nat)
    requires Inv(s) && k < |s.requests| && s.requests[k].Suspended? && s.requests[k].job == Submit
    requires EventsOf(s, s.requests[k]) != []
    ensures var t, id, es := Next(s, Resume(k)), s.requests[k].id, EventsOf(s, s.requests[k]);
      if IncidentSubmitted in es then t.logs == s.logs && t.requests[k] == Refused(id, Failed)
      else
        && id in s.logs && t.logs == s.logs[id := s.logs[id] + [IncidentSubmitted]]
        && t.requests[k] == Answered(id, Some(IncidentSubmitted), Replay(id, es).(status := Submitted))
  {
    var r := s.requests[k];
    assert RequestOk(s, r);
    var es := EventsOf(s, r);
    CreatedPrefix(es, s.logs[r.id]);
    ReplayMeans(r.id, es);
  }

  /**
   A read answers with what it sees, and whoever sees nothing gets 404; neither changes a log. Every other request stays
   as it is.
   */
  lemma ReadDoes(s: System, k: nat)
    requires Inv(s) && k < |s.requests| && s.requests[k].Suspended?
    ensures var t, id, es := Next(s, Resume(k)), s.requests[k].id, EventsOf(s, s.requests[k]);
      && (es == [] ==> t.logs == s.logs && t.requests[k] == Refused(id, NotFound))
      && (es != [] && s.requests[k].job == Read ==>
            t.logs == s.logs && t.requests[k] == Answered(id, None, Replay(id, es)))
      && |t.requests| == |s.requests|
      && (forall j :: 0 <= j < |s.requests| && j != k ==> t.requests[j] == s.requests[j])
  {
  }

  /** A step appends at most one event, to the log of its own incident, and leaves every other log alone. */
  lemma OneLogPerStep(s: System, step: Step)
    ensures var t := Next(s, step);
      t.logs == s.logs ||
      exists id, e ::
        && t.logs == s.logs[id := LogOf(s.logs, id) + [e]]
        && match step
           case Create(id', _, _, _) => id == id' && id !in s.logs
           case Arrive(_, _) => false
           case Resume(k) => k < |s.requests| && s.requests[k].id == id
  {
    var t := Next(s, step);
    if t.logs != s.logs {
      match step
      case Create(id, title, description, org) =>
        var e := IncidentCreated(title, description, org);
        assert LogOf(s.logs, id) + [e] == [e];
        assert t.logs == s.logs[id := LogOf(s.logs, id) + [e]];
      case Resume(k) =>
        var r := s.requests[k];
        match r.job
        case Send(message) => assert t.logs == s.logs[r.id := LogOf(s.logs, r.id) + [MessageAdded(message)]];
        case Submit => assert t.logs == s.logs[r.id := LogOf(s.logs, r.id) + [IncidentSubmitted]];
    }
  }

  lemma Prefix(steps: seq<Step>, n: nat)
    requires n < |steps|
    ensures steps[..|steps| - 1][..n] == steps[..n]
    ensures steps[n..] == steps[..|steps| - 1][n..] + [steps[|steps| - 1]]
  {
  }

  /** Step n is the arrival of request k for an incident that has no log at that moment. */
  ghost predicate ArrivedUnknown(kind: Kind, steps: seq<Step>, n: nat, k: nat)
    requires n < |steps|
  {
    var s := Run(kind, steps[..n]);
    steps[n].Arrive? && steps[n].id !in s.logs && |s.requests| == k
  }

  ghost predicate FoundNothing(r: Request) {
    (r.Suspended? && r.loaded == Copy([])) || (r.Refused? && r.reply.NotFound?)
  }

  lemma FoundNothingNow(s: System, step: Step, k: nat)
    requires Inv(s) && k < |Next(s, step).requests| && FoundNothing(Next(s, step).requests[k])
    ensures if k < |s.requests| then FoundNothing(s.requests[k])
            else k == |s.requests| && step.Arrive? && step.id !in s.logs
  {
    if k < |s.requests| {
      assert RequestOk(s, s.requests[k]);
    }
  }

  /** A request finds nothing, in memory or in Postgres, only if its incident did not exist when it arrived. */
  lemma {:induction false} NotFoundMeansUnknown(kind: Kind, steps: seq<Step>, k: nat)
    requires var s := Run(kind, steps); k < |s.requests| && FoundNothing(s.requests[k])
    ensures exists n :: 0 <= n < |steps| && ArrivedUnknown(kind, steps, n, k)
  {
    var front := steps[..|steps| - 1];
    var s := Run(kind, front);
    RunKeepsInv(kind, front);
    FoundNothingNow(s, steps[|front|], k);
    if k < |s.requests| {
      NotFoundMeansUnknown(kind, front, k);
      var n :| 0 <= n < |front| && ArrivedUnknown(kind, front, n, k);
      Prefix(steps, n);
      assert ArrivedUnknown(kind, steps, n, k);
    } else {
      assert ArrivedUnknown(kind, steps, |front|, k);
    }
  }

  // ---------------------------------------------------------------------
  // Submissions over Postgres
  // ---------------------------------------------------------------------

  /** A submit of incident id waits with a copy that its own check will accept. */
  ghost predicate Pending(s: System, id: string, k: nat) {
    && k < |s.requests| && s.requests[k].Suspended? && s.requests[k].id == id && s.requests[k].job == Submit
    && s.requests[k].loaded.Copy? && SubmitResumed(id, s.requests[k].loaded.events).1.Answer?
  }

  /** Two such submits wait at the same time. */
  ghost predicate Overlap(s: System, id: string, i: nat, j: nat) {
    i != j && Pending(s, id, i) && Pending(s, id, j)
  }

  ghost predicate HasSubmitted(s: System, id: string, k: nat) {
    k < |s.requests| && Wrote(s.requests[k], id, true)
  }

  lemma PendingStep(s: System, step: Step, id: string, k: nat)
    requires Pending(s, id, k)
    ensures if step == Resume(k) then HasSubmitted(Next(s, step), id, k) else Pending(Next(s, step), id, k)
  {
  }

  lemma SubmittedStays(s: System, step: Step, id: string, k: nat)
    requires HasSubmitted(s, id, k)
    ensures HasSubmitted(Next(s, step), id, k)
  {
  }

  /** A pending submit stays as it is until it is resumed, and then succeeds for good. */
  lemma {:induction false} PendingSucceeds(steps: seq<Step>, n: nat, id: string, k: nat)
    requires n <= |steps| && Pending(Run(Postgres, steps[..n]), id, k)
    ensures var s := Run(Postgres, steps);
      if Resume(k) in steps[n..] then HasSubmitted(s, id, k) else Pending(s, id, k)
    decreases |steps|
  {
    if n == |steps| {
      assert steps[..n] == steps;
    } else {
      var front, last := steps[..|steps| - 1], steps[|steps| - 1];
      Prefix(steps, n);
      PendingSucceeds(front, n, id, k);
      if Resume(k) in front[n..] {
        SubmittedStays(Run(Postgres, front), last, id, k);
      } else {
        PendingStep(Run(Postgres, front), last, id, k);
      }
    }
  }

  lemma {:induction false} CountedOnce(rs: seq<Request>, id: string, i: nat)
    requires i < |rs| && Wrote(rs[i], id, true)
    ensures Writes(rs, id, true) > 0
  {
    if i < |rs| - 1 {
      CountedOnce(rs[..|rs| - 1], id, i);
    }
  }

  /** A step that makes request k a successful submit resumes it, and it was pending. */
  lemma SubmittedNow(s: System, step: Step, id: string, k: nat)
    requires s.kind == Postgres && Inv(s) && HasSubmitted(Next(s, step), id, k) && !HasSubmitted(s, id, k)
    ensures step == Resume(k) && Pending(s, id, k)
  {
    if k < |s.requests| {
      assert RequestOk(s, s.requests[k]);
    }
  }

  /** A pending submit was pending before, or has just arrived with the whole log. */
  lemma PendingNow(s: System, step: Step, id: string, k: nat)
    requires Pending(Next(s, step), id, k)
    ensures Pending(s, id, k) || SubmitResumed(id, LogOf(s.logs, id)).1.Answer?
  {
  }

  /** Once a submission is in the log, no copy of the log passes the check. */
  lemma SubmittedBlocks(s: System, id: string, i: nat)
    requires Inv(s) && HasSubmitted(s, id, i)
    ensures !SubmitResumed(id, LogOf(s.logs, id)).1.Answer?
  {
    CountedOnce(s.requests, id, i);
    DraftUntilSubmitted(id, LogOf(s.logs, id));
  }

  /** A submit that still waits with an accepted copy arrived before any submission that is already in the log. */
  lemma {:induction false} WaitedTogether(steps: seq<Step>, id: string, i: nat, j: nat)
    requires var s := Run(Postgres, steps); HasSubmitted(s, id, i) && Pending(s, id, j)
    ensures exists n: nat :: n <= |steps| && Overlap(Run(Postgres, steps[..n]), id, i, j) && Resume(i) in steps[n..]
  {
    var front, last := steps[..|steps| - 1], steps[|steps| - 1];
    var s := Run(Postgres, front);
    RunKeepsInv(Postgres, front);
    PendingNow(s, last, id, j);
    if HasSubmitted(s, id, i) {
      SubmittedBlocks(s, id, i);
      WaitedTogether(front, id, i, j);
      var n: nat :| n <= |front| && Overlap(Run(Postgres, front[..n]), id, i, j) && Resume(i) in front[n..];
      Prefix(steps, n);
    } else {
      SubmittedNow(s, last, id, i);
      assert Pending(s, id, j);
      Prefix(steps, |front|);
      assert front[..|front|] == front;
    }
  }

  /** The two submits were both waiting at some moment, and both resumed after it. */
  ghost predicate Raced(steps: seq<Step>, n: nat, id: string, i: nat, j: nat)
    requires n <= |steps|
  {
    Overlap(Run(Postgres, steps[..n]), id, i, j) && Resume(i) in steps[n..] && Resume(j) in steps[n..]
  }

  /** The same with the roles of the two as they were at the last step. */
  lemma {:induction false} LastOneOverlaps(steps: seq<Step>, id: string, i: nat, j: nat)
    requires steps != [] && i != j && HasSubmitted(Run(Postgres, steps), id, j)
    requires var s := Run(Postgres, steps[..|steps| - 1]); HasSubmitted(s, id, i) && !HasSubmitted(s, id, j)
    ensures exists n: nat :: n <= |steps| && Raced(steps, n, id, i, j)
  {
    var front, last := steps[..|steps| - 1], steps[|steps| - 1];
    RunKeepsInv(Postgres, front);
    SubmittedNow(Run(Postgres, front), last, id, j);
    WaitedTogether(front, id, i, j);
    var n: nat :| n <= |front| && Overlap(Run(Postgres, front[..n]), id, i, j) && Resume(i) in front[n..];
    Prefix(steps, n);
    assert Raced(steps, n, id, i, j);
  }

  /** Any two successful submits of one incident waited together: the later one arrived before the earlier one ended. */
  lemma {:induction false} SubmitsOverlap(steps: seq<Step>, id: string, i: nat, j: nat)
    requires var s := Run(Postgres, steps); i != j && HasSubmitted(s, id, i) && HasSubmitted(s, id, j)
    ensures exists n: nat :: n <= |steps| && Raced(steps, n, id, i, j)
  {
    var front, last := steps[..|steps| - 1], steps[|steps| - 1];
    var s := Run(Postgres, front);
    if HasSubmitted(s, id, i) && HasSubmitted(s, id, j) {
      SubmitsOverlap(front, id, i, j);
      var n: nat :| n <= |front| && Raced(front, n, id, i, j);
      Prefix(steps, n);
      assert Raced(steps, n, id, i, j);
    } else if HasSubmitted(s, id, i) {
      LastOneOverlaps(steps, id, i, j);
    } else {
      RunKeepsInv(Postgres, front);
      SubmittedNow(s, last, id, i);
      assert HasSubmitted(s, id, j);
      LastOneOverlaps(steps, id, j, i);
      var n: nat :| n <= |steps| && Raced(steps, n, id, j, i);
      assert Raced(steps, n, id, i, j);
    }
  }

  lemma {:induction false} CountedTwice(rs: seq<Request>, id: string, i: nat, j: nat)
    requires i < j < |rs| && Wrote(rs[i], id, true) && Wrote(rs[j], id, true)
    ensures Writes(rs, id, true) > 1
  {
    if j < |rs| - 1 {
      CountedTwice(rs[..|rs| - 1], id, i, j);
    } else {
      CountedOnce(rs[..|rs| - 1], id, i);
    }
  }

  lemma {:induction false} FindCounted(rs: seq<Request>, id: string) returns (i: nat)
    requires Writes(rs, id, true) > 0
    ensures i < |rs| && Wrote(rs[i], id, true)
    ensures Writes(rs[..i], id, true) == Writes(rs, id, true) - 1
  {
    if Wrote(rs[|rs| - 1], id, true) {
      i := |rs| - 1;
    } else {
      i := FindCounted(rs[..|rs| - 1], id);
      assert rs[..|rs| - 1][..i] == rs[..i];
    }
  }

  /**
   Over Postgres an incident is submitted more than once if and only if at some moment two submits of it wait with
   copies that both pass the check, and both are resumed afterwards. So it never is when its submits do not overlap.
   */
  lemma {:induction false} PostgresSubmitsTwiceExactly(steps: seq<Step>, id: string)
    ensures Count(LogOf(Run(Postgres, steps).logs, id)) > 1 <==>
      exists n: nat, i: nat, j: nat :: n <= |steps| && Raced(steps, n, id, i, j)
  {
    var s := Run(Postgres, steps);
    RunKeepsInv(Postgres, steps);
    assert Writes(s.requests, id, true) == Count(LogOf(s.logs, id));
    if Count(LogOf(s.logs, id)) > 1 {
      var j := FindCounted(s.requests, id);
      var i := FindCounted(s.requests[..j], id);
      SubmitsOverlap(steps, id, i, j);
    }
    if n: nat, i: nat, j: nat :| n <= |steps| && Raced(steps, n, id, i, j) {
      PendingSucceeds(steps, n, id, i);
      PendingSucceeds(steps, n, id, j);
      CountedTwice(s.requests, id, if i < j then i else j, if i < j then j else i);
    }
  }

  lemma RunSteps(kind: Kind, steps: seq<Step>, n: nat)
    requires n < |steps|
    ensures Run(kind, steps[..n + 1]) == Next(Run(kind, steps[..n]), steps[n])
  {
    assert steps[..n + 1][..n] == steps[..n];
  }

  function TwoSubmits(id: string): seq<Step> {
    [Create(id, "t", "d", "o"), Arrive(id, Submit), Arrive(id, Submit), Resume(1), Resume(2)]
  }

  lemma BothLoaded(id: string)
    ensures var s := Run(Postgres, TwoSubmits(id)[..3]);
      var e := IncidentCreated("t", "d", "o");
      && s.kind == Postgres && s.logs == map[id := [e]]
      && s.requests ==
         [Answered(id, Some(e), Replay(id, [e])), Suspended(id, Submit, Copy([e])), Suspended(id, Submit, Copy([e]))]
  {
    assert TwoSubmits(id)[..0] == [];
    RunSteps(Postgres, TwoSubmits(id), 0);
    RunSteps(Postgres, TwoSubmits(id), 1);
    RunSteps(Postgres, TwoSubmits(id), 2);
  }

  /** The aliasing is what makes this work: over copies, as Postgres returns them, two submits can both succeed. */
  lemma PostgresSubmitsTwice(id: string)
    ensures Raced(TwoSubmits(id), 3, id, 1, 2)
    ensures Count(LogOf(Run(Postgres, TwoSubmits(id)).logs, id)) > 1
  {
    var e := IncidentCreated("t", "d", "o");
    BothLoaded(id);
    DraftUntilSubmitted(id, [e]);
    CountSnoc([], e);
    assert [] + [e] == [e];
    assert TwoSubmits(id)[3..] == [Resume(1), Resume(2)];
    PostgresSubmitsTwiceExactly(TwoSubmits(id), id);
  }

  // ---------------------------------------------------------------------
  // Replay does not depend on the order of events of different types
  // ---------------------------------------------------------------------

  datatype Type = OfCreated | OfUpdated | OfSubmitted | OfMessage

  function TypeOf(e: Event): Type {
    match e
    case IncidentCreated(_, _, _) => OfCreated
    case IncidentUpdated(_, _) => OfUpdated
    case IncidentSubmitted => OfSubmitted
    case MessageAdded(_) => OfMessage
  }

  function OfType(es: seq<Event>, t: Type): seq<Event> {
    if es == [] then []
    else OfType(es[..|es| - 1], t) + if TypeOf(es[|es| - 1]) == t then [es[|es| - 1]] else []
  }

  /** The replayed state put together from what each type of event alone replays to. */
  function Recombined(id: string, first: Event, updates: seq<Event>, submits: seq<Event>, messages: seq<Event>): State {
    var u := Replay(id, [first] + updates);
    u.(status := if submits == [] then Draft else Submitted, messages := Replay(id, messages).messages)
  }

  lemma ReplaySnoc(id: string, es: seq<Event>, e: Event)
    ensures Replay(id, es + [e]) == Applied(Replay(id, es), e)
  {
    assert (es + [e])[..|es|] == es;
  }

  lemma {:induction false} ReplayRecombines(id: string, es: seq<Event>)
    requires CreatedFirst(es)
    ensures Replay(id, es) ==
      Recombined(id, es[0], OfType(es, OfUpdated), OfType(es, OfSubmitted), OfType(es, OfMessage))
  {
    var front, e := es[..|es| - 1], es[|es| - 1];
    if |es| == 1 {
      assert front == [] && es == [e];
      assert [e] + [] == es;
    } else {
      ReplayRecombines(id, front);
      var us, ms := OfType(front, OfUpdated), OfType(front, OfMessage);
      assert forall t :: t != TypeOf(e) ==> OfType(es, t) == OfType(front, t);
      if e.IncidentUpdated? {
        assert OfType(es, OfUpdated) == us + [e];
        assert [es[0]] + (us + [e]) == ([es[0]] + us) + [e];
        ReplaySnoc(id, [es[0]] + us, e);
      } else if e.MessageAdded? {
        ReplaySnoc(id, ms, e);
      }
    }
  }

  /**
   Two logs with the same creation and the same events of each type in the same order replay to the same state, so a
   store that orders by timestamp may return ties between different types in any order.
   */
  lemma {:induction false} ReplayIgnoresCrossTypeOrder(id: string, es: seq<Event>, fs: seq<Event>)
    requires CreatedFirst(es) && CreatedFirst(fs)
    requires forall t :: OfType(es, t) == OfType(fs, t)
    ensures Replay(id, es) == Replay(id, fs)
  {
    ReplayRecombines(id, es);
    ReplayRecombines(id, fs);
    CreatedIsFirst(es);
    CreatedIsFirst(fs);
    assert OfType(es, OfCreated) == OfType(fs, OfCreated);
    assert OfType(es, OfUpdated) == OfType(fs, OfUpdated);
    assert OfType(es, OfSubmitted) == OfType(fs, OfSubmitted);
    assert OfType(es, OfMessage) == OfType(fs, OfMessage);
  }

  lemma {:induction false} CreatedIsFirst(es: seq<Event>)
    requires CreatedFirst(es)
    ensures OfType(es, OfCreated) == [es[0]]
  {
    if |es| == 1 {
      assert es[..0] == [];
    } else {
      CreatedIsFirst(es[..|es| - 1]);
    }
  }
}
