/**
 The incident log, the notification channel and every realtime client as one
 state machine, and the promise it is for: bounded queues, with a snapshot
 plus deltas leaving no gap.
 */
module CatchUp {
  import opened Common
  import opened Realtime
  import Log = IncidentLog

  /** `clients` lists every socket ever connected; `registered` says which are still in the Map. */
  datatype System = System(svc: Log.State, channel: seq<Notice>, clients: seq<Client>)

  const START := System(Log.INIT, [], [])

  datatype Step =
    | Commit(request: Log.Request)
    | Publish(kind: string, about: Option<int>, body: string)
    | Lose(at: nat)
    | Deliver
    | Connect
    | Subscribe(c: nat, id: int, mark: Option<int>)
    | FetchRead(c: nat, k: nat)
    | FetchFail(c: nat, k: nat)
    | SnapshotSend(c: nat, k: nat)
    | SendOk(c: nat)
    | SendError(c: nat)
    | PeerClose(c: nat)
    | CloseEvent(c: nat)

  /** The incident as it is now. */
  function ReadNow(svc: Log.State, target: Option<int>): Answer {
    Answer(if target.Some? then Log.Lookup(svc.incidents, target.value) else None, |svc.events|)
  }

  /** A step on a client that cannot happen in the current state changes nothing. */
  function ClientNext(s: System, c: Client, step: Step): Client {
    match step
    case Subscribe(_, id, mark) => if c.registered then Subscribed(c, id, mark) else c
    case FetchRead(_, k) =>
      if k < |c.fetches| && c.fetches[k].answer.None? then
        var f := c.fetches[k];
        Answered(c, k, ReadNow(s.svc, f.target))
      else c
    case FetchFail(_, k) => if k < |c.fetches| then FetchFailed(c, k) else c
    case SnapshotSend(_, k) => if k < |c.fetches| && c.fetches[k].answer.Some? then SnapshotSent(c, k) else c
    case SendOk(_) => if c.inflight != [] then SendDone(c, false) else c
    case SendError(_) => if c.inflight != [] then SendDone(c, true) else c
    case PeerClose(_) => PeerClosing(c)
    case CloseEvent(_) => Gone(c)
    case _ => c
  }

  predicate OnClient(step: Step) {
    !(step.Commit? || step.Publish? || step.Lose? || step.Deliver? || step.Connect?)
  }

  function Next(s: System, step: Step): System {
    match step
    case Commit(request) =>
      var svc := Log.Handle(s.svc, request).0;
      var news := if |svc.events| > |s.svc.events| then [Logged(svc.events[|svc.events| - 1])] else [];
      s.(svc := svc, channel := s.channel + news)
    case Publish(kind, about, body) => s.(channel := s.channel + [Other(kind, about, body)])
    case Lose(at) => if at < |s.channel| then s.(channel := s.channel[..at] + s.channel[at + 1..]) else s
    case Deliver =>
      if s.channel == [] then s
      else
        s.(channel := s.channel[1..],
           clients := seq(|s.clients|, k requires 0 <= k < |s.clients| => Broadcasted(s.clients[k], s.channel[0])))
    case Connect => s.(clients := s.clients + [FRESH])
    case _ =>
      if step.c < |s.clients| then s.(clients := s.clients[step.c := ClientNext(s, s.clients[step.c], step)]) else s
  }

  function Run(s: System, steps: seq<Step>): System {
    if steps == [] then s else Next(Run(s, steps[..|steps| - 1]), steps[|steps| - 1])
  }

  // ---------------------------------------------------------------------
  // What every reachable state satisfies
  // ---------------------------------------------------------------------

  /**
   The snapshot is the read model of the log as it was when the body was read; one sent for an overflow was read when
   the event it is labelled with had been logged.
   */
  ghost predicate TrueSnapshot(x: Snapshot, es: seq<Log.Event>) {
    && x.upTo <= |es| && (x.overflow && x.mark.Some? ==> x.mark.value <= x.upTo)
    && x.incident ==
       if x.target.None? then None else Log.Lookup(Log.Replay(es[..x.upTo]).incidents, x.target.value)
  }

  ghost predicate FetchOk(f: Fetch, es: seq<Log.Event>) {
    && (f.overflow && f.mark.Some? ==> f.mark.value <= |es|)
    && (f.answer.Some? ==> TrueSnapshot(SnapshotOf(f), es))
  }

  ghost predicate ClientOk(c: Client, s: System) {
    && FanOutOk(c)
    && Accounted(c)
    && Ordered(c.offered + s.channel)
    && (forall n :: n in c.offered && n.Logged? ==> n.event in s.svc.events)
    && (forall k :: 0 <= k < |c.fetches| ==> FetchOk(c.fetches[k], s.svc.events))
    && (forall k :: 0 <= k < |c.snapshots| ==> TrueSnapshot(c.snapshots[k], s.svc.events))
  }

  ghost predicate Inv(s: System) {
    && Log.Inv(s.svc)
    && Ordered(s.channel)
    && (forall n :: n in s.channel && n.Logged? ==> n.event in s.svc.events)
    && (forall c :: 0 <= c < |s.clients| ==> ClientOk(s.clients[c], s))
  }

  lemma TrueSnapshotGrows(x: Snapshot, es: seq<Log.Event>, e: Log.Event)
    requires TrueSnapshot(x, es)
    ensures TrueSnapshot(x, es + [e])
  {
    assert (es + [e])[..x.upTo] == es[..x.upTo];
  }

  /** A longer log and a longer channel keep a client's invariant, if the new notice is the newest. */
  lemma GrowKeeps(c: Client, s: System, s': System, n: Notice)
    requires Log.LogOk(s.svc.events) && ClientOk(c, s) && s'.channel == s.channel + [n]
    requires forall m :: m in s.channel && m.Logged? ==> m.event in s.svc.events
    requires if n.Logged? then s'.svc.events == s.svc.events + [n.event] && n.event.id == |s.svc.events| + 1
             else s'.svc == s.svc
    ensures ClientOk(c, s')
  {
    Log.LogFacts(s.svc.events);
    var a := c.offered + s.channel;
    assert c.offered + s'.channel == a + [n];
    forall i | 0 <= i < |a| && a[i].Logged? && n.Logged?
      ensures a[i].event.id < n.event.id
    {
      assert a[i] in c.offered || a[i] in s.channel;
      assert a[i].event in s.svc.events;
    }
    if n.Logged? {
      forall k | 0 <= k < |c.fetches|
        ensures FetchOk(c.fetches[k], s'.svc.events)
      {
        var f := c.fetches[k];
        assert FetchOk(f, s.svc.events);
        if f.answer.Some? {
          TrueSnapshotGrows(SnapshotOf(f), s.svc.events, n.event);
        }
      }
      forall k | 0 <= k < |c.snapshots|
        ensures TrueSnapshot(c.snapshots[k], s'.svc.events)
      {
        TrueSnapshotGrows(c.snapshots[k], s.svc.events, n.event);
      }
    }
  }

  lemma CommitNews(s: System, request: Log.Request)
    requires Log.Inv(s.svc)
    ensures var svc := Log.Handle(s.svc, request).0;
      svc == s.svc ||
      (|svc.events| == |s.svc.events| + 1 && svc.events == s.svc.events + [svc.events[|s.svc.events|]]
       && svc.events[|s.svc.events|].id == |s.svc.events| + 1 && Log.Inv(svc))
  {
    Log.HandleAppendsOne(s.svc, request);
    Log.HandleKeepsInv(s.svc, request);
    Log.LogFacts(Log.Handle(s.svc, request).0.events);
  }

  lemma SkipKeeps(c: Client, s: System)
    requires ClientOk(c, s) && s.channel != []
    ensures ClientOk(c, s.(channel := s.channel[1..]))
  {
    assert s.channel[..0] + s.channel[0 + 1..] == s.channel[1..];
    LoseKeeps(c, s, 0);
  }

  lemma EnqueueFrame(c: Client, n: Notice)
    ensures var c' := Enqueued(c, n);
      && c'.offered == c.offered + [n] && c'.snapshots == c.snapshots
      && (c'.fetches == c.fetches || c'.fetches == c.fetches + [Fetch(c.incidentId, n.Seq(), true, None)])
  {
  }

  lemma OfferFetchesOk(c: Client, n: Notice, es: seq<Log.Event>)
    requires forall k :: 0 <= k < |c.fetches| ==> FetchOk(c.fetches[k], es)
    requires n.Logged? ==> n.event.id <= |es|
    ensures forall k :: 0 <= k < |Enqueued(c, n).fetches| ==> FetchOk(Enqueued(c, n).fetches[k], es)
  {
    EnqueueFrame(c, n);
    assert FetchOk(Fetch(c.incidentId, n.Seq(), true, None), es);
  }

  lemma OfferKeeps(c: Client, s: System)
    requires Log.LogOk(s.svc.events) && ClientOk(c, s) && s.channel != []
    requires s.channel[0].Logged? ==> s.channel[0].event in s.svc.events
    ensures ClientOk(Enqueued(c, s.channel[0]), s.(channel := s.channel[1..]))
  {
    var n, c' := s.channel[0], Enqueued(c, s.channel[0]);
    if n.Logged? {
      Log.LogFacts(s.svc.events);
    }
    OfferFetchesOk(c, n, s.svc.events);
    EnqueueKeeps(c, n);
    EnqueueFrame(c, n);
    assert c'.offered + s.channel[1..] == c.offered + s.channel by {
      PopFront(c.offered, s.channel);
    }
  }

  lemma ReadNowIsTrue(svc: Log.State, f: Fetch)
    requires Log.Inv(svc) && FetchOk(f, svc.events)
    ensures FetchOk(f.(answer := Some(ReadNow(svc, f.target))), svc.events)
  {
    assert svc.events[..|svc.events|] == svc.events;
  }

  lemma SendKeeps(s: System, c: Client, err: bool)
    requires ClientOk(c, s) && c.inflight != []
    ensures ClientOk(SendDone(c, err), s)
  {
    SendDoneKeeps(c, err);
    var c' := SendDone(c, err);
    assert c'.offered == c.offered && c'.fetches == c.fetches && c'.snapshots == c.snapshots;
  }

  /** Steps that only change the subscription, the fetches, the snapshots or the socket. */
  lemma QuietStepKeeps(s: System, c: Client, c': Client)
    requires ClientOk(c, s)
    requires c'.queue == c.queue && c'.offered == c.offered && c'.handed == c.handed && c'.dropped == c.dropped
    requires c'.overflows == c.overflows && c'.delivered == c.delivered
    requires c'.inflight == c.inflight && c'.sending == c.sending && (c'.ready == Open ==> c.ready == Open)
    requires forall k :: 0 <= k < |c'.fetches| ==> FetchOk(c'.fetches[k], s.svc.events)
    requires forall k :: 0 <= k < |c'.snapshots| ==> TrueSnapshot(c'.snapshots[k], s.svc.events)
    ensures ClientOk(c', s)
  {
    OtherStepsKeep(c, c');
  }

  lemma FetchReadKeeps(s: System, c: Client, k: nat)
    requires Log.Inv(s.svc) && ClientOk(c, s) && k < |c.fetches| && c.fetches[k].answer.None?
    ensures ClientOk(ClientNext(s, c, FetchRead(0, k)), s)
  {
    var c' := ClientNext(s, c, FetchRead(0, k));
    ReadNowIsTrue(s.svc, c.fetches[k]);
    assert FetchOk(c'.fetches[k], s.svc.events);
    QuietStepKeeps(s, c, c');
  }

  lemma SnapshotSendKeeps(s: System, c: Client, k: nat)
    requires ClientOk(c, s) && k < |c.fetches| && c.fetches[k].answer.Some?
    ensures ClientOk(SnapshotSent(c, k), s)
  {
    assert FetchOk(c.fetches[k], s.svc.events);
    QuietStepKeeps(s, c, SnapshotSent(c, k));
  }

  lemma FetchFailKeeps(s: System, c: Client, k: nat)
    requires ClientOk(c, s) && k < |c.fetches|
    ensures ClientOk(FetchFailed(c, k), s)
  {
    QuietStepKeeps(s, c, FetchFailed(c, k));
  }

  lemma ClientStepKeeps(s: System, c: Client, step: Step)
    requires Log.Inv(s.svc) && ClientOk(c, s) && OnClient(step)
    ensures ClientOk(ClientNext(s, c, step), s)
  {
    var c' := ClientNext(s, c, step);
    if c' == c {
    } else if step.SendOk? || step.SendError? {
      SendKeeps(s, c, step.SendError?);
    } else if step.FetchRead? {
      FetchReadKeeps(s, c, step.k);
    } else if step.SnapshotSend? {
      SnapshotSendKeeps(s, c, step.k);
    } else if step.FetchFail? {
      FetchFailKeeps(s, c, step.k);
    } else {
      QuietStepKeeps(s, c, c');
    }
  }

  lemma FreshOk(s: System)
    requires Ordered(s.channel)
    ensures ClientOk(FRESH, s)
  {
    assert [] + s.channel == s.channel;
    assert IsCut(FRESH, []);
  }

  lemma RemovalKeepsOrder(ns: seq<Notice>, at: nat)
    requires Ordered(ns) && at < |ns|
    ensures Ordered(ns[..at] + ns[at + 1..])
  {
    var after := ns[..at] + ns[at + 1..];
    forall i, j | 0 <= i < j < |after| && after[i].Logged? && after[j].Logged?
      ensures after[i].event.id < after[j].event.id
    {
      var i', j' := if i < at then i else i + 1, if j < at then j else j + 1;
      assert ns[i'] == after[i] && ns[j'] == after[j];
    }
  }

  lemma LoseKeeps(c: Client, s: System, at: nat)
    requires ClientOk(c, s) && at < |s.channel|
    ensures ClientOk(c, s.(channel := s.channel[..at] + s.channel[at + 1..]))
  {
    var before, gap := c.offered + s.channel, |c.offered| + at;
    RemovalKeepsOrder(before, gap);
    assert before[..gap] + before[gap + 1..] == c.offered + (s.channel[..at] + s.channel[at + 1..]);
  }

  lemma GrowStepKeepsInv(s: System, s': System, n: Notice)
    requires Inv(s) && Log.Inv(s'.svc) && s'.clients == s.clients && s'.channel == s.channel + [n]
    requires if n.Logged? then s'.svc.events == s.svc.events + [n.event] && n.event.id == |s.svc.events| + 1
             else s'.svc == s.svc
    ensures Inv(s')
  {
    FreshOk(s);
    GrowKeeps(FRESH, s, s', n);
    assert [] + s'.channel == s'.channel;
    forall c | 0 <= c < |s.clients|
      ensures ClientOk(s.clients[c], s')
    {
      GrowKeeps(s.clients[c], s, s', n);
    }
  }

  lemma LoseKeepsInv(s: System, at: nat)
    requires Inv(s) && at < |s.channel|
    ensures Inv(Next(s, Lose(at)))
  {
    var s' := Next(s, Lose(at));
    RemovalKeepsOrder(s.channel, at);
    forall n | n in s'.channel
      ensures n in s.channel
    {
      assert n in s.channel[..at] || n in s.channel[at + 1..];
    }
    forall c | 0 <= c < |s.clients|
      ensures ClientOk(s.clients[c], s')
    {
      LoseKeeps(s.clients[c], s, at);
    }
  }

  lemma DeliverKeepsInv(s: System)
    requires Inv(s)
    ensures Inv(Next(s, Deliver))
  {
    if s.channel != [] {
      var s' := Next(s, Deliver);
      forall c | 0 <= c < |s'.clients|
        ensures ClientOk(s'.clients[c], s')
      {
        SkipKeeps(s.clients[c], s);
        OfferKeeps(s.clients[c], s);
        assert ClientOk(s'.clients[c], s.(channel := s.channel[1..]));
      }
    }
  }

  lemma ClientStepKeepsInv(s: System, step: Step)
    requires Inv(s) && OnClient(step)
    ensures Inv(Next(s, step))
  {
    if step.c < |s.clients| {
      ClientStepKeeps(s, s.clients[step.c], step);
      var s' := Next(s, step);
      forall c | 0 <= c < |s'.clients|
        ensures ClientOk(s'.clients[c], s')
      {
        assert ClientOk(s'.clients[c], s);
      }
    }
  }

  lemma CommitKeepsInv(s: System, request: Log.Request)
    requires Inv(s)
    ensures Inv(Next(s, Commit(request)))
  {
    var s' := Next(s, Commit(request));
    CommitNews(s, request);
    if s'.svc != s.svc {
      GrowStepKeepsInv(s, s', Logged(s'.svc.events[|s.svc.events|]));
    } else {
      assert s'.channel == s.channel;
    }
  }

  lemma NextKeepsInv(s: System, step: Step)
    requires Inv(s)
    ensures Inv(Next(s, step))
  {
    var s' := Next(s, step);
    if OnClient(step) {
      ClientStepKeepsInv(s, step);
    } else {
      match step
      case Commit(request) =>
        CommitKeepsInv(s, request);
      case Publish(kind, about, body) =>
        GrowStepKeepsInv(s, s', Other(kind, about, body));
      case Lose(at) =>
        if at < |s.channel| {
          LoseKeepsInv(s, at);
        }
      case Deliver =>
        DeliverKeepsInv(s);
      case Connect =>
        FreshOk(s);
        assert ClientOk(FRESH, s');
    }
  }

  lemma {:induction false} RunKeepsInv(s: System, steps: seq<Step>)
    requires Inv(s)
    ensures Inv(Run(s, steps))
  {
    if steps != [] {
      RunKeepsInv(s, steps[..|steps| - 1]);
      NextKeepsInv(Run(s, steps[..|steps| - 1]), steps[|steps| - 1]);
    }
  }

  /**
   In every reachable state and for every socket: the fan-out invariant holds, every offered notice is accounted for,
   log events were handed over in strictly increasing seq order even across resubscriptions, and every snapshot sent
   is the read model of a prefix of the log that reaches at least its overflow label.
   */
  lemma {:induction false} EveryClientIsOk(steps: seq<Step>, c: nat)
    requires c < |Run(START, steps).clients|
    ensures var s := Run(START, steps); var cl := s.clients[c];
      && FanOutOk(cl)
      && Accounted(cl)
      && |cl.offered| == |cl.handed| + |cl.queue| + (MAX_QUEUE + 1) * cl.overflows
      && multiset(cl.offered) == multiset(cl.handed) + multiset(cl.queue) + multiset(cl.dropped)
      && Ordered(cl.handed)
      && (forall k :: 0 <= k < |cl.snapshots| ==> TrueSnapshot(cl.snapshots[k], s.svc.events))
  {
    RunKeepsInv(START, steps);
    var s := Run(START, steps);
    var cl := s.clients[c];
    assert cl.offered == (cl.offered + s.channel)[..|cl.offered|];
    Conservation(cl);
    HandedOrdered(cl);
  }

  // ---------------------------------------------------------------------
  // Who is offered what
  // ---------------------------------------------------------------------

  /** A playbook notice concerns everybody, any other only those who subscribed to the incident it is about. */
  predicate Concerns(n: Notice, subscribed: Option<int>) {
    match n
    case Logged(e) => subscribed == Some(e.incidentId)
    case Other(kind, about, _) => kind == "PLAYBOOK_NOTIFY" || (about.Some? && about == subscribed)
  }

  /** A delivery offers the front of the channel to exactly the registered clients it concerns, and touches no other. */
  lemma DeliverDoes(s: System, c: nat)
    requires s.channel != [] && c < |s.clients|
    ensures var s', cl, n := Next(s, Deliver), s.clients[c], s.channel[0];
      && s'.svc == s.svc && s'.channel == s.channel[1..] && |s'.clients| == |s.clients|
      && (cl.registered && Concerns(n, cl.incidentId) ==> s'.clients[c].offered == cl.offered + [n])
      && (!(cl.registered && Concerns(n, cl.incidentId)) ==> s'.clients[c] == cl)
  {
    EnqueueDoes(s.clients[c], s.channel[0]);
  }

  /** What is committed or published goes to the end of the channel; nothing but a delivery or a loss takes from it. */
  lemma ChannelDoes(s: System, step: Step)
    requires Inv(s)
    ensures var s' := Next(s, step);
      && (step.Deliver? && s.channel != [] ==> s'.channel == s.channel[1..])
      && (step.Publish? ==> s'.channel == s.channel + [Other(step.kind, step.about, step.body)] && s'.svc == s.svc)
      && (step.Commit? && s'.svc == s.svc ==> s'.channel == s.channel)
      && (step.Commit? && s'.svc != s.svc ==>
            |s'.svc.events| == |s.svc.events| + 1 && s'.channel == s.channel + [Logged(s'.svc.events[|s.svc.events|])])
      && (step.Connect? ==> s' == s.(clients := s.clients + [FRESH]))
      && (OnClient(step) ==> s'.channel == s.channel && s'.svc == s.svc)
      && (!OnClient(step) && !step.Deliver? && !step.Connect? ==> s'.clients == s.clients)
  {
    if step.Commit? {
      CommitNews(s, step.request);
    }
  }

  /** Everything that ever reached the client concerns a subscriber of i. */
  ghost predicate OnlyOf(c: Client, i: int) {
    && (c.incidentId.Some? ==> c.incidentId == Some(i))
    && forall n :: n in c.offered || n in c.queue || n in c.inflight || n in c.handed || n in c.delivered ==>
         Concerns(n, Some(i))
  }

  lemma EnqueueOnlyOf(c: Client, n: Notice, i: int)
    requires OnlyOf(c, i) && Concerns(n, Some(i))
    ensures OnlyOf(Enqueued(c, n), i)
  {
    FlushMoves(c.(offered := c.offered + [n], queue := c.queue + [n]));
  }

  lemma ClientStepOnlyOf(s: System, c: Client, step: Step, i: int)
    requires OnlyOf(c, i) && OnClient(step) && (step.Subscribe? ==> step.id == i)
    ensures OnlyOf(ClientNext(s, c, step), i)
  {
    if step.SendOk? && c.inflight != [] {
      var c' := c.(sending := false, inflight := c.inflight[1..], delivered := c.delivered + [c.inflight[0]]);
      FlushMoves(c');
    }
  }

  lemma NextOnlyOf(s: System, step: Step, c: nat, i: int)
    requires c < |s.clients| && OnlyOf(s.clients[c], i)
    requires step.Subscribe? && step.c == c ==> step.id == i
    ensures c < |Next(s, step).clients| && OnlyOf(Next(s, step).clients[c], i)
  {
    if step.Deliver? && s.channel != [] {
      DeliverDoes(s, c);
      if Next(s, step).clients[c] != s.clients[c] {
        EnqueueOnlyOf(s.clients[c], s.channel[0], i);
      }
    } else if OnClient(step) && step.c == c {
      ClientStepOnlyOf(s, s.clients[c], step, i);
    }
  }

  /** A client that only ever subscribes to i is offered, sent and delivered nothing that does not concern i. */
  lemma {:induction false} NothingForeign(steps: seq<Step>, c: nat, i: int)
    requires c < |Run(START, steps).clients|
    requires forall k :: 0 <= k < |steps| && steps[k].Subscribe? && steps[k].c == c ==> steps[k].id == i
    ensures OnlyOf(Run(START, steps).clients[c], i)
  {
    if steps != [] {
      var front, last := steps[..|steps| - 1], steps[|steps| - 1];
      if c < |Run(START, front).clients| {
        NothingForeign(front, c, i);
        NextOnlyOf(Run(START, front), last, c, i);
      } else {
        assert Run(START, steps).clients[c] == FRESH;
      }
    }
  }

  lemma RunSnoc(s: System, steps: seq<Step>, step: Step)
    ensures Run(s, steps + [step]) == Next(Run(s, steps), step)
  {
    assert (steps + [step])[..|steps|] == steps;
  }

  function SendOks(c: nat, n: nat): seq<Step> {
    if n == 0 then [] else SendOks(c, n - 1) + [SendOk(c)]
  }

  lemma SendOkDoes(s: System, c: nat)
    requires c < |s.clients|
    ensures var t := Next(s, SendOk(c)); c < |t.clients| && t.clients[c] == AfterSend(s.clients[c])
  {
  }

  ghost predicate ClientIs(s: System, c: nat, cl: Client) {
    c < |s.clients| && s.clients[c] == cl
  }

  lemma SendOkIs(s: System, c: nat, cl: Client)
    requires ClientIs(s, c, cl)
    ensures ClientIs(Next(s, SendOk(c)), c, AfterSend(cl))
  {
    SendOkDoes(s, c);
  }

  lemma {:induction false} RunSends(s: System, c: nat, k: nat)
    requires c < |s.clients|
    ensures ClientIs(Run(s, SendOks(c, k)), c, Sends(s.clients[c], k))
  {
    if k > 0 {
      RunSends(s, c, k - 1);
      SendOkIs(Run(s, SendOks(c, k - 1)), c, Sends(s.clients[c], k - 1));
      RunSnoc(s, SendOks(c, k - 1), SendOk(c));
    }
  }

  /** An open socket whose sends succeed delivers everything that was handed over or queued, in that order. */
  lemma {:induction false} Drains(s: System, c: nat)
    requires Inv(s) && c < |s.clients| && s.clients[c].ready == Open
    ensures c < |Run(s, SendOks(c, Waiting(s.clients[c]))).clients|
    ensures var cl' := Run(s, SendOks(c, Waiting(s.clients[c]))).clients[c];
      cl'.delivered == s.clients[c].handed + s.clients[c].queue && cl'.queue == [] && cl'.inflight == []
  {
    assert ClientOk(s.clients[c], s);
    RunSends(s, c, Waiting(s.clients[c]));
    SendsDrain(s.clients[c], Waiting(s.clients[c]));
  }

  /** A subscription replaces the one before; a client that is gone cannot subscribe. */
  lemma SubscribeDoes(s: System, c: nat, id: int, mark: Option<int>)
    requires c < |s.clients|
    ensures var cl, cl' := s.clients[c], Next(s, Subscribe(c, id, mark)).clients[c];
      if cl.registered then
        && cl'.incidentId == Some(id) && |cl'.fetches| == |cl.fetches| + (if mark.Some? then 1 else 0)
        && cl'.queue == cl.queue && cl'.offered == cl.offered && cl'.snapshots == cl.snapshots
      else cl' == cl
  {
  }

  /** A failed request is forgotten, and nothing else; the snapshot of an answered one is not sent again. */
  lemma FetchDoes(s: System, c: nat, k: nat)
    requires c < |s.clients| && k < |s.clients[c].fetches|
    ensures var cl := s.clients[c];
      var rest := cl.fetches[..k] + cl.fetches[k + 1..];
      && Next(s, FetchFail(c, k)).clients[c] == cl.(fetches := rest)
      && (cl.fetches[k].answer.Some? ==> Next(s, SnapshotSend(c, k)).clients[c].fetches == rest)
      && (cl.fetches[k].answer.None? ==> Next(s, SnapshotSend(c, k)).clients[c] == cl)
  {
  }

  /** Which steps shut a socket; the close event also takes it out of the map. */
  lemma ShutDoes(s: System, c: nat)
    requires c < |s.clients|
    ensures Next(s, PeerClose(c)).clients[c].ready != Open
    ensures Next(s, CloseEvent(c)).clients[c].ready != Open && !Next(s, CloseEvent(c)).clients[c].registered
    ensures s.clients[c].inflight != [] ==> Next(s, SendError(c)).clients[c].ready != Open
  {
  }

  ghost predicate Quiet(c: Client, c': Client) {
    && (c.ready != Open ==> c'.ready != Open && c'.handed == c.handed && c'.snapshots == c.snapshots)
    && (!c.registered ==> !c'.registered && c'.offered == c.offered)
  }

  lemma NextStaysQuiet(s: System, step: Step, c: nat)
    requires c < |s.clients|
    ensures c < |Next(s, step).clients| && Quiet(s.clients[c], Next(s, step).clients[c])
  {
    if step.Deliver? && s.channel != [] {
      DeliverDoes(s, c);
      EnqueueDoes(s.clients[c], s.channel[0]);
    }
  }

  /** Once shut, a socket is sent no more notices and snapshots; once out of the map, a client is offered none. */
  lemma {:induction false} ShutStaysQuiet(s: System, c: nat, after: seq<Step>)
    requires c < |s.clients|
    ensures c < |Run(s, after).clients| && Quiet(s.clients[c], Run(s, after).clients[c])
  {
    if after != [] {
      ShutStaysQuiet(s, c, after[..|after| - 1]);
      NextStaysQuiet(Run(s, after[..|after| - 1]), after[|after| - 1], c);
    }
  }

  // ---------------------------------------------------------------------
  // What is requested, and with which label it is sent
  // ---------------------------------------------------------------------

  function SeqOf(n: Notice): Option<int> {
    match n case Logged(e) => Some(e.id) case Other(_, _, _) => None
  }

  /**
   Step n asks for the incident: a subscription with a seq, for that incident under that seq, or a delivery to a full
   queue, for the incident subscribed to under the seq of the notice.
   */
  ghost predicate AskedAt(steps: seq<Step>, n: nat, c: nat, target: Option<int>, mark: Option<int>, overflow: bool)
    requires n < |steps|
  {
    var s := Run(START, steps[..n]);
    && c < |s.clients|
    && if overflow then
         && steps[n] == Deliver && s.channel != [] && |s.clients[c].queue| >= 100
         && target == s.clients[c].incidentId && mark == SeqOf(s.channel[0])
       else steps[n].Subscribe? && target.Some? && mark.Some? && steps[n] == Subscribe(c, target.value, mark)
  }

  ghost predicate Asked(steps: seq<Step>, c: nat, target: Option<int>, mark: Option<int>, overflow: bool) {
    exists n: nat :: n < |steps| && AskedAt(steps, n, c, target, mark, overflow)
  }

  lemma AskedGrows(steps: seq<Step>, step: Step, c: nat, target: Option<int>, mark: Option<int>, overflow: bool)
    requires Asked(steps, c, target, mark, overflow)
    ensures Asked(steps + [step], c, target, mark, overflow)
  {
    var n: nat :| n < |steps| && AskedAt(steps, n, c, target, mark, overflow);
    assert (steps + [step])[..n] == steps[..n];
    assert AskedAt(steps + [step], n, c, target, mark, overflow);
  }

  ghost predicate AllAsked(steps: seq<Step>, c: nat, cl: Client) {
    && (forall k :: 0 <= k < |cl.fetches| ==>
          var f := cl.fetches[k]; Asked(steps, c, f.target, f.mark, f.overflow))
    && (forall k :: 0 <= k < |cl.snapshots| ==>
          var x := cl.snapshots[k]; Asked(steps, c, x.target, x.mark, x.overflow))
  }

  lemma AllAskedGrows(steps: seq<Step>, step: Step, c: nat, cl: Client)
    requires AllAsked(steps, c, cl)
    ensures AllAsked(steps + [step], c, cl)
  {
    forall k | 0 <= k < |cl.fetches|
      ensures var f := cl.fetches[k]; Asked(steps + [step], c, f.target, f.mark, f.overflow)
    {
      var f := cl.fetches[k];
      AskedGrows(steps, step, c, f.target, f.mark, f.overflow);
    }
    forall k | 0 <= k < |cl.snapshots|
      ensures var x := cl.snapshots[k]; Asked(steps + [step], c, x.target, x.mark, x.overflow)
    {
      var x := cl.snapshots[k];
      AskedGrows(steps, step, c, x.target, x.mark, x.overflow);
    }
  }

  lemma DeliverAsks(front: seq<Step>, c: nat)
    requires var s := Run(START, front);
      c < |s.clients| && s.channel != [] && AllAsked(front + [Deliver], c, s.clients[c])
    ensures AllAsked(front + [Deliver], c, Next(Run(START, front), Deliver).clients[c])
  {
    var s, steps := Run(START, front), front + [Deliver];
    var cl, n := s.clients[c], s.channel[0];
    DeliverDoes(s, c);
    EnqueueDoes(cl, n);
    assert steps[..|front|] == front;
    if |cl.queue| >= 100 {
      assert AskedAt(steps, |front|, c, cl.incidentId, SeqOf(n), true);
    }
  }

  lemma SubscribeAsks(front: seq<Step>, step: Step, c: nat)
    requires step.Subscribe? && step.c == c
    requires var s := Run(START, front); c < |s.clients| && AllAsked(front + [step], c, s.clients[c])
    ensures AllAsked(front + [step], c, Next(Run(START, front), step).clients[c])
  {
    var steps := front + [step];
    assert steps[..|front|] == front;
    if step.mark.Some? {
      assert AskedAt(steps, |front|, c, Some(step.id), step.mark, false);
    }
  }

  /** No other step of the client makes a request or changes the label of one. */
  lemma ClientStepAsks(s: System, steps: seq<Step>, step: Step, c: nat)
    requires OnClient(step) && !step.Subscribe? && step.c == c
    requires c < |s.clients| && AllAsked(steps, c, s.clients[c])
    ensures AllAsked(steps, c, Next(s, step).clients[c])
  {
  }

  lemma NextAsks(front: seq<Step>, step: Step, c: nat)
    requires c < |Run(START, front).clients| && AllAsked(front, c, Run(START, front).clients[c])
    ensures c < |Next(Run(START, front), step).clients|
    ensures AllAsked(front + [step], c, Next(Run(START, front), step).clients[c])
  {
    var s := Run(START, front);
    AllAskedGrows(front, step, c, s.clients[c]);
    if step.Deliver? && s.channel != [] {
      DeliverAsks(front, c);
    } else if step.Subscribe? && step.c == c {
      SubscribeAsks(front, step, c);
    } else if OnClient(step) && step.c == c {
      ClientStepAsks(s, front + [step], step, c);
    } else {
      assert Next(s, step).clients[c] == s.clients[c];
    }
  }

  /** Every request under way and every snapshot sent was asked for, with its target and its label. */
  lemma {:induction false} EverySnapshotWasAskedFor(steps: seq<Step>, c: nat)
    requires c < |Run(START, steps).clients|
    ensures AllAsked(steps, c, Run(START, steps).clients[c])
  {
    if steps != [] {
      var front, last := steps[..|steps| - 1], steps[|steps| - 1];
      if c < |Run(START, front).clients| {
        EverySnapshotWasAskedFor(front, c);
        NextAsks(front, last, c);
        assert front + [last] == steps;
      } else {
        assert Run(START, steps).clients[c] == FRESH;
      }
    }
  }

  // ---------------------------------------------------------------------
  // No gap
  // ---------------------------------------------------------------------

  /** The snapshot is the incident as it was when e and at least everything before it had been logged, and shows e. */
  ghost predicate Shown(x: Snapshot, es: seq<Log.Event>, e: Log.Event)
    requires 1 <= e.id
  {
    && e.id <= x.upTo <= |es| && x.target == Some(e.incidentId)
    && x.incident == Log.Lookup(Log.Replay(es[..x.upTo]).incidents, e.incidentId)
    && Log.Shows(x.incident, es[..x.upTo], e)
  }

  /** The request will be, or has been, answered with a body that shows e. */
  ghost predicate FetchShows(f: Fetch, es: seq<Log.Event>, e: Log.Event)
    requires 1 <= e.id
  {
    f.target == Some(e.incidentId) && (f.answer.None? || Shown(SnapshotOf(f), es, e))
  }

  ghost predicate SnapshotShows(c: Client, es: seq<Log.Event>, e: Log.Event)
    requires 1 <= e.id
  {
    exists k :: 0 <= k < |c.snapshots| && Shown(c.snapshots[k], es, e)
  }

  /** The client got e: as a delta whose send succeeded, or visible in a snapshot. */
  ghost predicate Received(c: Client, es: seq<Log.Event>, e: Log.Event)
    requires 1 <= e.id <= |es|
  {
    Logged(e) in c.delivered || SnapshotShows(c, es, e)
  }

  ghost predicate Holds(c: Client, es: seq<Log.Event>, e: Log.Event)
    requires 1 <= e.id <= |es|
  {
    || Received(c, es, e)
    || Logged(e) in c.inflight
    || Logged(e) in c.queue
    || exists k :: 0 <= k < |c.fetches| && FetchShows(c.fetches[k], es, e)
  }

  /** An event of incident i that a snapshot can show. */
  ghost predicate Visible(s: System, i: int, e: Log.Event) {
    e in s.svc.events && 1 <= e.id <= |s.svc.events| && e.incidentId == i && !e.payload.AttachmentAdded?
  }

  ghost predicate Watching(s: System, c: nat, i: int) {
    && c < |s.clients|
    && s.clients[c].registered && s.clients[c].ready == Open && s.clients[c].incidentId == Some(i)
    && forall e :: Visible(s, i, e) ==> Holds(s.clients[c], s.svc.events, e) || Logged(e) in s.channel
  }

  /** Client c stays subscribed to i, none of its fetches fails, and no notice of an event of i is lost. */
  predicate Harmless(s: System, step: Step, c: nat, i: int) {
    match step
    case Lose(at) => at >= |s.channel| || s.channel[at].Other? || s.channel[at].event.incidentId != i
    case FetchFail(c', _) => c' != c
    case Subscribe(c', id, _) => c' != c || id == i
    case _ => true
  }

  lemma ShownGrows(x: Snapshot, es: seq<Log.Event>, e: Log.Event, more: seq<Log.Event>)
    requires 1 <= e.id && Shown(x, es, e)
    ensures Shown(x, es + more, e)
  {
    assert (es + more)[..x.upTo] == es[..x.upTo];
  }

  lemma HoldsGrows(c: Client, es: seq<Log.Event>, e: Log.Event, more: seq<Log.Event>)
    requires 1 <= e.id <= |es| && Holds(c, es, e)
    ensures Holds(c, es + more, e)
  {
    if SnapshotShows(c, es, e) {
      var k :| 0 <= k < |c.snapshots| && Shown(c.snapshots[k], es, e);
      ShownGrows(c.snapshots[k], es, e, more);
    } else if exists k :: 0 <= k < |c.fetches| && FetchShows(c.fetches[k], es, e) {
      var k :| 0 <= k < |c.fetches| && FetchShows(c.fetches[k], es, e);
      if c.fetches[k].answer.Some? {
        ShownGrows(SnapshotOf(c.fetches[k]), es, e, more);
      }
      assert FetchShows(c.fetches[k], es + more, e);
    }
  }

  /** Client c' keeps all that c held, if nothing it recorded is forgotten and queued notices only move on. */
  lemma HoldsMoves(c: Client, c': Client, es: seq<Log.Event>, e: Log.Event)
    requires 1 <= e.id <= |es| && Holds(c, es, e)
    requires c.snapshots <= c'.snapshots && c.fetches <= c'.fetches
    requires forall n :: n in c.delivered ==> n in c'.delivered
    requires forall n :: n in c.inflight || n in c.queue ==> n in c'.delivered || n in c'.inflight || n in c'.queue
    ensures Holds(c', es, e)
  {
    if SnapshotShows(c, es, e) {
      var k :| 0 <= k < |c.snapshots| && Shown(c.snapshots[k], es, e);
      assert c'.snapshots[k] == c.snapshots[k];
    } else if exists k :: 0 <= k < |c.fetches| && FetchShows(c.fetches[k], es, e) {
      var k :| 0 <= k < |c.fetches| && FetchShows(c.fetches[k], es, e);
      assert c'.fetches[k] == c.fetches[k];
    }
  }

  lemma FlushMoves(c: Client)
    ensures var c' := Flushed(c);
      forall n :: n in c.inflight || n in c.queue <==> n in c'.inflight || n in c'.queue
  {
    if c.queue != [] {
      assert c.queue == [c.queue[0]] + c.queue[1..];
    }
  }

  /** An overflow loses notices but starts a fetch that will show them; otherwise the notice joins the queue. */
  lemma EnqueueHolds(c: Client, n: Notice, es: seq<Log.Event>, e: Log.Event)
    requires 1 <= e.id <= |es| && c.incidentId == Some(e.incidentId)
    requires Holds(c, es, e) || n == Logged(e)
    ensures Holds(Enqueued(c, n), es, e)
  {
    var c' := Enqueued(c, n);
    if |c.queue| >= MAX_QUEUE {
      assert FetchShows(c'.fetches[|c.fetches|], es, e);
    } else {
      var pushed := c.(offered := c.offered + [n], queue := c.queue + [n]);
      FlushMoves(pushed);
      if n == Logged(e) {
        assert n in pushed.queue;
      } else {
        HoldsMoves(c, c', es, e);
      }
    }
  }

  lemma SendOkHolds(c: Client, es: seq<Log.Event>, e: Log.Event)
    requires 1 <= e.id <= |es| && Holds(c, es, e) && c.inflight != []
    ensures Holds(SendDone(c, false), es, e)
  {
    var c' := c.(sending := false, inflight := c.inflight[1..], delivered := c.delivered + [c.inflight[0]]);
    assert c.inflight == [c.inflight[0]] + c.inflight[1..];
    FlushMoves(c');
    HoldsMoves(c, SendDone(c, false), es, e);
  }

  lemma SubscribedHolds(c: Client, id: int, mark: Option<int>, es: seq<Log.Event>, e: Log.Event)
    requires 1 <= e.id <= |es| && Holds(c, es, e)
    ensures Holds(Subscribed(c, id, mark), es, e)
  {
    HoldsMoves(c, Subscribed(c, id, mark), es, e);
  }

  /** A fetch reads the log when it is answered, so the answer shows everything logged by then. */
  lemma AnsweredHolds(svc: Log.State, c: Client, k: nat, e: Log.Event)
    requires Log.Inv(svc) && e in svc.events && 1 <= e.id <= |svc.events| && !e.payload.AttachmentAdded?
    requires k < |c.fetches| && c.fetches[k].answer.None?
    requires Holds(c, svc.events, e)
    ensures Holds(Answered(c, k, ReadNow(svc, c.fetches[k].target)), svc.events, e)
  {
    var c' := Answered(c, k, ReadNow(svc, c.fetches[k].target));
    if c.fetches[k].target == Some(e.incidentId) {
      Log.ReplayShows(svc.events, e);
      assert svc.events[..|svc.events|] == svc.events;
      assert FetchShows(c'.fetches[k], svc.events, e);
    } else if exists j :: 0 <= j < |c.fetches| && FetchShows(c.fetches[j], svc.events, e) {
      var j :| 0 <= j < |c.fetches| && FetchShows(c.fetches[j], svc.events, e);
      assert c'.fetches[j] == c.fetches[j];
    }
  }

  lemma SnapshotSentHolds(c: Client, k: nat, es: seq<Log.Event>, e: Log.Event)
    requires 1 <= e.id <= |es| && k < |c.fetches| && c.fetches[k].answer.Some? && c.ready == Open
    requires Holds(c, es, e)
    ensures Holds(SnapshotSent(c, k), es, e)
  {
    var c' := SnapshotSent(c, k);
    if SnapshotShows(c, es, e) {
      var j :| 0 <= j < |c.snapshots| && Shown(c.snapshots[j], es, e);
      assert c'.snapshots[j] == c.snapshots[j];
    } else if exists j :: 0 <= j < |c.fetches| && FetchShows(c.fetches[j], es, e) {
      var j :| 0 <= j < |c.fetches| && FetchShows(c.fetches[j], es, e);
      if j == k {
        assert c'.snapshots[|c.snapshots|] == SnapshotOf(c.fetches[k]);
        assert Shown(c'.snapshots[|c.snapshots|], es, e);
      } else {
        assert c'.fetches[if j < k then j else j - 1] == c.fetches[j];
      }
    }
  }

  lemma ClientStepHolds(s: System, c: nat, i: int, step: Step, e: Log.Event)
    requires Inv(s) && Watching(s, c, i) && OnClient(step) && step.c == c && Harmless(s, step, c, i)
    requires ClientNext(s, s.clients[c], step).ready == Open
    requires Visible(s, i, e) && Holds(s.clients[c], s.svc.events, e)
    ensures Holds(ClientNext(s, s.clients[c], step), s.svc.events, e)
  {
    var cl, es := s.clients[c], s.svc.events;
    match step
    case Subscribe(_, id, mark) => SubscribedHolds(cl, id, mark, es, e);
    case SendOk(_) => if cl.inflight != [] { SendOkHolds(cl, es, e); }
    case SnapshotSend(_, k) =>
      if k < |cl.fetches| && cl.fetches[k].answer.Some? {
        SnapshotSentHolds(cl, k, es, e);
      }
    case FetchRead(_, k) =>
      if k < |cl.fetches| && cl.fetches[k].answer.None? {
        AnsweredHolds(s.svc, cl, k, e);
      }
    case _ =>
  }

  lemma DeliverHolds(s: System, c: nat, i: int, e: Log.Event)
    requires Watching(s, c, i) && Visible(s, i, e) && s.channel != []
    ensures Holds(Broadcasted(s.clients[c], s.channel[0]), s.svc.events, e) || Logged(e) in s.channel[1..]
  {
    var cl, n := s.clients[c], s.channel[0];
    assert s.channel == [n] + s.channel[1..];
    if Wants(cl, n) && (Holds(cl, s.svc.events, e) || n == Logged(e)) {
      EnqueueHolds(cl, n, s.svc.events, e);
    }
  }

  lemma {:induction false} CommitWatches(s: System, request: Log.Request, c: nat, i: int)
    requires Inv(s) && Watching(s, c, i)
    ensures Watching(Next(s, Commit(request)), c, i)
  {
    var s' := Next(s, Commit(request));
    CommitNews(s, request);
    if s'.svc != s.svc {
      var news := s'.svc.events[|s.svc.events|];
      Log.LogFacts(s.svc.events);
      forall e | Visible(s', i, e)
        ensures Holds(s'.clients[c], s'.svc.events, e) || Logged(e) in s'.channel
      {
        if e != news {
          assert e in s.svc.events;
          assert Visible(s, i, e);
          if Holds(s.clients[c], s.svc.events, e) {
            HoldsGrows(s.clients[c], s.svc.events, e, [news]);
          }
        }
      }
    }
  }

  lemma OtherClientWatches(s: System, step: Step, c: nat, i: int)
    requires Watching(s, c, i)
    requires step.Publish? || step.Connect? || (OnClient(step) && step.c != c)
    ensures Watching(Next(s, step), c, i)
  {
    var s' := Next(s, step);
    forall e | Visible(s', i, e)
      ensures Holds(s'.clients[c], s'.svc.events, e) || Logged(e) in s'.channel
    {
      assert Visible(s, i, e);
    }
  }

  lemma ClientStepWatches(s: System, step: Step, c: nat, i: int)
    requires Inv(s) && Watching(s, c, i) && Harmless(s, step, c, i) && OnClient(step) && step.c == c
    requires Next(s, step).clients[c].ready == Open
    ensures Watching(Next(s, step), c, i)
  {
    var s' := Next(s, step);
    forall e | Visible(s', i, e)
      ensures Holds(s'.clients[c], s'.svc.events, e) || Logged(e) in s'.channel
    {
      assert Visible(s, i, e);
      if Holds(s.clients[c], s.svc.events, e) {
        ClientStepHolds(s, c, i, step, e);
      }
    }
  }

  lemma LoseWatches(s: System, at: nat, c: nat, i: int)
    requires Watching(s, c, i) && Harmless(s, Lose(at), c, i)
    ensures Watching(Next(s, Lose(at)), c, i)
  {
    var s' := Next(s, Lose(at));
    if at < |s.channel| {
      assert s.channel == s.channel[..at] + [s.channel[at]] + s.channel[at + 1..];
      forall e | Visible(s', i, e)
        ensures Holds(s'.clients[c], s'.svc.events, e) || Logged(e) in s'.channel
      {
        assert Visible(s, i, e);
      }
    }
  }

  lemma DeliverWatches(s: System, c: nat, i: int)
    requires Watching(s, c, i)
    ensures Watching(Next(s, Deliver), c, i)
  {
    var s' := Next(s, Deliver);
    if s.channel != [] {
      forall e | Visible(s', i, e)
        ensures Holds(s'.clients[c], s'.svc.events, e) || Logged(e) in s'.channel
      {
        assert Visible(s, i, e);
        DeliverHolds(s, c, i, e);
      }
    }
  }

  lemma NextWatches(s: System, step: Step, c: nat, i: int)
    requires Inv(s) && Watching(s, c, i) && Harmless(s, step, c, i)
    requires Next(s, step).clients[c].ready == Open
    ensures Watching(Next(s, step), c, i)
  {
    if step.Commit? {
      CommitWatches(s, step.request, c, i);
    } else if step.Lose? {
      LoseWatches(s, step.at, c, i);
    } else if step.Deliver? {
      DeliverWatches(s, c, i);
    } else if OnClient(step) && step.c == c {
      ClientStepWatches(s, step, c, i);
    } else {
      OtherClientWatches(s, step, c, i);
    }
  }

  /** A socket that is not open never opens again, and a connection is never forgotten by the model. */
  lemma NextReady(s: System, step: Step, c: nat)
    requires c < |s.clients|
    ensures var s' := Next(s, step);
      c < |s'.clients| && (s'.clients[c].ready == Open ==> s.clients[c].ready == Open)
  {
  }

  ghost predicate HarmlessRun(s: System, steps: seq<Step>, c: nat, i: int) {
    steps == [] ||
    var front, last := steps[..|steps| - 1], steps[|steps| - 1];
    HarmlessRun(s, front, c, i) && Harmless(Run(s, front), last, c, i)
  }

  lemma {:induction false} RunWatches(s: System, steps: seq<Step>, c: nat, i: int)
    requires Inv(s) && Watching(s, c, i) && HarmlessRun(s, steps, c, i)
    ensures c < |Run(s, steps).clients|
    ensures Run(s, steps).clients[c].ready == Open ==> Watching(Run(s, steps), c, i)
  {
    if steps != [] {
      var front, last := steps[..|steps| - 1], steps[|steps| - 1];
      RunWatches(s, front, c, i);
      RunKeepsInv(s, front);
      NextReady(Run(s, front), last, c);
      if Run(s, steps).clients[c].ready == Open {
        NextWatches(Run(s, front), last, c, i);
      }
    }
  }

  /** Nothing of incident i is on its way to client c. */
  ghost predicate Quiescent(s: System, c: nat, i: int)
    requires c < |s.clients|
  {
    && s.clients[c].inflight == [] && s.clients[c].fetches == []
    && forall n :: n in s.channel && n.Logged? ==> n.event.incidentId != i
  }

  /** The run up to a numeric subscription of an open client, the subscription, and what comes after. */
  ghost predicate Follows(before: seq<Step>, c: nat, i: int, mark: int, after: seq<Step>) {
    var s0 := Run(START, before);
    && c < |s0.clients| && s0.clients[c].registered && s0.clients[c].ready == Open
    && var s1 := Next(s0, Subscribe(c, i, Some(mark)));
    && HarmlessRun(s1, after, c, i)
    && var s := Run(s1, after);
    c < |s.clients| && s.clients[c].ready == Open && Quiescent(s, c, i)
  }

  ghost function Final(before: seq<Step>, c: nat, i: int, mark: int, after: seq<Step>): System {
    Run(Next(Run(START, before), Subscribe(c, i, Some(mark))), after)
  }

  lemma SubscribeWatches(s: System, c: nat, i: int, mark: int)
    requires Inv(s) && c < |s.clients| && s.clients[c].registered && s.clients[c].ready == Open
    ensures Watching(Next(s, Subscribe(c, i, Some(mark))), c, i)
  {
    var s' := Next(s, Subscribe(c, i, Some(mark)));
    forall e | Visible(s', i, e)
      ensures Holds(s'.clients[c], s'.svc.events, e)
    {
      assert FetchShows(s'.clients[c].fetches[|s.clients[c].fetches|], s'.svc.events, e);
    }
  }

  lemma {:induction false} FinalOk(before: seq<Step>, c: nat, i: int, mark: int, after: seq<Step>)
    requires Follows(before, c, i, mark, after)
    ensures Inv(Final(before, c, i, mark, after)) && Watching(Final(before, c, i, mark, after), c, i)
  {
    var s0 := Run(START, before);
    var s1 := Next(s0, Subscribe(c, i, Some(mark)));
    RunKeepsInv(START, before);
    SubscribeWatches(s0, c, i, mark);
    NextKeepsInv(s0, Subscribe(c, i, Some(mark)));
    RunWatches(s1, after, c, i);
    RunKeepsInv(s1, after);
  }

  /**
   Snapshot plus deltas leave no gap: at quiescence the client has received every event of its incident except
   possibly attachments. Events logged before the subscription, lost before it, or dropped by an overflow are included.
   */
  lemma {:induction false} NoGap(before: seq<Step>, c: nat, i: int, mark: int, after: seq<Step>)
    requires Follows(before, c, i, mark, after)
    ensures var s := Final(before, c, i, mark, after);
      forall e :: Visible(s, i, e) ==> Received(s.clients[c], s.svc.events, e)
  {
    FinalOk(before, c, i, mark, after);
    var s := Final(before, c, i, mark, after);
    assert ClientOk(s.clients[c], s);
    assert s.clients[c].queue == [];
    forall e | Visible(s, i, e)
      ensures Received(s.clients[c], s.svc.events, e)
    {
      assert Logged(e) !in s.channel;
    }
  }

  lemma {:induction false} OrderedOnce(ns: seq<Notice>, e: Log.Event)
    requires Ordered(ns)
    ensures multiset(ns)[Logged(e)] <= 1
  {
    if ns != [] {
      var front, n := ns[..|ns| - 1], ns[|ns| - 1];
      assert ns == front + [n];
      OrderedOnce(front, e);
      assert forall i :: 0 <= i < |front| ==> front[i] == ns[i];
      if n == Logged(e) && n in front {
        assert false;
      }
    }
  }

  /** A notice that was offered in order is either handed over or dropped, not both. */
  lemma HandedOrDropped(c: Client, e: Log.Event)
    requires Accounted(c) && Ordered(c.offered) && c.queue == []
    ensures Logged(e) in c.handed <==> Logged(e) in c.offered && Logged(e) !in c.dropped
  {
    var n := Logged(e);
    Conservation(c);
    OrderedOnce(c.offered, e);
    assert multiset(c.offered)[n] == multiset(c.handed)[n] + multiset(c.dropped)[n];
  }

  lemma AttachmentReceived(s: System, c: nat, i: int, e: Log.Event)
    requires Inv(s) && Watching(s, c, i) && Quiescent(s, c, i)
    requires 1 <= e.id <= |s.svc.events| && e.payload.AttachmentAdded?
    ensures var cl := s.clients[c];
      Received(cl, s.svc.events, e) <==> Logged(e) in cl.offered && Logged(e) !in cl.dropped
  {
    var cl := s.clients[c];
    assert ClientOk(cl, s);
    assert !SnapshotShows(cl, s.svc.events, e);
    assert cl.queue == [] && cl.handed == cl.delivered;
    assert cl.offered == (cl.offered + s.channel)[..|cl.offered|];
    HandedOrDropped(cl, e);
  }

  // ---------------------------------------------------------------------
  // Which notices find the client, seen from the moment it subscribes
  // ---------------------------------------------------------------------

  /** At s0 the notice of e has already been offered to client c, is on its way, or is still to be committed. */
  ghost predicate Due(s0: System, c: nat, e: Log.Event)
    requires c < |s0.clients|
  {
    Logged(e) in s0.clients[c].offered || Logged(e) in s0.channel || e.id > |s0.svc.events|
  }

  /** Since s0, notices of incident i have only moved from the channel to client c. */
  ghost predicate Tracks(s0: System, s: System, c: nat, i: int)
    requires c < |s0.clients| && c < |s.clients|
  {
    && |s0.svc.events| <= |s.svc.events|
    && forall e :: e in s.svc.events && e.incidentId == i ==>
         (Logged(e) in s.clients[c].offered || Logged(e) in s.channel <==> Due(s0, c, e))
  }

  lemma CommitTracks(s0: System, s: System, request: Log.Request, c: nat, i: int)
    requires Inv(s) && c < |s0.clients| && c < |s.clients| && Tracks(s0, s, c, i)
    ensures Tracks(s0, Next(s, Commit(request)), c, i)
  {
    var s' := Next(s, Commit(request));
    CommitNews(s, request);
    if s'.svc != s.svc {
      var news := s'.svc.events[|s.svc.events|];
      Log.LogFacts(s.svc.events);
      forall e | e in s'.svc.events && e.incidentId == i
        ensures Logged(e) in s'.clients[c].offered || Logged(e) in s'.channel <==> Due(s0, c, e)
      {
        assert e == news || e in s.svc.events;
      }
    }
  }

  lemma DeliverTracks(s0: System, s: System, c: nat, i: int)
    requires c < |s0.clients| && Watching(s, c, i) && Tracks(s0, s, c, i)
    ensures Tracks(s0, Next(s, Deliver), c, i)
  {
    if s.channel != [] {
      var cl, n := s.clients[c], s.channel[0];
      assert s.channel == [n] + s.channel[1..];
      EnqueueFrame(cl, n);
      forall e | e in s.svc.events && e.incidentId == i
        ensures Logged(e) in Broadcasted(cl, n).offered || Logged(e) in s.channel[1..] <==> Due(s0, c, e)
      {
        assert n == Logged(e) ==> Wants(cl, n);
      }
    }
  }

  lemma LoseTracks(s0: System, s: System, at: nat, c: nat, i: int)
    requires c < |s0.clients| && c < |s.clients| && Tracks(s0, s, c, i) && Harmless(s, Lose(at), c, i)
    ensures Tracks(s0, Next(s, Lose(at)), c, i)
  {
    if at < |s.channel| {
      assert s.channel == s.channel[..at] + [s.channel[at]] + s.channel[at + 1..];
    }
  }

  lemma ClientStepOffers(s: System, c: Client, step: Step)
    requires OnClient(step)
    ensures ClientNext(s, c, step).offered == c.offered
  {
  }

  lemma NextTracks(s0: System, s: System, step: Step, c: nat, i: int)
    requires c < |s0.clients| && Inv(s) && Watching(s, c, i) && Tracks(s0, s, c, i) && Harmless(s, step, c, i)
    ensures c < |Next(s, step).clients| && Tracks(s0, Next(s, step), c, i)
  {
    if step.Commit? {
      CommitTracks(s0, s, step.request, c, i);
    } else if step.Deliver? {
      DeliverTracks(s0, s, c, i);
    } else if step.Lose? {
      LoseTracks(s0, s, step.at, c, i);
    } else if OnClient(step) {
      ClientStepOffers(s, s.clients[c], step);
    }
  }

  lemma {:induction false} RunTracks(s0: System, s1: System, steps: seq<Step>, c: nat, i: int)
    requires c < |s0.clients| && Inv(s1) && Watching(s1, c, i) && HarmlessRun(s1, steps, c, i)
    requires Tracks(s0, s1, c, i)
    ensures c < |Run(s1, steps).clients|
    ensures Run(s1, steps).clients[c].ready == Open ==> Tracks(s0, Run(s1, steps), c, i)
  {
    if steps != [] {
      var front, last := steps[..|steps| - 1], steps[|steps| - 1];
      RunTracks(s0, s1, front, c, i);
      RunWatches(s1, front, c, i);
      RunKeepsInv(s1, front);
      NextReady(Run(s1, front), last, c);
      if Run(s1, steps).clients[c].ready == Open {
        NextTracks(s0, Run(s1, front), last, c, i);
      }
    }
  }

  lemma SubscribeTracks(s0: System, c: nat, i: int, mark: int)
    requires Inv(s0) && c < |s0.clients|
    ensures Tracks(s0, Next(s0, Subscribe(c, i, Some(mark))), c, i)
  {
    Log.LogFacts(s0.svc.events);
    ClientStepOffers(s0, s0.clients[c], Subscribe(c, i, Some(mark)));
  }

  lemma FinalTracks(before: seq<Step>, c: nat, i: int, mark: int, after: seq<Step>)
    requires Follows(before, c, i, mark, after)
    ensures Tracks(Run(START, before), Final(before, c, i, mark, after), c, i)
  {
    var s0 := Run(START, before);
    RunKeepsInv(START, before);
    SubscribeTracks(s0, c, i, mark);
    SubscribeWatches(s0, c, i, mark);
    NextKeepsInv(s0, Subscribe(c, i, Some(mark)));
    RunTracks(s0, Next(s0, Subscribe(c, i, Some(mark))), after, c, i);
  }

  /**
   Under the hypotheses of `NoGap` a notice of the incident finds the client if and only if, at the moment of the
   subscription, it had been offered to it before, was on its way, or was yet to be committed.
   */
  lemma {:induction false} OfferedExactly(before: seq<Step>, c: nat, i: int, mark: int, after: seq<Step>, e: Log.Event)
    requires Follows(before, c, i, mark, after)
    requires var s := Final(before, c, i, mark, after); e in s.svc.events && e.incidentId == i
    ensures var cl := Final(before, c, i, mark, after).clients[c];
      Logged(e) in cl.offered <==> Due(Run(START, before), c, e)
  {
    FinalTracks(before, c, i, mark, after);
  }

  /** Notices are only dropped by an overflow, which is counted. */
  lemma NextDrops(s: System, step: Step, c: nat)
    requires c < |s.clients|
    ensures var cl, cl' := s.clients[c], Next(s, step).clients[c];
      cl'.overflows >= cl.overflows && (cl'.overflows == cl.overflows ==> cl'.dropped == cl.dropped)
  {
  }

  lemma {:induction false} RunDrops(s: System, steps: seq<Step>, c: nat)
    requires c < |s.clients|
    ensures c < |Run(s, steps).clients|
    ensures var cl, cl' := s.clients[c], Run(s, steps).clients[c];
      cl'.overflows >= cl.overflows && (cl'.overflows == cl.overflows ==> cl'.dropped == cl.dropped)
  {
    if steps != [] {
      var front, last := steps[..|steps| - 1], steps[|steps| - 1];
      RunDrops(s, front, c);
      NextReady(Run(s, front), last, c);
      NextDrops(Run(s, front), last, c);
    }
  }

  /** The step delivers a notice that the client wants to a full queue, and e is in that queue or is that notice. */
  ghost predicate Takes(s: System, step: Step, c: nat, e: Log.Event)
    requires c < |s.clients|
  {
    && step.Deliver? && s.channel != []
    && s.clients[c].registered && Concerns(s.channel[0], s.clients[c].incidentId) && |s.clients[c].queue| >= 100
    && (Logged(e) in s.clients[c].queue || Logged(e) == s.channel[0])
  }

  lemma EnqueueTakes(c: Client, n: Notice, e: Log.Event)
    ensures Logged(e) in Enqueued(c, n).dropped <==>
      Logged(e) in c.dropped || (|c.queue| >= MAX_QUEUE && (Logged(e) in c.queue || Logged(e) == n))
  {
  }

  lemma NextTakes(s: System, step: Step, c: nat, e: Log.Event)
    requires c < |s.clients|
    ensures c < |Next(s, step).clients|
    ensures Logged(e) in Next(s, step).clients[c].dropped <==>
      Logged(e) in s.clients[c].dropped || Takes(s, step, c, e)
  {
    NextReady(s, step, c);
    if step.Deliver? && s.channel != [] {
      EnqueueTakes(s.clients[c], s.channel[0], e);
    } else {
      NextDrops(s, step, c);
    }
  }

  /** The client was there before step k, which takes e from it. */
  ghost predicate TakenAt(s: System, steps: seq<Step>, k: nat, c: nat, e: Log.Event)
    requires k < |steps|
  {
    c < |Run(s, steps[..k]).clients| && Takes(Run(s, steps[..k]), steps[k], c, e)
  }

  /** Some step of the run takes e from the client. */
  ghost predicate TakenIn(s: System, steps: seq<Step>, c: nat, e: Log.Event) {
    exists k: nat :: k < |steps| && TakenAt(s, steps, k, c, e)
  }

  lemma TakenAtFront(s: System, steps: seq<Step>, k: nat, c: nat, e: Log.Event)
    requires k + 1 < |steps|
    ensures TakenAt(s, steps, k, c, e) <==> TakenAt(s, steps[..|steps| - 1], k, c, e)
  {
    assert steps[..|steps| - 1][..k] == steps[..k];
  }

  lemma TakenSnoc(s: System, steps: seq<Step>, c: nat, e: Log.Event)
    requires steps != [] && c < |Run(s, steps[..|steps| - 1]).clients|
    ensures var front, last := steps[..|steps| - 1], steps[|steps| - 1];
      TakenIn(s, steps, c, e) <==> TakenIn(s, front, c, e) || Takes(Run(s, front), last, c, e)
  {
    var n := |steps| - 1;
    assert TakenAt(s, steps, n, c, e) <==> Takes(Run(s, steps[..n]), steps[n], c, e);
    forall k: nat | k < n
      ensures TakenAt(s, steps, k, c, e) <==> TakenAt(s, steps[..n], k, c, e)
    {
      TakenAtFront(s, steps, k, c, e);
    }
  }

  lemma {:induction false} RunTakes(s: System, steps: seq<Step>, c: nat, e: Log.Event)
    requires c < |s.clients|
    ensures c < |Run(s, steps).clients|
    ensures Logged(e) in Run(s, steps).clients[c].dropped <==>
      Logged(e) in s.clients[c].dropped || TakenIn(s, steps, c, e)
  {
    if steps != [] {
      var front, last := steps[..|steps| - 1], steps[|steps| - 1];
      RunTakes(s, front, c, e);
      NextTakes(Run(s, front), last, c, e);
      TakenSnoc(s, steps, c, e);
    }
  }

  /** Without a further overflow nothing is taken, otherwise exactly what was in or at a full queue. */
  lemma FinalDrops(before: seq<Step>, c: nat, i: int, mark: int, after: seq<Step>, e: Log.Event)
    requires Follows(before, c, i, mark, after)
    ensures var s0, s := Run(START, before), Final(before, c, i, mark, after);
      var s1, cl0, cl := Next(s0, Subscribe(c, i, Some(mark))), s0.clients[c], s.clients[c];
      && (cl.overflows == cl0.overflows ==> cl.dropped == cl0.dropped)
      && (Logged(e) in cl.dropped <==> Logged(e) in cl0.dropped || TakenIn(s1, after, c, e))
  {
    var s0 := Run(START, before);
    var s1 := Next(s0, Subscribe(c, i, Some(mark)));
    NextDrops(s0, Subscribe(c, i, Some(mark)), c);
    RunDrops(s1, after, c);
    NextTakes(s0, Subscribe(c, i, Some(mark)), c, e);
    RunTakes(s1, after, c, e);
  }

  lemma AttachmentExactly(before: seq<Step>, c: nat, i: int, mark: int, after: seq<Step>, e: Log.Event)
    requires Follows(before, c, i, mark, after) && e.payload.AttachmentAdded? && e.incidentId == i
    requires var s := Final(before, c, i, mark, after); e in s.svc.events && 1 <= e.id <= |s.svc.events|
    ensures var s := Final(before, c, i, mark, after);
      Received(s.clients[c], s.svc.events, e) <==>
      Due(Run(START, before), c, e) && Logged(e) !in s.clients[c].dropped
  {
    FinalOk(before, c, i, mark, after);
    OfferedExactly(before, c, i, mark, after, e);
    AttachmentReceived(Final(before, c, i, mark, after), c, i, e);
  }

  lemma FinalIds(before: seq<Step>, c: nat, i: int, mark: int, after: seq<Step>)
    requires Follows(before, c, i, mark, after)
    ensures var es := Final(before, c, i, mark, after).svc.events; forall e :: e in es ==> 1 <= e.id <= |es|
  {
    FinalOk(before, c, i, mark, after);
    Log.LogFacts(Final(before, c, i, mark, after).svc.events);
  }

  /**
   Exactly which events reach the client: all but attachments always, an attachment if and only if its notice was due
   and not already dropped when the client subscribed, and no later delivery to a full queue takes it. Without an
   overflow from then on, that is settled at the subscription.
   */
  lemma {:induction false} ReceivedExactly(before: seq<Step>, c: nat, i: int, mark: int, after: seq<Step>, e: Log.Event)
    requires Follows(before, c, i, mark, after)
    requires var s := Final(before, c, i, mark, after); e in s.svc.events && e.incidentId == i
    ensures var s0, s := Run(START, before), Final(before, c, i, mark, after);
      var s1, cl := Next(s0, Subscribe(c, i, Some(mark))), s.clients[c];
      && 1 <= e.id <= |s.svc.events|
      && (Received(cl, s.svc.events, e) <==>
            !e.payload.AttachmentAdded?
            || (Due(s0, c, e) && Logged(e) !in s0.clients[c].dropped && !TakenIn(s1, after, c, e)))
      && (cl.overflows == s0.clients[c].overflows ==>
            (Received(cl, s.svc.events, e) <==>
               !e.payload.AttachmentAdded? || (Due(s0, c, e) && Logged(e) !in s0.clients[c].dropped)))
  {
    FinalIds(before, c, i, mark, after);
    FinalDrops(before, c, i, mark, after, e);
    if e.payload.AttachmentAdded? {
      AttachmentExactly(before, c, i, mark, after, e);
    } else {
      NoGap(before, c, i, mark, after);
    }
  }

  // ---------------------------------------------------------------------
  // A run in which an attachment is missed
  // ---------------------------------------------------------------------

  const FILE := Log.File("map.png", [])
  const BEFORE := [
    Commit(Log.Create("fire", "major", None)), Commit(Log.Attach(1, Some(FILE), "o")), Deliver, Deliver, Connect]
  const AFTER := [FetchRead(0, 0), SnapshotSend(0, 0)]

  const CREATED := Log.Event(1, 1, Log.Created("fire", "major", None))
  const ATTACHED := Log.Event(2, 1, Log.AttachmentAdded(1, "o", "map.png"))

  lemma CommitCreate()
    ensures var s := Next(START, BEFORE[0]);
      && s.svc.events == [CREATED] && s.channel == [Logged(CREATED)] && s.clients == []
      && |s.svc.incidents| == 1 && s.svc.incidents[0].id == 1 && s.svc.nextEventId == 2 && s.svc.nextAttachmentId == 1
  {
  }

  lemma CommitAttach(s: System)
    requires s.svc.events == [CREATED] && s.channel == [Logged(CREATED)] && s.clients == []
    requires |s.svc.incidents| == 1 && s.svc.incidents[0].id == 1
    requires s.svc.nextEventId == 2 && s.svc.nextAttachmentId == 1
    ensures var t := Next(s, BEFORE[1]);
      t.svc.events == [CREATED, ATTACHED] && t.channel == [Logged(CREATED), Logged(ATTACHED)] && t.clients == []
  {
    assert Log.Find(s.svc.incidents, 1) == 0;
  }

  lemma RunCommits()
    ensures var s := Run(START, [BEFORE[0], BEFORE[1]]);
      s.svc.events == [CREATED, ATTACHED] && s.channel == [Logged(CREATED), Logged(ATTACHED)] && s.clients == []
  {
    RunSnoc(START, [], BEFORE[0]);
    RunSnoc(START, [BEFORE[0]], BEFORE[1]);
    assert [] + [BEFORE[0]] == [BEFORE[0]];
    assert [BEFORE[0]] + [BEFORE[1]] == [BEFORE[0], BEFORE[1]];
    CommitCreate();
    CommitAttach(Next(START, BEFORE[0]));
  }

  lemma DrainAndConnect(s: System)
    requires |s.channel| == 2 && s.clients == []
    ensures var t := Next(Next(Next(s, Deliver), Deliver), Connect);
      t.svc == s.svc && t.channel == [] && t.clients == [FRESH]
  {
  }

  lemma RunBefore()
    ensures var s := Run(START, BEFORE);
      s.svc.events == [CREATED, ATTACHED] && s.channel == [] && s.clients == [FRESH]
  {
    var two := [BEFORE[0], BEFORE[1]];
    RunCommits();
    DrainAndConnect(Run(START, two));
    RunSnoc(START, two, Deliver);
    RunSnoc(START, two + [Deliver], Deliver);
    RunSnoc(START, two + [Deliver] + [Deliver], Connect);
    assert two + [Deliver] + [Deliver] + [Connect] == BEFORE;
  }

  lemma RunAfter(s1: System)
    requires |s1.clients| == 1 && s1.clients[0] == Subscribed(FRESH, 1, Some(0))
    ensures var s := Run(s1, AFTER);
      && s.svc == s1.svc && s.channel == s1.channel && |s.clients| == 1
      && s.clients[0].ready == Open && s.clients[0].delivered == []
      && s.clients[0].inflight == [] && s.clients[0].fetches == []
    ensures HarmlessRun(s1, AFTER, 0, 1)
  {
    RunSnoc(s1, [], FetchRead(0, 0));
    RunSnoc(s1, [FetchRead(0, 0)], SnapshotSend(0, 0));
    assert [] + [FetchRead(0, 0)] == [FetchRead(0, 0)];
    assert [FetchRead(0, 0)] + [SnapshotSend(0, 0)] == AFTER;
  }

  lemma AttachmentFollows()
    ensures Follows(BEFORE, 0, 1, 0, AFTER)
    ensures var s := Final(BEFORE, 0, 1, 0, AFTER); s.svc.events == [CREATED, ATTACHED] && s.clients[0].delivered == []
  {
    RunBefore();
    RunAfter(Next(Run(START, BEFORE), Subscribe(0, 1, Some(0))));
  }

  /**
   An attachment uploaded before the client subscribes never reaches it, although nothing was lost and nothing
   failed.
   */
  lemma AttachmentMissed()
    ensures Follows(BEFORE, 0, 1, 0, AFTER)
    ensures var s := Final(BEFORE, 0, 1, 0, AFTER);
      ATTACHED in s.svc.events && ATTACHED.incidentId == 1 && ATTACHED.id <= |s.svc.events|
      && !Due(Run(START, BEFORE), 0, ATTACHED) && !Received(s.clients[0], s.svc.events, ATTACHED)
  {
    RunBefore();
    AttachmentFollows();
  }
}
