/**
 realtime-svc: one bounded queue, one send in flight and one subscription per
 socket; `broadcast` over all sockets.
 */
module Realtime {
  import opened Common
  import Log = IncidentLog

  const MAX_QUEUE: nat := 100

  /** A payload of the `tactix_events` channel. Only log events carry a `seq`, which is their id. */
  datatype Notice =
    | Logged(event: Log.Event)
    | Other(kind: string, about: Option<int>, body: string)
  {
    function IncidentId(): Option<int> {
      if Logged? then Some(event.incidentId) else about
    }

    function Seq(): Option<int> {
      if Logged? then Some(event.id) else None
    }
  }

  datatype Ready = Open | Closing | Closed

  /** The body of GET /incidents/:id, `None` for the 404 body `{}`, and how many events were logged when it was read. */
  datatype Answer = Answer(incident: Option<Log.Incident>, upTo: nat)

  /**
   A request to GET /incidents/:target and the seq its snapshot will be labelled with: that of the notice that
   overflowed the queue, or whatever the client asked for.
   */
  datatype Fetch = Fetch(target: Option<int>, mark: Option<int>, overflow: bool, answer: Option<Answer>)

  /** `upTo` records when the body was read; the frame carries the incident and the mark. */
  datatype Snapshot = Snapshot(
    target: Option<int>, incident: Option<Log.Incident>, upTo: nat, mark: Option<int>, overflow: bool)

  function SnapshotOf(f: Fetch): Snapshot
    requires f.answer.Some?
  {
    Snapshot(f.target, f.answer.value.incident, f.answer.value.upTo, f.mark, f.overflow)
  }

  /**
   One entry of the `clients` map with its socket. `inflight` holds the frames whose send callback has not run,
   `fetches` the requests that have not been answered. The last five fields record what happened.
   */
  datatype Client = Client(
    incidentId: Option<int>, queue: seq<Notice>, sending: bool,
    ready: Ready, registered: bool, inflight: seq<Notice>, fetches: seq<Fetch>,
    offered: seq<Notice>, handed: seq<Notice>, delivered: seq<Notice>, dropped: seq<Notice>, overflows: nat,
    snapshots: seq<Snapshot>)

  const FRESH := Client(None, [], false, Open, true, [], [], [], [], [], [], 0, [])

  predicate Wants(c: Client, n: Notice) {
    (n.Other? && n.kind == "PLAYBOOK_NOTIFY") || (c.incidentId.Some? && c.incidentId == n.IncidentId())
  }

  function Flushed(c: Client): Client {
    if c.sending || c.ready != Open || c.queue == [] then c
    else
      c.(queue := c.queue[1..], sending := true, inflight := c.inflight + [c.queue[0]],
         handed := c.handed + [c.queue[0]])
  }

  function Enqueued(c: Client, n: Notice): Client {
    var c := c.(offered := c.offered + [n]);
    if |c.queue| >= MAX_QUEUE then
      c.(fetches := c.fetches + [Fetch(c.incidentId, n.Seq(), true, None)],
         queue := [], dropped := c.dropped + c.queue + [n], overflows := c.overflows + 1)
    else
      Flushed(c.(queue := c.queue + [n]))
  }

  function Broadcasted(c: Client, n: Notice): Client {
    if c.registered && Wants(c, n) then Enqueued(c, n) else c
  }

  /** The callback of the oldest pending `ws.send`. */
  function SendDone(c: Client, err: bool): Client
    requires c.inflight != []
  {
    var c' := c.(sending := false, inflight := c.inflight[1..]);
    if err then c'.(ready := if c.ready == Open then Closing else c.ready)
    else Flushed(c'.(delivered := c.delivered + [c.inflight[0]]))
  }

  function Subscribed(c: Client, id: int, mark: Option<int>): Client {
    c.(incidentId := Some(id),
       fetches := if mark.Some? then c.fetches + [Fetch(Some(id), mark, false, None)] else c.fetches)
  }

  function Answered(c: Client, k: nat, answer: Answer): Client
    requires k < |c.fetches|
  {
    c.(fetches := c.fetches[k := c.fetches[k].(answer := Some(answer))])
  }

  function FetchFailed(c: Client, k: nat): Client
    requires k < |c.fetches|
  {
    c.(fetches := c.fetches[..k] + c.fetches[k + 1..])
  }

  /** `ws.send` of a snapshot; on a socket that is not open the frame is discarded. */
  function SnapshotSent(c: Client, k: nat): Client
    requires k < |c.fetches| && c.fetches[k].answer.Some?
  {
    var c' := FetchFailed(c, k);
    if c.ready == Open then c'.(snapshots := c.snapshots + [SnapshotOf(c.fetches[k])]) else c'
  }

  function PeerClosing(c: Client): Client {
    if c.ready == Open then c.(ready := Closing) else c
  }

  function Gone(c: Client): Client {
    c.(ready := Closed, registered := false)
  }

  // ---------------------------------------------------------------------
  // The service's objects
  // ---------------------------------------------------------------------

  class Connection {
    var incidentId: Option<int>
    var queue: seq<Notice>
    var sending: bool
    var ready: Ready
    var registered: bool
    var inflight: seq<Notice>
    var fetches: seq<Fetch>
    ghost var offered: seq<Notice>
    ghost var handed: seq<Notice>
    ghost var delivered: seq<Notice>
    ghost var dropped: seq<Notice>
    ghost var overflows: nat
    ghost var snapshots: seq<Snapshot>

    constructor ()
      ensures View() == FRESH
    {
      incidentId, queue, sending, ready, registered, inflight, fetches := None, [], false, Open, true, [], [];
      offered, handed, delivered, dropped, overflows, snapshots := [], [], [], [], 0, [];
    }

    ghost function View(): Client
      reads this
    {
      Client(incidentId, queue, sending, ready, registered, inflight, fetches,
             offered, handed, delivered, dropped, overflows, snapshots)
    }

    method Flush()
      modifies this
      ensures View() == Flushed(old(View()))
    {
      if sending || ready != Open {
        return;
      }
      if queue == [] {
        return;
      }
      var msg := queue[0];
      queue := queue[1..];
      sending := true;
      inflight := inflight + [msg];
      handed := handed + [msg];
    }

    method Enqueue(n: Notice)
      modifies this
      ensures View() == Enqueued(old(View()), n)
    {
      offered := offered + [n];
      if |queue| >= MAX_QUEUE {
        fetches := fetches + [Fetch(incidentId, n.Seq(), true, None)];
        dropped, overflows := dropped + queue + [n], overflows + 1;
        queue := [];
        return;
      }
      queue := queue + [n];
      Flush();
    }

    method OnSendDone(err: bool)
      requires inflight != []
      modifies this
      ensures View() == SendDone(old(View()), err)
    {
      var msg := inflight[0];
      inflight := inflight[1..];
      sending := false;
      if err {
        if ready == Open {
          ready := Closing;
        }
      } else {
        delivered := delivered + [msg];
        Flush();
      }
    }

    method OnSubscribe(id: int, mark: Option<int>)
      modifies this
      ensures View() == Subscribed(old(View()), id, mark)
    {
      incidentId := Some(id);
      if mark.Some? {
        fetches := fetches + [Fetch(incidentId, mark, false, None)];
      }
    }

    method OnClose()
      modifies this
      ensures View() == Gone(old(View()))
    {
      ready, registered := Closed, false;
    }
  }

  class Hub {
    var clients: seq<Connection>

    constructor ()
      ensures clients == []
    {
      clients := [];
    }

    /** The keys of a Map are distinct. */
    ghost predicate Distinct()
      reads this
    {
      forall i, j :: 0 <= i < j < |clients| ==> clients[i] != clients[j]
    }

    method OnConnection() returns (c: Connection)
      requires Distinct()
      modifies this
      ensures Distinct() && fresh(c) && clients == old(clients) + [c] && c.View() == FRESH
    {
      c := new Connection();
      clients := clients + [c];
    }

    method Broadcast(n: Notice)
      requires Distinct()
      modifies set c | c in clients
      ensures clients == old(clients)
      ensures forall k :: 0 <= k < |clients| ==> clients[k].View() == Broadcasted(old(clients[k].View()), n)
    {
      for k := 0 to |clients|
        invariant clients == old(clients)
        invariant forall j :: 0 <= j < k ==> clients[j].View() == Broadcasted(old(clients[j].View()), n)
        invariant forall j :: k <= j < |clients| ==> clients[j].View() == old(clients[j].View())
      {
        var c := clients[k];
        var playbook := n.Other? && n.kind == "PLAYBOOK_NOTIFY";
        if c.registered && (playbook || (c.incidentId.Some? && c.incidentId == n.IncidentId())) {
          c.Enqueue(n);
        }
      }
    }
  }

  // ---------------------------------------------------------------------
  // Fan-out invariant and conservation, one client at a time
  // ---------------------------------------------------------------------

  /**
   The queue is bounded, `sending` means exactly one pending send, an open idle socket has nothing queued, and on
   an open socket nothing handed over has failed.
   */
  ghost predicate FanOutOk(c: Client) {
    && |c.queue| <= MAX_QUEUE
    && |c.inflight| <= 1
    && (c.sending <==> |c.inflight| == 1)
    && (c.ready == Open && !c.sending ==> c.queue == [])
    && (c.ready == Open ==> c.handed == c.delivered + c.inflight)
  }

  /** What `enqueue` was given, cut into frames handed to the socket and blocks lost to an overflow. */
  datatype Piece = Frame(n: Notice) | Block(ns: seq<Notice>)
  {
    function Whole(): seq<Notice> {
      if Frame? then [n] else ns
    }

    function Sent(): seq<Notice> {
      if Frame? then [n] else []
    }

    function Missed(): seq<Notice> {
      if Frame? then [] else ns
    }
  }

  function Flatten(ps: seq<Piece>): seq<Notice> {
    if ps == [] then []
    else Flatten(ps[..|ps| - 1]) + ps[|ps| - 1].Whole()
  }

  function Frames(ps: seq<Piece>): seq<Notice> {
    if ps == [] then []
    else Frames(ps[..|ps| - 1]) + ps[|ps| - 1].Sent()
  }

  function Lost(ps: seq<Piece>): seq<Notice> {
    if ps == [] then []
    else Lost(ps[..|ps| - 1]) + ps[|ps| - 1].Missed()
  }

  function Blocks(ps: seq<Piece>): nat {
    if ps == [] then 0
    else Blocks(ps[..|ps| - 1]) + if ps[|ps| - 1].Block? then 1 else 0
  }

  /**
   `ps` followed by the queue is everything offered, in order: sent frames keep their order, each overflow lost one
   contiguous block of a full queue and the notice that overflowed it, and the queue is the remaining suffix.
   */
  ghost predicate IsCut(c: Client, ps: seq<Piece>) {
    && Flatten(ps) + c.queue == c.offered
    && Frames(ps) == c.handed
    && Lost(ps) == c.dropped
    && Blocks(ps) == c.overflows
    && forall k :: 0 <= k < |ps| && ps[k].Block? ==> |ps[k].ns| == MAX_QUEUE + 1
  }

  ghost predicate Accounted(c: Client) {
    exists ps :: IsCut(c, ps)
  }

  lemma Extend(ps: seq<Piece>, p: Piece)
    ensures Flatten(ps + [p]) == Flatten(ps) + p.Whole()
    ensures Frames(ps + [p]) == Frames(ps) + p.Sent()
    ensures Lost(ps + [p]) == Lost(ps) + p.Missed()
    ensures Blocks(ps + [p]) == Blocks(ps) + if p.Block? then 1 else 0
  {
    assert (ps + [p])[..|ps|] == ps;
  }

  lemma PopFront(a: seq<Notice>, q: seq<Notice>)
    requires q != []
    ensures (a + [q[0]]) + q[1..] == a + q
  {
  }

  /** The front of the queue becomes a frame. */
  lemma PopAccounts(c: Client, c': Client, ps: seq<Piece>)
    requires IsCut(c, ps) && c.queue != []
    requires c' ==
      c.(queue := c.queue[1..], handed := c.handed + [c.queue[0]], inflight := c'.inflight, sending := c'.sending)
    ensures IsCut(c', ps + [Frame(c.queue[0])])
  {
    Extend(ps, Frame(c.queue[0]));
    PopFront(Flatten(ps), c.queue);
  }

  lemma FlushAccounts(c: Client, ps: seq<Piece>)
    requires IsCut(c, ps)
    ensures Accounted(Flushed(c))
  {
    if Flushed(c) == c {
      assert IsCut(Flushed(c), ps);
    } else {
      PopAccounts(c, Flushed(c), ps);
    }
  }

  lemma DropAll(a: seq<Notice>, q: seq<Notice>, n: Notice)
    ensures (a + (q + [n])) + [] == (a + q) + [n]
  {
  }

  lemma OverflowAccounts(c: Client, n: Notice)
    requires |c.queue| == MAX_QUEUE && Accounted(c)
    ensures Accounted(Enqueued(c, n))
  {
    var ps :| IsCut(c, ps);
    var p := Block(c.queue + [n]);
    Extend(ps, p);
    DropAll(Flatten(ps), c.queue, n);
    DropAll(Lost(ps), c.queue, n);
    assert IsCut(Enqueued(c, n), ps + [p]);
  }

  lemma PushAccounts(c: Client, n: Notice)
    requires |c.queue| < MAX_QUEUE && Accounted(c)
    ensures Accounted(Enqueued(c, n))
  {
    var ps :| IsCut(c, ps);
    var c' := c.(offered := c.offered + [n], queue := c.queue + [n]);
    assert Flatten(ps) + c'.queue == c'.offered;
    assert IsCut(c', ps);
    FlushAccounts(c', ps);
  }

  lemma EnqueueKeeps(c: Client, n: Notice)
    requires FanOutOk(c) && Accounted(c)
    ensures FanOutOk(Enqueued(c, n)) && Accounted(Enqueued(c, n))
    ensures Enqueued(c, n).overflows > c.overflows ==> c.inflight != [] || c.ready != Open
  {
    if |c.queue| >= MAX_QUEUE {
      OverflowAccounts(c, n);
    } else {
      PushAccounts(c, n);
    }
  }

  /**
   What one offered notice does: behind fewer than 100 queued notices it joins them, and the front is handed over only
   on an open idle socket; behind 100 all of them and the notice are lost, and a request for the incident subscribed to
   at that moment goes out, labelled with the seq of the notice.
   */
  lemma EnqueueDoes(c: Client, n: Notice)
    ensures var c' := Enqueued(c, n);
      && c'.offered == c.offered + [n]
      && c'.incidentId == c.incidentId && c'.ready == c.ready && c'.registered == c.registered
      && c'.delivered == c.delivered && c'.snapshots == c.snapshots
    ensures |c.queue| < 100 ==>
      var c' := Enqueued(c, n);
      && c'.fetches == c.fetches && c'.dropped == c.dropped && c'.overflows == c.overflows
      && c'.handed + c'.queue == c.handed + (c.queue + [n])
      && |c'.handed| == |c.handed| + (if c.ready == Open && !c.sending then 1 else 0)
    ensures |c.queue| >= 100 ==>
      var c' := Enqueued(c, n);
      && c'.queue == [] && c'.dropped == c.dropped + c.queue + [n] && c'.overflows == c.overflows + 1
      && c'.handed == c.handed && c'.inflight == c.inflight && c'.sending == c.sending
      && c'.fetches == c.fetches +
         [Fetch(c.incidentId, match n case Logged(e) => Some(e.id) case Other(_, _, _) => None, true, None)]
  {
    if |c.queue| < 100 && c.ready == Open && !c.sending {
      PopFront(c.handed, c.queue + [n]);
    }
  }

  /** What the callback of a send does: an error closes the socket; a success delivers the frame and sends the next. */
  lemma SendDoneDoes(c: Client, err: bool)
    requires FanOutOk(c) && c.inflight != []
    ensures var c' := SendDone(c, err);
      && c'.offered == c.offered && c'.dropped == c.dropped && c'.fetches == c.fetches && c'.snapshots == c.snapshots
      && c'.incidentId == c.incidentId && c'.registered == c.registered && c'.overflows == c.overflows
      && c'.handed + c'.queue == c.handed + c.queue
      && c'.delivered == (if err then c.delivered else c.delivered + c.inflight)
      && c'.ready == (if err && c.ready == Open then Closing else c.ready)
      && |c'.handed| == |c.handed| + (if !err && c.ready == Open && c.queue != [] then 1 else 0)
  {
    assert c.inflight == [c.inflight[0]];
    if !err && c.ready == Open && c.queue != [] {
      PopFront(c.handed, c.queue);
    }
  }

  lemma SendDoneAccounts(c: Client, err: bool)
    requires Accounted(c) && c.inflight != []
    ensures Accounted(SendDone(c, err))
  {
    var ps :| IsCut(c, ps);
    var c' := c.(sending := false, inflight := c.inflight[1..]);
    if err {
      assert IsCut(SendDone(c, err), ps);
    } else {
      var c2 := c'.(delivered := c.delivered + [c.inflight[0]]);
      assert IsCut(c2, ps);
      FlushAccounts(c2, ps);
    }
  }

  lemma SendDoneKeeps(c: Client, err: bool)
    requires FanOutOk(c) && Accounted(c) && c.inflight != []
    ensures FanOutOk(SendDone(c, err)) && Accounted(SendDone(c, err))
  {
    SendDoneAccounts(c, err);
    assert c.inflight == [c.inflight[0]];
    assert c.delivered + c.inflight == c.delivered + [c.inflight[0]] + [];
  }

  function AfterSend(c: Client): Client {
    if c.inflight != [] then SendDone(c, false) else c
  }

  /** The client after k successful sends. */
  function Sends(c: Client, k: nat): Client {
    if k == 0 then c else AfterSend(Sends(c, k - 1))
  }

  function Waiting(c: Client): nat {
    |c.inflight| + |c.queue|
  }

  /** k more frames are delivered, and what was to be sent is unchanged. */
  ghost predicate Drained(c: Client, d: Client, k: nat) {
    && FanOutOk(d) && Accounted(d) && d.ready == Open
    && d.handed + d.queue == c.handed + c.queue && |d.delivered| == |c.delivered| + k
  }

  /** While fewer sends than frames were waiting have succeeded, one is pending; then everything is delivered. */
  lemma DrainedLeaves(c: Client, d: Client, k: nat)
    requires FanOutOk(c) && c.ready == Open && Drained(c, d, k)
    ensures k < Waiting(c) ==> d.inflight != []
    ensures k == Waiting(c) ==> d.delivered == c.handed + c.queue && d.queue == [] && d.inflight == []
  {
    assert |d.handed + d.queue| == |c.handed + c.queue|;
    if k == Waiting(c) {
      assert d.handed + [] == d.handed && d.delivered + [] == d.delivered;
    }
  }

  lemma {:induction false} SendsDrain(c: Client, k: nat)
    requires FanOutOk(c) && Accounted(c) && c.ready == Open && k <= Waiting(c)
    ensures Drained(c, Sends(c, k), k)
    ensures k == Waiting(c) ==>
      Sends(c, k).delivered == c.handed + c.queue && Sends(c, k).queue == [] && Sends(c, k).inflight == []
  {
    if k > 0 {
      var d := Sends(c, k - 1);
      SendsDrain(c, k - 1);
      DrainedLeaves(c, d, k - 1);
      SendDoneKeeps(d, false);
      SendDoneDoes(d, false);
    }
    DrainedLeaves(c, Sends(c, k), k);
  }

  /** Steps that leave the queue and its record alone. */
  lemma OtherStepsKeep(c: Client, c': Client)
    requires FanOutOk(c) && Accounted(c)
    requires c'.queue == c.queue && c'.offered == c.offered && c'.handed == c.handed && c'.dropped == c.dropped
    requires c'.overflows == c.overflows && c'.delivered == c.delivered
    requires c'.inflight == c.inflight && c'.sending == c.sending && (c'.ready == Open ==> c.ready == Open)
    ensures FanOutOk(c') && Accounted(c')
  {
    var ps :| IsCut(c, ps);
    assert IsCut(c', ps);
  }

  lemma {:induction false} CutCounts(ps: seq<Piece>)
    requires forall k :: 0 <= k < |ps| && ps[k].Block? ==> |ps[k].ns| == MAX_QUEUE + 1
    ensures |Flatten(ps)| == |Frames(ps)| + (MAX_QUEUE + 1) * Blocks(ps)
    ensures multiset(Flatten(ps)) == multiset(Frames(ps)) + multiset(Lost(ps))
  {
    if ps != [] {
      CutCounts(ps[..|ps| - 1]);
    }
  }

  /** Conservation: everything offered was handed to the socket, is still queued, or was lost to an overflow. */
  lemma Conservation(c: Client)
    requires Accounted(c)
    ensures |c.offered| == |c.handed| + |c.queue| + (MAX_QUEUE + 1) * c.overflows
    ensures multiset(c.offered) == multiset(c.handed) + multiset(c.queue) + multiset(c.dropped)
    ensures |c.queue| <= |c.offered| && c.queue == c.offered[|c.offered| - |c.queue|..]
  {
    var ps :| IsCut(c, ps);
    CutCounts(ps);
  }

  /** Log events appear in strictly increasing order of seq. */
  ghost predicate Ordered(ns: seq<Notice>) {
    forall i, j :: 0 <= i < j < |ns| && ns[i].Logged? && ns[j].Logged? ==> ns[i].event.id < ns[j].event.id
  }

  lemma {:induction false} FramesOrdered(ps: seq<Piece>)
    requires Ordered(Flatten(ps))
    ensures Ordered(Frames(ps))
    ensures forall n :: n in Frames(ps) ==> n in Flatten(ps)
  {
    if ps != [] {
      var front, p := ps[..|ps| - 1], ps[|ps| - 1];
      var all := Flatten(ps);
      assert all[..|Flatten(front)|] == Flatten(front);
      FramesOrdered(front);
      if p.Frame? {
        assert all[|all| - 1] == p.n;
        forall i | 0 <= i < |Frames(front)| && Frames(front)[i].Logged? && p.n.Logged?
          ensures Frames(front)[i].event.id < p.n.event.id
        {
          assert Frames(front)[i] in Frames(front);
          var j :| 0 <= j < |Flatten(front)| && Flatten(front)[j] == Frames(front)[i];
          assert all[j] == Flatten(front)[j];
        }
      }
    }
  }

  /** What is handed to a socket is in strictly increasing seq order whenever what was offered is. */
  lemma HandedOrdered(c: Client)
    requires Accounted(c) && Ordered(c.offered)
    ensures Ordered(c.handed)
  {
    var ps :| IsCut(c, ps);
    assert Flatten(ps) == c.offered[..|Flatten(ps)|];
    FramesOrdered(ps);
  }
}
