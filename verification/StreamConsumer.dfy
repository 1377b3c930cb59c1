/** realtime-svc stream-consumer: read, print, save, with crashes and restarts. */
module StreamConsumer {
  import opened Common

  /** Stream ids are their order; 0 stands for the start id '0-0', before every entry. */
  type Id = nat

  class Consumer {
    var lastId: Id
    var savedFile: Option<Id>
    ghost var printed: seq<Id>

    /** A process starts with whatever file the last one left. */
    constructor (savedFile: Option<Id>, ghost printed: seq<Id>)
      ensures lastId == StartId(savedFile) && this.savedFile == savedFile && this.printed == printed
    {
      this.savedFile, this.printed := savedFile, printed;
      lastId := if savedFile.Some? then savedFile.value else 0;
    }

    /** One turn of the loop, after the read; an empty read is the null answer of a timeout. */
    method HandleBatch(messages: seq<Id>)
      modifies this
      ensures printed == old(printed) + messages
      ensures messages == [] ==> lastId == old(lastId) && savedFile == old(savedFile)
      ensures messages != [] ==> lastId == messages[|messages| - 1] && savedFile == Some(lastId)
    {
      if messages == [] {
        return;
      }
      for k := 0 to |messages|
        invariant printed == old(printed) + messages[..k]
        invariant lastId == if k == 0 then old(lastId) else messages[k - 1]
        invariant savedFile == old(savedFile)
      {
        printed := printed + [messages[k]];
        lastId := messages[k];
      }
      savedFile := Some(lastId);
    }
  }

  function StartId(saved: Option<Id>): Id {
    if saved.Some? then saved.value else 0
  }

  /** `Printing(rest)` is inside the loop over a batch; with nothing left the file is about to be written. */
  datatype Phase = Down | Polling | Printing(rest: seq<Id>)

  datatype System = System(stream: seq<Id>, saved: Option<Id>, lastId: Id, phase: Phase, printed: seq<Id>)

  datatype Step = Add(id: Id) | Boot | Poll | Print | Save | Crash

  function After(stream: seq<Id>, id: Id): seq<Id> {
    if stream == [] then []
    else if stream[0] > id then stream
    else After(stream[1..], id)
  }

  /** The file write is atomic: a crash leaves the old or the new id. */
  function Next(s: System, step: Step): System {
    match step
    case Add(id) =>
      if id > 0 && (s.stream != [] ==> id > s.stream[|s.stream| - 1]) then s.(stream := s.stream + [id]) else s
    case Boot => if s.phase.Down? then s.(lastId := StartId(s.saved), phase := Polling) else s
    case Poll =>
      if s.phase.Polling? && After(s.stream, s.lastId) != [] then s.(phase := Printing(After(s.stream, s.lastId)))
      else s
    case Print =>
      if s.phase.Printing? && s.phase.rest != [] then
        s.(printed := s.printed + [s.phase.rest[0]], lastId := s.phase.rest[0], phase := Printing(s.phase.rest[1..]))
      else s
    case Save => if s.phase == Printing([]) then s.(saved := Some(s.lastId), phase := Polling) else s
    case Crash => s.(phase := Down)
  }

  function Run(s: System, steps: seq<Step>): System {
    if steps == [] then s else Next(Run(s, steps[..|steps| - 1]), steps[|steps| - 1])
  }

  const START := System([], None, 0, Down, [])

  ghost predicate Increasing(ids: seq<Id>) {
    forall i, j :: 0 <= i < j < |ids| ==> ids[i] < ids[j]
  }

  lemma {:induction false} AfterIsRest(stream: seq<Id>, id: Id)
    requires Increasing(stream)
    ensures var rest := After(stream, id);
      && Increasing(rest)
      && |rest| <= |stream| && rest == stream[|stream| - |rest|..]
      && forall x :: x in rest <==> x in stream && x > id
  {
    if stream != [] && stream[0] <= id {
      AfterIsRest(stream[1..], id);
      assert forall x :: x in stream <==> x == stream[0] || x in stream[1..];
    } else if stream != [] {
      assert forall x :: x in stream ==> x >= stream[0];
    }
  }

  /** What has been printed has no holes, and the saved id has been printed. */
  ghost predicate Covered(s: System) {
    && (forall x :: x in s.printed ==> x in s.stream)
    && (forall x, y :: x in s.stream && y in s.printed && x <= y ==> x in s.printed)
    && (s.saved.Some? ==> s.saved.value in s.printed)
  }

  /** The rest of a batch is the next entries of the stream, without holes. */
  ghost predicate BatchOk(s: System) {
    s.phase.Printing? ==>
      var rest := s.phase.rest;
      && Increasing(rest)
      && (forall x :: x in rest ==> x in s.stream && x > s.lastId)
      && (forall x, y :: x in s.stream && y in rest && s.lastId < x <= y ==> x in rest)
      && (rest == [] ==> s.lastId in s.printed)
  }

  ghost predicate Inv(s: System) {
    && Increasing(s.stream) && (forall x :: x in s.stream ==> x > 0)
    && Covered(s)
    && (!s.phase.Down? ==> StartId(s.saved) <= s.lastId && (s.lastId == 0 || s.lastId in s.printed))
    && BatchOk(s)
  }

  lemma AddKeepsInv(s: System, id: Id)
    requires Inv(s)
    ensures Inv(Next(s, Add(id)))
  {
    var t := Next(s, Add(id));
    if t != s {
      assert forall x :: x in t.stream <==> x in s.stream || x == id;
      forall x | x in s.stream
        ensures x < id
      {
        var i :| 0 <= i < |s.stream| && s.stream[i] == x;
      }
    }
  }

  lemma PrintKeepsInv(s: System)
    requires Inv(s)
    ensures Inv(Next(s, Print))
  {
    var t := Next(s, Print);
    if t != s {
      var rest := s.phase.rest;
      var id := rest[0];
      assert id in rest;
      assert forall x :: x in t.printed <==> x in s.printed || x == id;
      forall x | x in rest[1..]
        ensures x in rest && x > id
      {
        var i :| 0 <= i < |rest| - 1 && rest[1..][i] == x;
        assert rest[i + 1] == x;
      }
      assert forall x :: x in rest <==> x == id || x in rest[1..];
    }
  }

  lemma NextKeepsInv(s: System, step: Step)
    requires Inv(s)
    ensures Inv(Next(s, step))
  {
    match step
    case Add(id) => AddKeepsInv(s, id);
    case Print => PrintKeepsInv(s);
    case Poll => AfterIsRest(s.stream, s.lastId);
    case _ =>
  }

  lemma {:induction false} RunKeepsInv(s: System, steps: seq<Step>)
    requires Inv(s)
    ensures Inv(Run(s, steps))
  {
    if steps != [] {
      RunKeepsInv(s, steps[..|steps| - 1]);
      NextKeepsInv(Run(s, steps[..|steps| - 1]), steps[|steps| - 1]);
    }
  }

  /**
   Over any run with crashes and restarts: every stream entry up to the greatest printed id has been printed, and the
   saved id never passes what was printed.
   */
  lemma NothingSkipped(steps: seq<Step>)
    ensures var s := Run(START, steps);
      && (forall x, y :: x in s.stream && y in s.printed && x <= y ==> x in s.printed)
      && (forall x :: x in s.printed ==> x in s.stream)
      && (s.saved.Some? ==> s.saved.value in s.printed)
  {
    RunKeepsInv(START, steps);
  }

  lemma NextPrintsPastSaved(s: System, step: Step)
    requires Inv(s)
    ensures var t := Next(s, step);
      && StartId(s.saved) <= StartId(t.saved)
      && s.printed <= t.printed
      && forall k :: |s.printed| <= k < |t.printed| ==> t.printed[k] > StartId(s.saved)
  {
    if step.Print? && s.phase.Printing? && s.phase.rest != [] {
      assert s.phase.rest[0] in s.phase.rest;
    }
  }

  /** Once an id is saved, nothing up to it is printed again, in this process or any later one. */
  lemma {:induction false} NeverReprintsSaved(s: System, steps: seq<Step>)
    requires Inv(s)
    ensures var t := Run(s, steps);
      && StartId(s.saved) <= StartId(t.saved)
      && s.printed <= t.printed
      && forall k :: |s.printed| <= k < |t.printed| ==> t.printed[k] > StartId(s.saved)
  {
    if steps != [] {
      var u := Run(s, steps[..|steps| - 1]);
      NeverReprintsSaved(s, steps[..|steps| - 1]);
      RunKeepsInv(s, steps[..|steps| - 1]);
      NextPrintsPastSaved(u, steps[|steps| - 1]);
    }
  }

  /** Between two crashes nothing is printed twice: from a restart on, printed ids only increase. */
  lemma {:induction false} SessionPrintsOnce(s: System, steps: seq<Step>)
    requires Inv(s) && s.phase.Polling? && forall k :: 0 <= k < |steps| ==> !steps[k].Crash?
    ensures var t := Run(s, steps);
      && s.printed <= t.printed && !t.phase.Down?
      && Increasing(t.printed[|s.printed|..])
      && (forall x :: x in t.printed[|s.printed|..] ==> x <= t.lastId)
  {
    if steps != [] {
      var u, t := Run(s, steps[..|steps| - 1]), Run(s, steps);
      SessionPrintsOnce(s, steps[..|steps| - 1]);
      RunKeepsInv(s, steps[..|steps| - 1]);
      if t.printed != u.printed {
        assert u.phase.rest[0] in u.phase.rest;
        assert forall k :: 0 <= k < |u.printed[|s.printed|..]| ==>
          u.printed[|s.printed|..][k] in u.printed[|s.printed|..];
        assert t.printed[|s.printed|..] == u.printed[|s.printed|..] + [u.phase.rest[0]];
      }
    }
  }

  /** What the environment does: an entry arrives with the next id, and a process dies, whatever it is doing. */
  lemma EnvironmentDoes(s: System, id: Id)
    requires Inv(s)
    ensures (forall x :: x in s.stream ==> x < id) && id > 0 ==> Next(s, Add(id)) == s.(stream := s.stream + [id])
    ensures !((forall x :: x in s.stream ==> x < id) && id > 0) ==> Next(s, Add(id)) == s
    ensures Next(s, Crash) == s.(phase := Down)
  {
    if s.stream != [] {
      var last := s.stream[|s.stream| - 1];
      assert last in s.stream && forall x :: x in s.stream ==> x <= last;
    }
  }

  // ---------------------------------------------------------------------
  // A whole turn of the loop
  // ---------------------------------------------------------------------

  function Prints(n: nat): seq<Step> {
    if n == 0 then [] else Prints(n - 1) + [Print]
  }

  lemma RunSnoc(s: System, steps: seq<Step>, step: Step)
    ensures Run(s, steps + [step]) == Next(Run(s, steps), step)
  {
    assert (steps + [step])[..|steps|] == steps;
  }

  lemma {:induction false} PrintsPrint(s: System, n: nat)
    requires s.phase.Printing? && n <= |s.phase.rest|
    ensures var batch, t := s.phase.rest, Run(s, Prints(n));
      && t == s.(printed := s.printed + batch[..n], phase := Printing(batch[n..]),
                 lastId := if n == 0 then s.lastId else batch[n - 1])
  {
    if n > 0 {
      var u := Run(s, Prints(n - 1));
      PrintsPrint(s, n - 1);
      RunSnoc(s, Prints(n - 1), Print);
      var batch := s.phase.rest;
      assert batch[..n] == batch[..n - 1] + [batch[n - 1]];
      assert u.phase.rest[0] == batch[n - 1] && u.phase.rest[1..] == batch[n..];
      assert s.printed + batch[..n - 1] + [batch[n - 1]] == s.printed + batch[..n];
    }
  }

  /** The steps of a batch do what `HandleBatch` does: print it all in order, and then save its last id. */
  lemma BatchDoes(s: System)
    requires s.phase.Printing? && s.phase.rest != []
    ensures var batch := s.phase.rest;
      Run(s, Prints(|batch|) + [Save]) ==
      s.(printed := s.printed + batch, lastId := batch[|batch| - 1], saved := Some(batch[|batch| - 1]),
         phase := Polling)
  {
    var batch := s.phase.rest;
    PrintsPrint(s, |batch|);
    RunSnoc(s, Prints(|batch|), Save);
    assert batch[..|batch|] == batch;
  }

  /**
   A process that starts over and is left alone for one turn catches up: it prints exactly the entries after the saved
   id, in the order of the stream, and saves the last one.
   */
  lemma CatchesUp(s: System)
    requires Inv(s) && s.phase.Down?
    ensures var rest := After(s.stream, StartId(s.saved));
      && (forall x :: x in rest <==> x in s.stream && x > (if s.saved.Some? then s.saved.value else 0))
      && Increasing(rest)
      && (rest == [] ==> Run(s, [Boot] + [Poll]).phase.Polling? && Run(s, [Boot] + [Poll]).printed == s.printed)
      && (rest != [] ==>
            var t := Run(Run(s, [Boot] + [Poll]), Prints(|rest|) + [Save]);
            t.printed == s.printed + rest && t.saved == Some(rest[|rest| - 1]) && t.phase.Polling?)
  {
    var rest := After(s.stream, StartId(s.saved));
    AfterIsRest(s.stream, StartId(s.saved));
    RunSnoc(s, [Boot], Poll);
    RunSnoc(s, [], Boot);
    assert [] + [Boot] == [Boot];
    var u := Run(s, [Boot] + [Poll]);
    if rest != [] {
      BatchDoes(u);
    }
  }
}
