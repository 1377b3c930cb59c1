/**
 The zero-trust flag: a cache with a time to live whose resolver suspends at
 the database read, and the PUT route that writes, busts and resolves.
 */
module ZeroTrust {
  import opened Common

  const TTL_MS := 5000

  datatype Source = Locked | Db | Default

  datatype Entry = Entry(val: bool, ts: int, source: Source)

  /** TACTIX_ZT_LOCKED and TACTIX_ZT_DEFAULT, fixed while the process runs. */
  datatype Env = Env(locked: bool, default: bool)

  /** The outcome of `getSecuritySettings`: it threw, there is no row with a boolean flag, or there is one. */
  datatype Row = Failed | Missing | Got(enabled: bool)

  predicate Fresh(cache: Option<Entry>, now: int) {
    cache.Some? && now - cache.value.ts < TTL_MS
  }

  function FromRow(env: Env, ts: int, row: Row): Entry {
    if row.Got? then Entry(row.enabled, ts, Db) else Entry(env.default, ts, Default)
  }

  /** `resolveZeroTrust` up to its await: the answer, or `None` when it suspends at the database read, and the cache. */
  function Started(env: Env, cache: Option<Entry>, now: int): (Option<Entry>, Option<Entry>) {
    if Fresh(cache, now) then (cache, cache)
    else if env.locked then (Some(Entry(true, now, Locked)), Some(Entry(true, now, Locked)))
    else (None, cache)
  }

  class ZeroTrustFlag {
    var cache: Option<Entry>

    constructor ()
      ensures cache == None
    {
      cache := None;
    }

    method Begin(env: Env, now: int) returns (answer: Option<Entry>)
      modifies this
      ensures (answer, cache) == Started(env, old(cache), now)
    {
      if cache.Some? && now - cache.value.ts < TTL_MS {
        return cache;
      }
      if env.locked {
        cache := Some(Entry(true, now, Locked));
        return cache;
      }
      answer := None;
    }

    /** The rest of it, once the read has returned or thrown; `now` is still the time at which the call began. */
    method Resume(env: Env, now: int, row: Row) returns (answer: Entry)
      modifies this
      ensures answer == FromRow(env, now, row) && cache == Some(answer)
    {
      if row.Got? {
        answer := Entry(row.enabled, now, Db);
        cache := Some(answer);
        return;
      }
      answer := Entry(env.default, now, Default);
      cache := Some(answer);
    }

    method Bust()
      modifies this
      ensures cache == None
    {
      cache := None;
    }

    /**
     The PUT handler after its write: it busts and resolves in one turn, so an unlocked PUT always goes to the
     database.
     */
    method AfterPutWrite(env: Env, now: int) returns (answer: Option<Entry>)
      modifies this
      ensures (answer, cache) == Started(env, None, now)
      ensures !env.locked ==> answer == None && cache == None
    {
      Bust();
      answer := Begin(env, now);
    }
  }

  // ---------------------------------------------------------------------
  // Calls, writes and busts interleaved
  // ---------------------------------------------------------------------

  /** A call that began at instant `since` of the history, at clock time `began`. */
  datatype Call =
    | Reading(since: nat, began: int)
    | HasRow(since: nat, began: int, row: Row)
    | Done(since: nat, began: int, got: Option<Row>, entry: Entry, hit: bool)

  datatype Put =
    | Asked(enabled: bool)
    | Written(enabled: bool)
    | Resolving(enabled: bool, call: nat)
    | Refused423
    | Threw

  /** One instant of the history: the clock, and what a resolution made right then would be. */
  datatype Instant = Instant(now: int, truth: bool)

  datatype System = System(
    env: Env, now: int, cache: Option<Entry>, stored: Option<bool>, up: bool,
    calls: seq<Call>, puts: seq<Put>, past: seq<Instant>)

  datatype Step =
    | Tick(ms: nat)
    | DbUp(up: bool)
    | DirectWrite(value: Option<bool>)
    | Resolve
    | ReadRow(k: nat)
    | Finish(k: nat)
    | Bust
    | PutAsk(enabled: bool)
    | PutWrite(p: nat)
    | PutResume(p: nat)

  function Truth(s: System): bool {
    if s.env.locked then true
    else if s.up && s.stored.Some? then s.stored.value
    else s.env.default
  }

  function CurrentRow(s: System): Row {
    if !s.up then Failed else if s.stored.Some? then Got(s.stored.value) else Missing
  }

  function Start(env: Env, now: int, stored: Option<bool>, up: bool): System {
    var s := System(env, now, None, stored, up, [], [], []);
    s.(past := [Instant(now, Truth(s))])
  }

  function Begun(s: System): System
    requires s.past != []
  {
    var since := |s.past| - 1;
    var (answer, cache) := Started(s.env, s.cache, s.now);
    var call :=
      if answer.Some? then Done(since, s.now, None, answer.value, Fresh(s.cache, s.now)) else Reading(since, s.now);
    s.(calls := s.calls + [call], cache := cache)
  }

  /** The effect of a step, before the instant is recorded; a step that is not possible changes nothing. */
  function Effect(s: System, step: Step): System
    requires s.past != []
  {
    match step
    case Tick(ms) => s.(now := s.now + ms)
    case DbUp(up) => s.(up := up)
    case DirectWrite(value) => s.(stored := value)
    case Resolve => Begun(s)
    case ReadRow(k) =>
      if k < |s.calls| && s.calls[k].Reading? then
        s.(calls := s.calls[k := HasRow(s.calls[k].since, s.calls[k].began, CurrentRow(s))])
      else s
    case Finish(k) =>
      if k < |s.calls| && s.calls[k].HasRow? then
        var c := s.calls[k];
        var e := FromRow(s.env, c.began, c.row);
        s.(calls := s.calls[k := Done(c.since, c.began, Some(c.row), e, false)], cache := Some(e))
      else s
    case Bust => s.(cache := None)
    case PutAsk(enabled) => s.(puts := s.puts + [if s.env.locked then Refused423 else Asked(enabled)])
    case PutWrite(p) =>
      if p < |s.puts| && s.puts[p].Asked? then
        if s.up then s.(puts := s.puts[p := Written(s.puts[p].enabled)], stored := Some(s.puts[p].enabled))
        else s.(puts := s.puts[p := Threw])
      else s
    case PutResume(p) =>
      if p < |s.puts| && s.puts[p].Written? then
        Begun(s.(cache := None, puts := s.puts[p := Resolving(s.puts[p].enabled, |s.calls|)]))
      else s
  }

  function Next(s: System, step: Step): (s': System)
    requires s.past != []
    ensures s'.past != []
  {
    var t := Effect(s, step);
    t.(past := s.past + [Instant(t.now, Truth(t))])
  }

  function Run(s: System, steps: seq<Step>): (s': System)
    requires s.past != []
    ensures s'.past != []
  {
    if steps == [] then s else Next(Run(s, steps[..|steps| - 1]), steps[|steps| - 1])
  }

  /** Some instant from index `from` on, with its clock in [lo, hi], at which v was the right answer. */
  ghost predicate RightAt(past: seq<Instant>, v: bool, from: nat, lo: int, hi: int) {
    exists k :: from <= k < |past| && lo <= past[k].now <= hi && past[k].truth == v
  }

  ghost predicate CallOk(s: System, c: Call) {
    && c.since < |s.past| && s.past[c.since].now == c.began <= s.now
    && (c.HasRow? ==> RightAt(s.past, FromRow(s.env, 0, c.row).val, c.since, c.began, s.now))
    && (c.Done? && c.hit ==> RightAt(s.past, c.entry.val, 0, c.began - TTL_MS + 1, c.began))
    && (c.Done? && !c.hit ==> RightAt(s.past, c.entry.val, c.since, c.began, s.now))
  }

  ghost predicate Inv(s: System) {
    && s.past != []
    && s.past[|s.past| - 1] == Instant(s.now, Truth(s))
    && (forall i, j :: 0 <= i <= j < |s.past| ==> s.past[i].now <= s.past[j].now)
    && (s.cache.Some? ==> s.cache.value.ts <= s.now && RightAt(s.past, s.cache.value.val, 0, s.cache.value.ts, s.now))
    && (forall k :: 0 <= k < |s.calls| ==> CallOk(s, s.calls[k]))
    && (s.env.locked ==> forall k :: 0 <= k < |s.calls| ==> s.calls[k].Done?)
  }

  lemma RightGrows(past: seq<Instant>, i: Instant, v: bool, from: nat, lo: int, hi: int, hi': int)
    requires RightAt(past, v, from, lo, hi) && hi <= hi'
    ensures RightAt(past + [i], v, from, lo, hi')
  {
    var k :| from <= k < |past| && lo <= past[k].now <= hi && past[k].truth == v;
    assert (past + [i])[k] == past[k];
  }

  lemma CallGrows(s: System, s': System, c: Call, i: Instant)
    requires CallOk(s, c) && s'.past == s.past + [i] && s.now <= s'.now && s'.env == s.env
    ensures CallOk(s', c)
  {
    if c.HasRow? {
      RightGrows(s.past, i, FromRow(s.env, 0, c.row).val, c.since, c.began, s.now, s'.now);
    } else if c.Done? && c.hit {
      RightGrows(s.past, i, c.entry.val, 0, c.began - TTL_MS + 1, c.began, c.began);
    } else if c.Done? {
      RightGrows(s.past, i, c.entry.val, c.since, c.began, s.now, s'.now);
    }
  }

  /** The current instant is the last one, so what is right now is right since any earlier instant. */
  lemma RightNow(s: System, from: nat, lo: int)
    requires Inv(s) && from < |s.past| && lo <= s.now
    ensures RightAt(s.past, Truth(s), from, lo, s.now)
  {
    assert s.past[|s.past| - 1].truth == Truth(s);
  }

  /** The call a step starts or advances is well founded in the history. */
  lemma BegunOk(s: System)
    requires Inv(s)
    ensures var t := Begun(s); t.past == s.past && |t.calls| == |s.calls| + 1 && CallOk(s, t.calls[|s.calls|])
    ensures Begun(s).cache.Some? ==>
      Begun(s).cache.value.ts <= s.now && RightAt(s.past, Begun(s).cache.value.val, 0, Begun(s).cache.value.ts, s.now)
    ensures s.env.locked ==> Begun(s).calls[|s.calls|].Done?
  {
    RightNow(s, |s.past| - 1, s.now);
    RightNow(s, 0, s.now);
    if Fresh(s.cache, s.now) {
      var v, ts := s.cache.value.val, s.cache.value.ts;
      var k :| 0 <= k < |s.past| && ts <= s.past[k].now <= s.now && s.past[k].truth == v;
      assert s.now - TTL_MS + 1 <= s.past[k].now;
    }
  }

  /** What one step may do to the cache and the calls, judged against the history so far. */
  ghost predicate StepOk(s: System, t: System) {
    && t.past == s.past && t.env == s.env && s.now <= t.now
    && (t.cache.Some? ==> t.cache.value.ts <= s.now && RightAt(s.past, t.cache.value.val, 0, t.cache.value.ts, s.now))
    && (forall k :: 0 <= k < |t.calls| ==> CallOk(s, t.calls[k]))
    && (s.env.locked ==> forall k :: 0 <= k < |t.calls| ==> t.calls[k].Done?)
  }

  lemma BeginStepOk(s: System)
    requires Inv(s)
    ensures StepOk(s, Begun(s))
  {
    BegunOk(s);
  }

  lemma PutResumeOk(s: System, p: nat)
    requires Inv(s) && p < |s.puts| && s.puts[p].Written?
    ensures StepOk(s, Effect(s, PutResume(p)))
  {
    var s' := s.(cache := None, puts := s.puts[p := Resolving(s.puts[p].enabled, |s.calls|)]);
    assert forall c :: CallOk(s, c) <==> CallOk(s', c);
    BeginStepOk(s');
  }

  lemma ReadRowOk(s: System, k: nat)
    requires Inv(s) && k < |s.calls| && s.calls[k].Reading?
    ensures StepOk(s, Effect(s, ReadRow(k)))
  {
    assert CallOk(s, s.calls[k]);
    RightNow(s, s.calls[k].since, s.calls[k].began);
  }

  lemma FinishOk(s: System, k: nat)
    requires Inv(s) && k < |s.calls| && s.calls[k].HasRow?
    ensures StepOk(s, Effect(s, Finish(k)))
  {
    var c := s.calls[k];
    assert CallOk(s, c);
    var v := FromRow(s.env, c.began, c.row).val;
    assert RightAt(s.past, v, c.since, c.began, s.now);
    assert RightAt(s.past, v, 0, c.began, s.now);
  }

  lemma EffectOk(s: System, step: Step)
    requires Inv(s)
    ensures StepOk(s, Effect(s, step))
  {
    if Effect(s, step) == s {
    } else if step.Resolve? {
      BeginStepOk(s);
    } else if step.PutResume? {
      PutResumeOk(s, step.p);
    } else if step.ReadRow? {
      ReadRowOk(s, step.k);
    } else if step.Finish? {
      FinishOk(s, step.k);
    }
  }

  lemma NextKeepsInv(s: System, step: Step)
    requires Inv(s)
    ensures Inv(Next(s, step))
  {
    EffectOk(s, step);
    var t, s' := Effect(s, step), Next(s, step);
    var i := s'.past[|s.past|];
    if t.cache.Some? {
      RightGrows(s.past, i, t.cache.value.val, 0, t.cache.value.ts, s.now, s'.now);
    }
    forall k | 0 <= k < |s'.calls|
      ensures CallOk(s', s'.calls[k])
    {
      CallGrows(s, s', t.calls[k], i);
    }
  }

  lemma {:induction false} RunKeepsInv(s: System, steps: seq<Step>)
    requires Inv(s)
    ensures Inv(Run(s, steps))
  {
    if steps != [] {
      RunKeepsInv(s, steps[..|steps| - 1]);
      NextKeepsInv(Run(s, steps[..|steps| - 1]), steps[|steps| - 1]);
    }
  }

  /**
   Bounded staleness under every interleaving: a hit at time r answers with a value that was right at some instant in
   (r - 5000, r]; any other call answers with one that was right at some instant since it began.
   */
  lemma BoundedStaleness(env: Env, now: int, stored: Option<bool>, up: bool, steps: seq<Step>, k: nat)
    requires var s := Run(Start(env, now, stored, up), steps); k < |s.calls| && s.calls[k].Done?
    ensures var s := Run(Start(env, now, stored, up), steps);
      var c := s.calls[k];
      if c.hit then RightAt(s.past, c.entry.val, 0, c.began - 4999, c.began)
      else RightAt(s.past, c.entry.val, c.since, c.began, s.now)
  {
    RunKeepsInv(Start(env, now, stored, up), steps);
    var s := Run(Start(env, now, stored, up), steps);
    assert CallOk(s, s.calls[k]);
  }

  // ---------------------------------------------------------------------
  // Where an answer comes from
  // ---------------------------------------------------------------------

  /** What a call that starts now does: it is served a cached entry younger than 5000 ms, or locked, or it reads. */
  lemma ResolveDoes(s: System)
    requires s.past != []
    ensures var t := Next(s, Resolve);
      && t.stored == s.stored && t.puts == s.puts && t.now == s.now
      && |t.calls| == |s.calls| + 1 && t.calls[..|s.calls|] == s.calls
      && t.calls[|s.calls|].since == |s.past| - 1 && t.calls[|s.calls|].began == s.now
      && var c := t.calls[|s.calls|];
      if s.cache.Some? && s.now - s.cache.value.ts < 5000 then
        c.Done? && c.hit && c.got == None && c.entry == s.cache.value && t.cache == s.cache
      else if s.env.locked then
        c.Done? && !c.hit && c.got == None && c.entry == Entry(true, s.now, Locked) && t.cache == Some(c.entry)
      else c.Reading? && t.cache == s.cache
  {
  }

  /** What a call does with what it read: the row's flag from the database, or the default, cached as of its start. */
  lemma FinishDoes(s: System, k: nat)
    requires s.past != [] && k < |s.calls| && s.calls[k].HasRow?
    ensures var t, c := Next(s, Finish(k)), s.calls[k];
      var entry := match c.row case Got(enabled) => Entry(enabled, c.began, Db)
                               case _ => Entry(s.env.default, c.began, Default);
      t.calls == s.calls[k := Done(c.since, c.began, Some(c.row), entry, false)] && t.cache == Some(entry)
      && t.stored == s.stored && t.puts == s.puts
  {
  }

  /** A read gets the row of that moment, or fails with the database. */
  lemma ReadDoes(s: System, k: nat)
    requires s.past != [] && k < |s.calls| && s.calls[k].Reading?
    ensures var t, c := Next(s, ReadRow(k)), s.calls[k];
      var row := if !s.up then Failed else if s.stored == None then Missing else Got(s.stored.value);
      t.calls == s.calls[k := HasRow(c.since, c.began, row)] && t.cache == s.cache && t.stored == s.stored
  {
  }

  /** What the environment does: the clock moves on, the database goes down or up, and its row is changed directly. */
  lemma EnvironmentDoes(s: System, ms: nat, up: bool, value: Option<bool>)
    requires s.past != []
    ensures var t := Next(s, Tick(ms)); t == s.(now := s.now + ms, past := t.past)
    ensures var t := Next(s, DbUp(up)); t == s.(up := up, past := t.past)
    ensures var t := Next(s, DirectWrite(value)); t == s.(stored := value, past := t.past)
    ensures forall step :: Next(s, step).past[..|s.past|] == s.past && |Next(s, step).past| == |s.past| + 1
  {
  }

  /** The PUT handler: refused while locked, otherwise it writes its value, empties the cache and resolves. */
  lemma PutDoes(s: System, enabled: bool, p: nat)
    requires s.past != []
    ensures Next(s, PutAsk(enabled)).puts == s.puts + [if s.env.locked then Refused423 else Asked(enabled)]
    ensures p < |s.puts| && s.puts[p] == Asked(enabled) ==>
      var t := Next(s, PutWrite(p));
      if s.up then t.stored == Some(enabled) && t.puts == s.puts[p := Written(enabled)] && t.cache == s.cache
      else t.stored == s.stored && t.puts == s.puts[p := Threw] && t.cache == s.cache
    ensures p < |s.puts| && s.puts[p] == Written(enabled) && !s.env.locked ==>
      var t := Next(s, PutResume(p));
      && t.puts == s.puts[p := Resolving(enabled, |s.calls|)] && t.cache == None && t.stored == s.stored
      && t.calls == s.calls + [Reading(|s.past| - 1, s.now)]
    ensures Next(s, Bust).cache == None && Next(s, Bust).calls == s.calls && Next(s, Bust).stored == s.stored
  {
  }

  /** A finished call that did not hit: locked, or what it read, with the time at which it began. */
  ghost predicate OwnAnswer(env: Env, c: Call)
    requires c.Done?
  {
    match c.got
    case None => env.locked && c.entry == Entry(true, c.began, Locked)
    case Some(Got(enabled)) => !env.locked && c.entry == Entry(enabled, c.began, Db)
    case Some(_) => !env.locked && c.entry == Entry(env.default, c.began, Default)
  }

  /** Some call that did not hit got this entry. */
  ghost predicate SomeonesAnswer(s: System, entry: Entry) {
    exists k :: 0 <= k < |s.calls| && s.calls[k].Done? && !s.calls[k].hit && s.calls[k].entry == entry
  }

  ghost predicate Sourced(s: System) {
    && s.past != []
    && (s.cache.Some? ==> SomeonesAnswer(s, s.cache.value))
    && (forall k :: 0 <= k < |s.calls| && !s.calls[k].Done? ==> !s.env.locked)
    && (forall k :: 0 <= k < |s.calls| && s.calls[k].Done? ==>
          var c := s.calls[k];
          if c.hit then c.began - c.entry.ts < 5000 && SomeonesAnswer(s, c.entry) else OwnAnswer(s.env, c))
  }

  lemma AnswersStay(s: System, t: System, entry: Entry)
    requires SomeonesAnswer(s, entry) && |s.calls| <= |t.calls|
    requires forall k :: 0 <= k < |s.calls| && s.calls[k].Done? ==> t.calls[k] == s.calls[k]
    ensures SomeonesAnswer(t, entry)
  {
    var k :| 0 <= k < |s.calls| && s.calls[k].Done? && !s.calls[k].hit && s.calls[k].entry == entry;
    assert t.calls[k] == s.calls[k];
  }

  /** One more call, or a call that moved on: the others keep their answers. */
  lemma CallsStaySourced(s: System, t: System, k: nat)
    requires Sourced(s) && t.past != [] && t.env == s.env && |s.calls| <= |t.calls| && k < |t.calls|
    requires forall j :: 0 <= j < |s.calls| && j != k ==> t.calls[j] == s.calls[j]
    requires |t.calls| == |s.calls| || k == |s.calls| == |t.calls| - 1
    requires k < |s.calls| ==> !s.calls[k].Done?
    requires t.calls[k].Done? ==>
      if t.calls[k].hit then t.calls[k].began - t.calls[k].entry.ts < 5000 && s.cache == Some(t.calls[k].entry)
      else OwnAnswer(t.env, t.calls[k])
    requires !t.calls[k].Done? ==> !t.env.locked
    requires t.cache == s.cache || t.cache == None
             || (t.calls[k].Done? && !t.calls[k].hit && t.cache == Some(t.calls[k].entry))
    ensures Sourced(t)
  {
    if s.cache.Some? {
      AnswersStay(s, t, s.cache.value);
    }
    forall j | 0 <= j < |t.calls| && t.calls[j].Done? && t.calls[j].hit
      ensures t.calls[j].began - t.calls[j].entry.ts < 5000 && SomeonesAnswer(t, t.calls[j].entry)
    {
      if j != k {
        AnswersStay(s, t, s.calls[j].entry);
      }
    }
  }

  lemma OtherStepSourced(s: System, step: Step)
    requires Sourced(s) && !step.Resolve? && !step.ReadRow? && !step.Finish? && !step.PutResume?
    ensures Sourced(Next(s, step))
  {
    var t := Next(s, step);
    assert t.calls == s.calls;
    if t.cache.Some? {
      AnswersStay(s, t, t.cache.value);
    }
    forall j | 0 <= j < |t.calls| && t.calls[j].Done? && t.calls[j].hit
      ensures SomeonesAnswer(t, t.calls[j].entry)
    {
      AnswersStay(s, t, t.calls[j].entry);
    }
  }

  lemma SameCallsSourced(s: System, t: System)
    requires Sourced(s) && t.past != [] && t.env == s.env && t.calls == s.calls && t.cache == s.cache
    ensures Sourced(t)
  {
    if t.cache.Some? {
      AnswersStay(s, t, t.cache.value);
    }
    forall j | 0 <= j < |t.calls| && t.calls[j].Done? && t.calls[j].hit
      ensures SomeonesAnswer(t, t.calls[j].entry)
    {
      AnswersStay(s, t, t.calls[j].entry);
    }
  }

  lemma BegunSourced(s: System)
    requires Sourced(s)
    ensures Sourced(Next(s, Resolve))
  {
    ResolveDoes(s);
    var t := Next(s, Resolve);
    assert forall j :: 0 <= j < |s.calls| ==> t.calls[j] == t.calls[..|s.calls|][j];
    CallsStaySourced(s, t, |s.calls|);
  }

  lemma NextSourced(s: System, step: Step)
    requires Sourced(s)
    ensures Sourced(Next(s, step))
  {
    var t := Next(s, step);
    match step
    case Resolve => BegunSourced(s);
    case ReadRow(k) =>
      if k < |s.calls| && s.calls[k].Reading? {
        ReadDoes(s, k);
        CallsStaySourced(s, t, k);
      } else {
        SameCallsSourced(s, t);
      }
    case Finish(k) =>
      if k < |s.calls| && s.calls[k].HasRow? {
        FinishDoes(s, k);
        CallsStaySourced(s, t, k);
      } else {
        SameCallsSourced(s, t);
      }
    case PutResume(p) =>
      if p < |s.puts| && s.puts[p].Written? {
        CallsStaySourced(s, t, |s.calls|);
      } else {
        SameCallsSourced(s, t);
      }
    case _ => OtherStepSourced(s, step);
  }

  /**
   Over every run: a call that hits is served, less than 5000 ms after, an entry that some call found for itself; any
   other is locked to true, or has the row's flag with source DB, or the default, as of the time it began.
   */
  lemma {:induction false} AnswersExactly(env: Env, now: int, stored: Option<bool>, up: bool, steps: seq<Step>)
    ensures Sourced(Run(Start(env, now, stored, up), steps))
  {
    if steps != [] {
      AnswersExactly(env, now, stored, up, steps[..|steps| - 1]);
      NextSourced(Run(Start(env, now, stored, up), steps[..|steps| - 1]), steps[|steps| - 1]);
    }
  }

  // ---------------------------------------------------------------------
  // The toggle
  // ---------------------------------------------------------------------

  predicate Writes(step: Step) {
    step.DirectWrite? || step.PutWrite?
  }

  /** PUT p has written and, so far, nobody wrote after it. */
  ghost predicate OwnWriteSeen(s: System, p: nat, enabled: bool) {
    && s.past != [] && !s.env.locked && s.stored == Some(enabled) && p < |s.puts|
    && (s.puts[p] == Written(enabled) ||
        (s.puts[p].Resolving? && s.puts[p].enabled == enabled && s.puts[p].call < |s.calls|
         && var c := s.calls[s.puts[p].call];
         match c
         case Reading(_, _) => true
         case HasRow(_, _, row) => row == Failed || row == Got(enabled)
         case Done(_, ts, row, entry, _) => row == Some(Failed) || entry == Entry(enabled, ts, Db)))
  }

  lemma NextSeesOwnWrite(s: System, step: Step, p: nat, enabled: bool)
    requires OwnWriteSeen(s, p, enabled) && !Writes(step)
    ensures OwnWriteSeen(Next(s, step), p, enabled)
  {
  }

  lemma {:induction false} RunSeesOwnWrite(s: System, steps: seq<Step>, p: nat, enabled: bool)
    requires OwnWriteSeen(s, p, enabled) && forall k :: 0 <= k < |steps| ==> !Writes(steps[k])
    ensures OwnWriteSeen(Run(s, steps), p, enabled)
  {
    if steps != [] {
      RunSeesOwnWrite(s, steps[..|steps| - 1], p, enabled);
      NextSeesOwnWrite(Run(s, steps[..|steps| - 1]), steps[|steps| - 1], p, enabled);
    }
  }

  /**
   Read your write: an unlocked PUT answers with the value it wrote and source DB, however other resolves, busts and
   clock ticks interleave, if its database read succeeds and nobody else writes in between.
   */
  lemma ReadYourWrite(s: System, p: nat, after: seq<Step>)
    requires s.past != [] && !s.env.locked && s.up && p < |s.puts| && s.puts[p].Asked?
    requires forall k :: 0 <= k < |after| ==> !Writes(after[k])
    requires var t := Run(Next(s, PutWrite(p)), after);
      p < |t.puts| && t.puts[p].Resolving? && t.puts[p].call < |t.calls|
      && t.calls[t.puts[p].call].Done? && t.calls[t.puts[p].call].got != Some(Failed)
    ensures
      var t := Run(Next(s, PutWrite(p)), after);
      var answer := t.calls[t.puts[p].call].entry;
      answer.val == s.puts[p].enabled && answer.source == Db
  {
    RunSeesOwnWrite(Next(s, PutWrite(p)), after, p, s.puts[p].enabled);
  }

  ghost predicate LockedOk(s: System) {
    && s.past != [] && s.env.locked
    && (s.cache.Some? ==> s.cache.value.val)
    && (forall k :: 0 <= k < |s.calls| ==> s.calls[k].Done? && s.calls[k].entry.val)
    && (forall p :: 0 <= p < |s.puts| ==> s.puts[p] == Refused423)
  }

  lemma NextKeepsLocked(s: System, step: Step)
    requires LockedOk(s)
    ensures LockedOk(Next(s, step))
    ensures !step.DirectWrite? ==> Next(s, step).stored == s.stored
  {
  }

  /**
   While locked, every PUT is refused and every answer is true, whatever happens to the database, and the stored setting
   only changes behind the service's back.
   */
  lemma {:induction false} LockedMeansOn(now: int, default: bool, stored: Option<bool>, up: bool, steps: seq<Step>)
    ensures var s := Run(Start(Env(true, default), now, stored, up), steps);
      LockedOk(s) && ((forall k :: 0 <= k < |steps| ==> !steps[k].DirectWrite?) ==> s.stored == stored)
  {
    if steps != [] {
      LockedMeansOn(now, default, stored, up, steps[..|steps| - 1]);
      var front := Run(Start(Env(true, default), now, stored, up), steps[..|steps| - 1]);
      NextKeepsLocked(front, steps[|steps| - 1]);
    }
  }

  // ---------------------------------------------------------------------
  // When a bust holds
  // ---------------------------------------------------------------------

  /** Neither the stored setting nor the reachability of the database changes. */
  ghost predicate Undisturbed(steps: seq<Step>) {
    forall k :: 0 <= k < |steps| ==> !Writes(steps[k]) && !steps[k].DbUp?
  }

  /** Call k sits between its read and its return with an answer that is wrong now and, once cached, still fresh. */
  ghost predicate Stale(s: System, k: nat) {
    && k < |s.calls| && s.calls[k].HasRow?
    && s.now - s.calls[k].began < 5000
    && FromRow(s.env, 0, s.calls[k].row).val != Truth(s)
  }

  /** However things go on undisturbed, every call numbered `from` or later answers what is right in s. */
  ghost predicate Effective(s: System, from: nat)
    requires s.past != []
  {
    forall steps: seq<Step>, k: nat :: Undisturbed(steps) && from <= k < |Run(s, steps).calls| ==>
      Run(s, steps).calls[k].Done? ==> Run(s, steps).calls[k].entry.val == Truth(s)
  }

  /** No wrong value is fresh in the cache or about to be, and the later calls hold the right one. */
  ghost predicate Clean(s: System, from: nat) {
    && s.past != [] && !s.env.locked && from <= |s.calls|
    && (Fresh(s.cache, s.now) ==> s.cache.value.val == Truth(s))
    && (forall k: nat :: k < |s.calls| ==> !Stale(s, k))
    && (forall k :: from <= k < |s.calls| ==>
          match s.calls[k]
          case Reading(_, _) => true
          case HasRow(_, _, row) => FromRow(s.env, 0, row).val == Truth(s)
          case Done(_, _, _, entry, _) => entry.val == Truth(s))
  }

  lemma BegunKeepsClean(s: System, from: nat)
    requires Clean(s, from)
    ensures Clean(Begun(s), from) && Truth(Begun(s)) == Truth(s)
  {
    var t := Begun(s);
    forall k: nat | k < |t.calls|
      ensures !Stale(t, k)
    {
      assert k < |s.calls| ==> t.calls[k] == s.calls[k] && !Stale(s, k);
    }
  }

  lemma PutResumeKeepsClean(s: System, p: nat, from: nat)
    requires Clean(s, from) && p < |s.puts| && s.puts[p].Written?
    ensures Clean(Effect(s, PutResume(p)), from) && Truth(Effect(s, PutResume(p))) == Truth(s)
  {
    var s' := s.(cache := None, puts := s.puts[p := Resolving(s.puts[p].enabled, |s.calls|)]);
    assert forall k: nat :: Stale(s', k) <==> Stale(s, k);
    BegunKeepsClean(s', from);
  }

  lemma CallStepKeepsClean(s: System, step: Step, from: nat)
    requires Clean(s, from) && (step.ReadRow? || step.Finish?)
    ensures Clean(Effect(s, step), from) && Truth(Effect(s, step)) == Truth(s)
  {
    var t := Effect(s, step);
    if t != s {
      assert !Stale(s, step.k);
      forall k: nat | k < |t.calls|
        ensures !Stale(t, k)
      {
        assert !Stale(s, k);
      }
    }
  }

  lemma NextKeepsClean(s: System, step: Step, from: nat)
    requires Clean(s, from) && !Writes(step) && !step.DbUp?
    ensures Clean(Next(s, step), from) && Truth(Next(s, step)) == Truth(s)
  {
    var t, s' := Effect(s, step), Next(s, step);
    assert Clean(t, from) && Truth(t) == Truth(s) by {
      if t == s {
      } else if step.Resolve? {
        BegunKeepsClean(s, from);
      } else if step.PutResume? {
        PutResumeKeepsClean(s, step.p, from);
      } else if step.ReadRow? || step.Finish? {
        CallStepKeepsClean(s, step, from);
      } else {
        assert forall k: nat :: Stale(t, k) ==> Stale(s, k);
      }
    }
    assert forall k: nat :: Stale(s', k) <==> Stale(t, k);
  }

  lemma {:induction false} RunKeepsClean(s: System, steps: seq<Step>, from: nat)
    requires Clean(s, from) && Undisturbed(steps)
    ensures Clean(Run(s, steps), from) && Truth(Run(s, steps)) == Truth(s)
  {
    if steps != [] {
      RunKeepsClean(s, steps[..|steps| - 1], from);
      NextKeepsClean(Run(s, steps[..|steps| - 1]), steps[|steps| - 1], from);
    }
  }

  lemma RunSteps(s: System, steps: seq<Step>, n: nat)
    requires s.past != [] && n < |steps|
    ensures Run(s, steps[..n + 1]) == Next(Run(s, steps[..n]), steps[n])
  {
    assert steps[..n + 1][..n] == steps[..n];
  }

  /** A stale call that returns right away is cached, and the next call is served its value. */
  lemma StaleUndoes(s: System, k: nat, from: nat)
    requires s.past != [] && Stale(s, k) && from <= |s.calls|
    ensures !Effective(s, from)
  {
    var steps := [Finish(k), Resolve];
    RunSteps(s, steps, 0);
    RunSteps(s, steps, 1);
    assert steps[..0] == [] && steps[..2] == steps;
    var t := Next(s, Finish(k));
    assert Fresh(t.cache, t.now) && t.cache.value.val != Truth(s);
    assert Run(s, steps).calls[|s.calls|].Done?;
    assert Run(s, steps).calls[|s.calls|].entry.val != Truth(s);
  }

  /**
   Emptying the cache takes effect, for every call that has not read yet and every later one, if and only if no call
   sits between its read and its return with a wrong answer that is younger than the time to live.
   */
  lemma BustHoldsExactly(s: System, from: nat)
    requires s.past != [] && !s.env.locked && s.cache == None && from <= |s.calls|
    requires forall k :: from <= k < |s.calls| ==> s.calls[k].Reading?
    ensures Effective(s, from) <==> !exists k: nat :: Stale(s, k)
  {
    if k: nat :| Stale(s, k) {
      StaleUndoes(s, k, from);
    } else {
      forall steps: seq<Step>, k: nat | Undisturbed(steps) && from <= k < |Run(s, steps).calls|
        ensures Run(s, steps).calls[k].Done? ==> Run(s, steps).calls[k].entry.val == Truth(s)
      {
        RunKeepsClean(s, steps, from);
      }
    }
  }

  /**
   The PUT's own resolve and all later calls answer what is stored, if and only if no stale call is about to return.
   */
  lemma PutHoldsExactly(s: System, p: nat)
    requires s.past != [] && !s.env.locked && p < |s.puts| && s.puts[p].Written?
    ensures var t := Next(s, PutResume(p));
      && Truth(t) == Truth(s)
      && (Effective(t, |s.calls|) <==> !exists k: nat :: Stale(s, k))
  {
    var t := Next(s, PutResume(p));
    assert t.calls == s.calls + [Reading(|s.past| - 1, s.now)];
    BustHoldsExactly(t, |s.calls|);
    assert forall k: nat :: Stale(t, k) <==> Stale(s, k);
  }

  // ---------------------------------------------------------------------
  // A run in which a bust is undone
  // ---------------------------------------------------------------------

  const RACE := [
    Resolve, ReadRow(0), PutAsk(true), PutWrite(0), PutResume(0), ReadRow(1), Finish(1), Finish(0), Resolve]
  const UNLOCKED := Start(Env(false, false), 0, Some(false), true)

  lemma RunThree(s: System, steps: seq<Step>, n: nat)
    requires s.past != [] && n + 3 <= |steps|
    ensures Run(s, steps[..n + 3]) == Next(Next(Next(Run(s, steps[..n]), steps[n]), steps[n + 1]), steps[n + 2])
  {
    RunSteps(s, steps, n);
    RunSteps(s, steps, n + 1);
    RunSteps(s, steps, n + 2);
  }

  lemma RunFour(s: System, steps: seq<Step>, n: nat)
    requires s.past != [] && n + 4 <= |steps|
    ensures Run(s, steps[..n + 4]) ==
      Next(Next(Next(Next(Run(s, steps[..n]), steps[n]), steps[n + 1]), steps[n + 2]), steps[n + 3])
  {
    RunThree(s, steps, n);
    RunSteps(s, steps, n + 3);
  }

  lemma RaceUpToRead()
    ensures var s := Run(UNLOCKED, RACE[..2]);
      && s.env == Env(false, false) && s.now == 0 && s.cache == None && s.stored == Some(false) && s.up && |s.past| == 3
      && s.calls == [HasRow(0, 0, Got(false))] && s.puts == []
  {
    assert RACE[..0] == [];
    RunSteps(UNLOCKED, RACE, 0);
    RunSteps(UNLOCKED, RACE, 1);
  }

  lemma PutAfterRead(s: System)
    requires s.env == Env(false, false) && s.now == 0 && s.cache == None && s.up && |s.past| == 3
    requires s.calls == [HasRow(0, 0, Got(false))] && s.puts == []
    ensures var t := Next(Next(Next(s, PutAsk(true)), PutWrite(0)), PutResume(0));
      && t.env == s.env && t.now == 0 && t.cache == None && t.stored == Some(true) && t.up && |t.past| == 6
      && t.calls == [HasRow(0, 0, Got(false)), Reading(4, 0)] && t.puts == [Resolving(true, 1)]
  {
    var t := Next(Next(s, PutAsk(true)), PutWrite(0));
    assert t.puts == [Written(true)];
  }

  lemma RaceUpToPut()
    ensures var s := Run(UNLOCKED, RACE[..5]);
      && s.env == Env(false, false) && s.now == 0 && s.cache == None && s.stored == Some(true) && s.up && |s.past| == 6
      && s.calls == [HasRow(0, 0, Got(false)), Reading(4, 0)] && s.puts == [Resolving(true, 1)]
  {
    RaceUpToRead();
    RunThree(UNLOCKED, RACE, 2);
    PutAfterRead(Run(UNLOCKED, RACE[..2]));
  }

  lemma LateFinish(s: System)
    requires s.env == Env(false, false) && s.now == 0 && s.stored == Some(true) && s.up && |s.past| == 6
    requires s.calls == [HasRow(0, 0, Got(false)), Reading(4, 0)] && s.puts == [Resolving(true, 1)]
    ensures var t := Next(Next(Next(Next(s, ReadRow(1)), Finish(1)), Finish(0)), Resolve);
      && t.stored == Some(true) && t.puts == [Resolving(true, 1)] && |t.calls| == 3
      && t.calls[1] == Done(4, 0, Some(Got(true)), Entry(true, 0, Db), false)
      && t.calls[2] == Done(8, 0, None, Entry(false, 0, Db), true)
  {
    var t := Next(Next(s, ReadRow(1)), Finish(1));
    assert t.calls == [HasRow(0, 0, Got(false)), Done(4, 0, Some(Got(true)), Entry(true, 0, Db), false)];
    assert Next(t, Finish(0)).cache == Some(Entry(false, 0, Db));
  }

  /**
   The limit of the bound is reached: a resolve that read before a PUT, stale when that PUT's bust has run, can put the
   old value back even after the PUT's answer, and the next resolve is served that value.
   */
  lemma BustCanBeUndone()
    ensures Stale(Run(UNLOCKED, RACE[..5]), 0)
    ensures var s := Run(UNLOCKED, RACE);
      && s.stored == Some(true) && s.puts == [Resolving(true, 1)] && |s.calls| == 3
      && s.calls[1] == Done(4, 0, Some(Got(true)), Entry(true, 0, Db), false)
      && s.calls[2] == Done(8, 0, None, Entry(false, 0, Db), true)
  {
    RaceUpToPut();
    RunFour(UNLOCKED, RACE, 5);
    LateFinish(Run(UNLOCKED, RACE[..5]));
    assert RACE[..9] == RACE;
  }
}
