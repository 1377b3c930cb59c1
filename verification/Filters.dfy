/**
 incident-svc GET /incidents: the SQL filter built when there is a database
 and the in-memory filter used otherwise.
 */
module Filters {
  import opened Common
  import opened Sql
  import opened Strings
  import Log = IncidentLog

  /** A clause of the WHERE list; `coalesce` reads a NULL column as ''. */
  datatype Operand = Operand(col: string, coalesce: bool)

  datatype Cond = Eq(col: string, ph: nat) | Ilike(left: Operand, ph: nat) | Or(a: Cond, b: Cond)

  /**
   LIKE with `%`, `_` and backslash escapes, comparing other characters under a case fold. A pattern that ends in a
   backslash is an error in Postgres and matches nothing here.
   */
  predicate Like(fold: char -> char, p: string, t: string)
    decreases |p| + |t|
  {
    if p == [] then t == []
    else if p[0] == '%' then Like(fold, p[1..], t) || (t != [] && Like(fold, p, t[1..]))
    else if t == [] then false
    else if p[0] == '_' then Like(fold, p[1..], t[1..])
    else if p[0] == '\\' then |p| > 1 && fold(p[1]) == fold(t[0]) && Like(fold, p[2..], t[1..])
    else fold(p[0]) == fold(t[0]) && Like(fold, p[1..], t[1..])
  }

  function Get(o: Operand, row: Row): Value {
    var v := if o.col in row then row[o.col] else Null;
    if o.coalesce && v == Null then Text("") else v
  }

  predicate Holds(fold: char -> char, c: Cond, params: seq<Value>, row: Row) {
    match c
    case Eq(col, ph) => Arg(params, ph) != Null && col in row && row[col] == Arg(params, ph)
    case Ilike(left, ph) =>
      Get(left, row).Text? && Arg(params, ph).Text? && Like(fold, Arg(params, ph).s, Get(left, row).s)
    case Or(a, b) => Holds(fold, a, params, row) || Holds(fold, b, params, row)
  }

  /** The clauses are joined by AND; without clauses every row is selected. */
  predicate Selected(fold: char -> char, clauses: seq<Cond>, params: seq<Value>, row: Row) {
    forall c :: c in clauses ==> Holds(fold, c, params, row)
  }

  function RowOf(i: Log.Incident): Row {
    map["id" := Num(i.id), "title" := Text(i.title), "severity" := Text(i.severity), "status" := Text(i.status),
        "description" := if i.description.Some? then Text(i.description.value) else Null]
  }

  predicate Given(s: Option<string>) {
    s.Some? && s.value != ""
  }

  function Needle(q: string): string {
    "%" + q + "%"
  }

  /** What the built WHERE clause selects, in terms of the two search parameters. */
  predicate SqlWants(fold: char -> char, status: Option<string>, q: Option<string>, i: Log.Incident) {
    && (Given(status) ==> i.status == status.value)
    && (Given(q) ==> Like(fold, Needle(q.value), i.title) || Like(fold, Needle(q.value), Log.Described(i)))
  }

  /** The clause list and its parameters, numbered in the order they are pushed. */
  function Clauses(status: Option<string>, q: Option<string>): (seq<Cond>, seq<Value>) {
    var n := if Given(status) then 1 else 0;
    ((if Given(status) then [Eq("status", 1)] else [])
     + (if Given(q) then
           [Or(Ilike(Operand("title", false), n + 1), Ilike(Operand("description", true), n + 2))] else []),
     (if Given(status) then [Text(status.value)] else [])
     + (if Given(q) then [Text(Needle(q.value)), Text(Needle(q.value))] else []))
  }

  lemma ClausesMean(fold: char -> char, status: Option<string>, q: Option<string>, i: Log.Incident)
    ensures var (clauses, params) := Clauses(status, q);
      Selected(fold, clauses, params, RowOf(i)) <==> SqlWants(fold, status, q, i)
  {
    var (clauses, params) := Clauses(status, q);
    var n := if Given(status) then 1 else 0;
    if Given(status) {
      assert Eq("status", 1) in clauses;
      assert Arg(params, 1) == Text(status.value);
    }
    if Given(q) {
      var c := Or(Ilike(Operand("title", false), n + 1), Ilike(Operand("description", true), n + 2));
      assert c in clauses;
      assert Arg(params, n + 1) == Arg(params, n + 2) == Text(Needle(q.value));
      assert Get(Operand("title", false), RowOf(i)) == Text(i.title);
      assert Get(Operand("description", true), RowOf(i)) == Text(Log.Described(i));
      assert Holds(fold, c, params, RowOf(i)) <==>
        Like(fold, Needle(q.value), i.title) || Like(fold, Needle(q.value), Log.Described(i));
    }
    assert forall c :: c in clauses ==> (Given(status) && c == Eq("status", 1)) || (Given(q) && c == clauses[n]);
  }

  method BuildFilter(status: Option<string>, q: Option<string>) returns (clauses: seq<Cond>, params: seq<Value>)
    ensures forall fold: char -> char, i: Log.Incident ::
      Selected(fold, clauses, params, RowOf(i)) <==> SqlWants(fold, status, q, i)
  {
    clauses, params := [], [];
    if Given(status) {
      params := params + [Text(status.value)];
      clauses := clauses + [Eq("status", |params|)];
    }
    if Given(q) {
      params := params + [Text(Needle(q.value)), Text(Needle(q.value))];
      var a, b := |params| - 1, |params|;
      clauses := clauses + [Or(Ilike(Operand("title", false), a), Ilike(Operand("description", true), b))];
    }
    assert clauses == Clauses(status, q).0;
    assert params == Clauses(status, q).1;
    forall fold: char -> char, i: Log.Incident
      ensures Selected(fold, clauses, params, RowOf(i)) <==> SqlWants(fold, status, q, i)
    {
      ClausesMean(fold, status, q, i);
    }
  }

  // ---------------------------------------------------------------------
  // The in-memory branch
  // ---------------------------------------------------------------------

  function Lower(fold: char -> char, s: string): string {
    seq(|s|, k requires 0 <= k < |s| => fold(s[k]))
  }

  predicate MemoryWants(fold: char -> char, status: Option<string>, q: Option<string>, i: Log.Incident) {
    && (Given(status) ==> i.status == status.value)
    && (Given(q) ==> Contains(Lower(fold, i.title), Lower(fold, q.value))
                     || Contains(Lower(fold, Log.Described(i)), Lower(fold, q.value)))
  }

  function Filter(keep: Log.Incident -> bool, list: seq<Log.Incident>): seq<Log.Incident> {
    if list == [] then []
    else
      var i := list[|list| - 1];
      Filter(keep, list[..|list| - 1]) + if keep(i) then [i] else []
  }

  function ListInMemory(fold: char -> char, status: Option<string>, q: Option<string>, incidents: seq<Log.Incident>)
    : seq<Log.Incident>
  {
    Filter(i => MemoryWants(fold, status, q, i), incidents)
  }

  function ListBySql(fold: char -> char, clauses: seq<Cond>, params: seq<Value>, incidents: seq<Log.Incident>)
    : seq<Log.Incident>
  {
    Filter(i => Selected(fold, clauses, params, RowOf(i)), incidents)
  }

  // ---------------------------------------------------------------------
  // What a listing contains
  // ---------------------------------------------------------------------

  /** The result is the list at these indices, which increase. */
  ghost predicate IsAt(result: seq<Log.Incident>, picked: seq<nat>, list: seq<Log.Incident>) {
    && |result| == |picked|
    && (forall j :: 0 <= j < |picked| ==> picked[j] < |list| && result[j] == list[picked[j]])
    && (forall i, j :: 0 <= i < j < |picked| ==> picked[i] < picked[j])
  }

  /** Where a filter finds the elements to keep. */
  function Picked(keep: Log.Incident -> bool, list: seq<Log.Incident>): seq<nat> {
    if list == [] then []
    else
      var n: nat := |list| - 1;
      Picked(keep, list[..n]) + if keep(list[n]) then [n] else []
  }

  lemma {:induction false} PickedExactly(keep: Log.Incident -> bool, list: seq<Log.Incident>)
    ensures forall k: nat :: k in Picked(keep, list) <==> k < |list| && keep(list[k])
  {
    if list != [] {
      PickedExactly(keep, list[..|list| - 1]);
    }
  }

  lemma IsAtSnoc(result: seq<Log.Incident>, picked: seq<nat>, list: seq<Log.Incident>, i: Log.Incident)
    requires IsAt(result, picked, list)
    ensures IsAt(result, picked, list + [i])
    ensures IsAt(result + [i], picked + [|list|], list + [i])
  {
  }

  lemma {:induction false} FilterIsAt(keep: Log.Incident -> bool, list: seq<Log.Incident>)
    ensures IsAt(Filter(keep, list), Picked(keep, list), list)
  {
    if list != [] {
      var front, i := list[..|list| - 1], list[|list| - 1];
      FilterIsAt(keep, front);
      IsAtSnoc(Filter(keep, front), Picked(keep, front), front, i);
      assert front + [i] == list;
      assert Filter(keep, front) + [] == Filter(keep, front) && Picked(keep, front) + [] == Picked(keep, front);
    }
  }

  /** `list.filter` gives the elements to keep, all of them, in the order of the list. */
  lemma FilterPicks(keep: Log.Incident -> bool, list: seq<Log.Incident>) returns (picked: seq<nat>)
    ensures IsAt(Filter(keep, list), picked, list)
    ensures forall k: nat :: k in picked <==> k < |list| && keep(list[k])
  {
    picked := Picked(keep, list);
    FilterIsAt(keep, list);
    PickedExactly(keep, list);
  }

  /** What the caller of GET /incidents asks for in memory, an empty parameter being none. */
  ghost predicate Asked(fold: char -> char, status: Option<string>, q: Option<string>, i: Log.Incident) {
    && (status == None || status == Some("") || i.status == status.value)
    && (q == None || q == Some("")
        || Contains(Lower(fold, i.title), Lower(fold, q.value))
        || (i.description.Some? && Contains(Lower(fold, i.description.value), Lower(fold, q.value))))
  }

  lemma EmptyContains(fold: char -> char, needle: string)
    requires needle != ""
    ensures !Contains(Lower(fold, ""), Lower(fold, needle))
  {
  }

  /** The in-memory branch lists exactly the incidents asked for, each once, in the order of the store. */
  lemma ListInMemoryExactly(fold: char -> char, status: Option<string>, q: Option<string>, list: seq<Log.Incident>)
    returns (picked: seq<nat>)
    ensures IsAt(ListInMemory(fold, status, q, list), picked, list)
    ensures forall k: nat :: k in picked <==> k < |list| && Asked(fold, status, q, list[k])
  {
    picked := FilterPicks(i => MemoryWants(fold, status, q, i), list);
    forall k | 0 <= k < |list|
      ensures MemoryWants(fold, status, q, list[k]) <==> Asked(fold, status, q, list[k])
    {
      if Given(q) && list[k].description.None? {
        EmptyContains(fold, q.value);
      }
    }
  }

  /** What the database is asked for: like `Asked`, with the search text as a pattern. */
  ghost predicate AskedLike(fold: char -> char, status: Option<string>, q: Option<string>, i: Log.Incident) {
    && (status == None || status == Some("") || i.status == status.value)
    && (q == None || q == Some("")
        || Like(fold, "%" + q.value + "%", i.title)
        || Like(fold, "%" + q.value + "%", if i.description.Some? then i.description.value else ""))
  }

  /** The database branch lists exactly the rows whose incident is asked for, in the order of the table. */
  lemma ListBySqlExactly(fold: char -> char, status: Option<string>, q: Option<string>,
                         clauses: seq<Cond>, params: seq<Value>, list: seq<Log.Incident>)
    returns (picked: seq<nat>)
    requires forall i: Log.Incident :: Selected(fold, clauses, params, RowOf(i)) <==> SqlWants(fold, status, q, i)
    ensures IsAt(ListBySql(fold, clauses, params, list), picked, list)
    ensures forall k: nat :: k in picked <==> k < |list| && AskedLike(fold, status, q, list[k])
  {
    picked := FilterPicks(i => Selected(fold, clauses, params, RowOf(i)), list);
    assert forall k :: 0 <= k < |list| ==>
      (Selected(fold, clauses, params, RowOf(list[k])) <==> SqlWants(fold, status, q, list[k]));
    assert forall i: Log.Incident :: SqlWants(fold, status, q, i) <==> AskedLike(fold, status, q, i);
  }

  // ---------------------------------------------------------------------
  // LIKE '%q%' and substring search
  // ---------------------------------------------------------------------

  predicate Special(c: char) {
    c == '%' || c == '_' || c == '\\'
  }

  predicate Plain(q: string) {
    forall c :: c in q ==> !Special(c)
  }

  lemma {:induction false} AnyTail(fold: char -> char, t: string)
    ensures Like(fold, "%", t)
    decreases |t|
  {
    if t != [] {
      AnyTail(fold, t[1..]);
    } else {
      assert Like(fold, "%"[1..], t);
    }
  }

  lemma {:induction false} PlainPrefix(fold: char -> char, q: string, t: string)
    requires Plain(q)
    ensures Like(fold, q + "%", t) <==> |q| <= |t| && Lower(fold, t[..|q|]) == Lower(fold, q)
    decreases |q|
  {
    if q == [] {
      assert q + "%" == "%";
      AnyTail(fold, t);
    } else if t == [] {
      assert q[0] in q && (q + "%")[0] == q[0];
    } else {
      assert q[0] in q && (q + "%")[0] == q[0];
      assert (q + "%")[1..] == q[1..] + "%";
      assert forall c :: c in q[1..] ==> c in q;
      PlainPrefix(fold, q[1..], t[1..]);
      if |q| <= |t| {
        var a, b := Lower(fold, t[..|q|]), Lower(fold, q);
        assert t[1..][..|q| - 1] == t[..|q|][1..];
        assert Lower(fold, t[1..][..|q| - 1]) == a[1..] && Lower(fold, q[1..]) == b[1..];
        assert a == [fold(t[0])] + a[1..] && b == [fold(q[0])] + b[1..];
      }
    }
  }

  lemma {:induction false} LikeFloats(fold: char -> char, p: string, t: string)
    ensures Like(fold, "%" + p, t) <==> exists i :: 0 <= i <= |t| && Like(fold, p, t[i..])
    decreases |t|
  {
    assert ("%" + p)[1..] == p && t[0..] == t;
    if t != [] {
      LikeFloats(fold, p, t[1..]);
      if i :| 0 <= i <= |t| && Like(fold, p, t[i..]) {
        assert i > 0 ==> t[1..][i - 1..] == t[i..];
      }
      if i :| 0 <= i <= |t[1..]| && Like(fold, p, t[1..][i..]) {
        assert t[1..][i..] == t[i + 1..];
      }
    }
  }

  /** For a search text without `%`, `_` and backslash, ILIKE '%q%' is case-folded substring search. */
  lemma LikeIsContains(fold: char -> char, q: string, t: string)
    requires Plain(q)
    ensures Like(fold, Needle(q), t) <==> Contains(Lower(fold, t), Lower(fold, q))
  {
    assert Needle(q) == "%" + (q + "%");
    LikeFloats(fold, q + "%", t);
    forall i: nat | i <= |t|
      ensures Like(fold, q + "%", t[i..]) <==> OccursAt(Lower(fold, t), Lower(fold, q), i)
    {
      LikeAt(fold, q, t, i);
    }
  }

  lemma LikeAt(fold: char -> char, q: string, t: string, i: nat)
    requires Plain(q) && i <= |t|
    ensures Like(fold, q + "%", t[i..]) <==> OccursAt(Lower(fold, t), Lower(fold, q), i)
  {
    PlainPrefix(fold, q, t[i..]);
    if i + |q| <= |t| {
      assert t[i..][..|q|] == t[i..i + |q|];
      assert Lower(fold, t[i..i + |q|]) == Lower(fold, t)[i..i + |q|];
    }
  }

  // ---------------------------------------------------------------------
  // Exactly when the two branches agree
  // ---------------------------------------------------------------------

  /** A text that matches q as a pattern, character by character. */
  function Sample(q: string): string {
    if q == [] then ""
    else if q[0] == '%' then Sample(q[1..])
    else if q[0] == '_' then "a" + Sample(q[1..])
    else if q[0] == '\\' then if |q| > 1 then [q[1]] + Sample(q[2..]) else "%"
    else [q[0]] + Sample(q[1..])
  }

  lemma {:induction false} SampleMatches(fold: char -> char, q: string)
    ensures Like(fold, q + "%", Sample(q))
  {
    var p, t := q + "%", Sample(q);
    if q == [] {
      assert p == "%";
      AnyTail(fold, t);
    } else if q[0] == '\\' {
      if |q| > 1 {
        SampleMatches(fold, q[2..]);
        assert p[2..] == q[2..] + "%" && t[1..] == Sample(q[2..]);
      } else {
        assert p == "\\%" && p[2..] == "" && t[1..] == "";
        assert Like(fold, p[2..], t[1..]);
      }
    } else {
      SampleMatches(fold, q[1..]);
      assert p[1..] == q[1..] + "%";
      assert q[0] != '%' ==> t[1..] == Sample(q[1..]);
    }
  }

  /** The fold tells the two stand-in characters of `Sample` from what they stand for; every lower-casing does. */
  predicate TellsApart(fold: char -> char) {
    fold('a') != fold('_') && fold('%') != fold('\\')
  }

  lemma {:induction false} SampleDiffers(fold: char -> char, q: string)
    requires TellsApart(fold)
    ensures |Sample(q)| <= |q|
    ensures !Plain(q) ==> |Sample(q)| < |q| || Lower(fold, Sample(q)) != Lower(fold, q)
  {
    if q != [] {
      var t, lt, lq := Sample(q), Lower(fold, Sample(q)), Lower(fold, q);
      if q[0] == '\\' && |q| > 1 {
        SampleDiffers(fold, q[2..]);
      } else {
        SampleDiffers(fold, q[1..]);
        if !Plain(q) && |t| == |q| {
          if Special(q[0]) {
            assert lt[0] != lq[0];
          } else {
            var c :| c in q && Special(c);
            assert c in q[1..];
            assert lt[1..] == Lower(fold, Sample(q[1..])) && lq[1..] == Lower(fold, q[1..]);
          }
        }
      }
    }
  }

  lemma {:induction false} FilterSame(f: Log.Incident -> bool, g: Log.Incident -> bool, list: seq<Log.Incident>)
    requires forall i :: i in list ==> f(i) == g(i)
    ensures Filter(f, list) == Filter(g, list)
  {
    if list != [] {
      assert forall i :: i in list[..|list| - 1] ==> i in list;
      FilterSame(f, g, list[..|list| - 1]);
    }
  }

  lemma FilterOne(f: Log.Incident -> bool, i: Log.Incident)
    ensures Filter(f, [i]) == if f(i) then [i] else []
  {
    assert [i][..0] == [];
  }

  lemma WantsAgree(fold: char -> char, status: Option<string>, q: Option<string>, i: Log.Incident)
    requires Given(q) ==> Plain(q.value)
    ensures SqlWants(fold, status, q, i) <==> MemoryWants(fold, status, q, i)
  {
    if Given(q) {
      LikeIsContains(fold, q.value, i.title);
      LikeIsContains(fold, q.value, Log.Described(i));
    }
  }

  function SampleIncident(status: Option<string>, q: string): Log.Incident {
    Log.Incident(1, Sample(q), None, "major", if Given(status) then status.value else "open", [])
  }

  /** If q has a pattern character, the incident titled `Sample(q)` is listed by the database and not in memory. */
  lemma SampleTellsBranchesApart(fold: char -> char, status: Option<string>, q: string)
    requires TellsApart(fold) && q != "" && !Plain(q)
    ensures SqlWants(fold, status, Some(q), SampleIncident(status, q))
    ensures !MemoryWants(fold, status, Some(q), SampleIncident(status, q))
  {
    var t := Sample(q);
    SampleMatches(fold, q);
    LikeFloats(fold, q + "%", t);
    assert t[0..] == t && "%" + (q + "%") == Needle(q);
    SampleDiffers(fold, q);
    forall i: nat | i <= |t|
      ensures !OccursAt(Lower(fold, t), Lower(fold, q), i)
    {
      assert |q| == |t| ==> Lower(fold, t)[0..|q|] == Lower(fold, t);
    }
  }

  /**
   For clauses and parameters built for this request, the database branch and the in-memory branch list the same
   incidents, whatever incidents there are, if and only if the search text has no `%`, no `_` and no backslash.
   */
  lemma BranchesAgree(fold: char -> char, status: Option<string>, q: Option<string>,
                      clauses: seq<Cond>, params: seq<Value>)
    requires TellsApart(fold)
    requires forall i: Log.Incident :: Selected(fold, clauses, params, RowOf(i)) <==> SqlWants(fold, status, q, i)
    ensures (forall list: seq<Log.Incident> ::
               ListBySql(fold, clauses, params, list) == ListInMemory(fold, status, q, list))
      <==> (Given(q) ==> Plain(q.value))
  {
    if Given(q) && !Plain(q.value) {
      var i := SampleIncident(status, q.value);
      SampleTellsBranchesApart(fold, status, q.value);
      assert q == Some(q.value);
      FilterOne(x => Selected(fold, clauses, params, RowOf(x)), i);
      FilterOne(x => MemoryWants(fold, status, q, x), i);
      assert ListBySql(fold, clauses, params, [i]) != ListInMemory(fold, status, q, [i]);
    } else {
      forall list: seq<Log.Incident>
        ensures ListBySql(fold, clauses, params, list) == ListInMemory(fold, status, q, list)
      {
        forall i | i in list
          ensures Selected(fold, clauses, params, RowOf(i)) == MemoryWants(fold, status, q, i)
        {
          WantsAgree(fold, status, q, i);
        }
        FilterSame(i => Selected(fold, clauses, params, RowOf(i)), i => MemoryWants(fold, status, q, i), list);
      }
    }
  }
}
