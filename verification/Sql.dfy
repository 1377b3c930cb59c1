/**
 The SQL the builders emit, as clauses over numbered placeholders, with its
 meaning on one row and on a table.
 */
module Sql {
  import opened Common

  datatype Value = Null | Num(n: int) | Text(s: string)

  type Row = map<string, Value>

  /** `col = $ph`; placeholders count from 1. */
  datatype Bind = Bind(col: string, ph: nat)

  datatype Update = Update(sets: seq<Bind>, where: seq<Bind>)

  function Arg(params: seq<Value>, ph: nat): Value {
    if 1 <= ph <= |params| then params[ph - 1] else Null
  }

  /** A comparison with NULL is never true. */
  predicate Matches(where: seq<Bind>, params: seq<Value>, row: Row) {
    forall b :: b in where ==> b.col in row && Arg(params, b.ph) != Null && row[b.col] == Arg(params, b.ph)
  }

  function Assign(sets: seq<Bind>, params: seq<Value>, row: Row): Row {
    if sets == [] then row
    else
      var b := sets[|sets| - 1];
      Assign(sets[..|sets| - 1], params, row)[b.col := Arg(params, b.ph)]
  }

  function ExecRow(u: Update, params: seq<Value>, row: Row): Row {
    if Matches(u.where, params, row) then Assign(u.sets, params, row) else row
  }

  /** Every placeholder from 1 to the number of parameters is used once, in the order the parameters were pushed. */
  predicate Numbered(u: Update, params: seq<Value>) {
    var bs := u.sets + u.where;
    |bs| == |params| && forall k :: 0 <= k < |bs| ==> bs[k].ph == k + 1
  }

  /** The direct meaning of a field list: overwrite the row's fields, last one wins. */
  function Overwrite(row: Row, fields: seq<(string, Value)>): Row {
    if fields == [] then row
    else
      var f := fields[|fields| - 1];
      Overwrite(row, fields[..|fields| - 1])[f.0 := f.1]
  }

  function Values(fields: seq<(string, Value)>): seq<Value> {
    seq(|fields|, k requires 0 <= k < |fields| => fields[k].1)
  }

  /** The builders' statement: the fields, then the two columns that pick the row. */
  predicate Built(u: Update, params: seq<Value>, fields: seq<(string, Value)>, keys: seq<(string, Value)>) {
    && |u.sets| == |fields| && |u.where| == |keys|
    && params == Values(fields) + Values(keys)
    && (forall k :: 0 <= k < |fields| ==> u.sets[k] == Bind(fields[k].0, k + 1))
    && (forall k :: 0 <= k < |keys| ==> u.where[k] == Bind(keys[k].0, |fields| + k + 1))
  }

  predicate Keyed(row: Row, keys: seq<(string, Value)>) {
    forall k :: 0 <= k < |keys| ==> keys[k].0 in row && keys[k].1 != Null && row[keys[k].0] == keys[k].1
  }

  lemma {:induction false} AssignIsOverwrite(sets: seq<Bind>, params: seq<Value>,
                                             fields: seq<(string, Value)>, row: Row)
    requires |sets| == |fields| <= |params|
    requires forall k :: 0 <= k < |fields| ==> sets[k] == Bind(fields[k].0, k + 1) && params[k] == fields[k].1
    ensures Assign(sets, params, row) == Overwrite(row, fields)
  {
    if sets != [] {
      AssignIsOverwrite(sets[..|sets| - 1], params, fields[..|fields| - 1], row);
    }
  }

  /** A built statement is well numbered and means: overwrite the fields of the rows with these keys, nothing else. */
  lemma BuiltMeans(u: Update, params: seq<Value>, fields: seq<(string, Value)>, keys: seq<(string, Value)>, row: Row)
    requires Built(u, params, fields, keys)
    ensures Numbered(u, params)
    ensures ExecRow(u, params, row) == if Keyed(row, keys) then Overwrite(row, fields) else row
  {
    AssignIsOverwrite(u.sets, params, fields, row);
    forall k | 0 <= k < |keys|
      ensures Arg(params, u.where[k].ph) == keys[k].1 && u.where[k].col == keys[k].0
    {
    }
    if Matches(u.where, params, row) {
      forall k | 0 <= k < |keys|
        ensures keys[k].0 in row && keys[k].1 != Null && row[keys[k].0] == keys[k].1
      {
        assert u.where[k] in u.where;
      }
    }
  }

  // ---------------------------------------------------------------------
  // Building a field list one optional field at a time
  // ---------------------------------------------------------------------

  function Maybe(col: string, v: Option<Value>): seq<(string, Value)> {
    if v.Some? then [(col, v.value)] else []
  }

  /** A text that is present. */
  function TextIfGiven(s: Option<string>): Option<Value> {
    if s.Some? then Some(Text(s.value)) else None
  }

  /** A text that is present and not empty. */
  function TextIfTruthy(s: Option<string>): Option<Value> {
    if s.Some? && s.value != "" then Some(Text(s.value)) else None
  }

  /** The record with one field replaced, if there is a new value. */
  function Put(row: Row, col: string, v: Option<Value>): Row {
    if v.Some? then row[col := v.value] else row
  }

  lemma OverwriteMaybe(row: Row, fields: seq<(string, Value)>, col: string, v: Option<Value>)
    ensures Overwrite(row, fields + Maybe(col, v)) == Put(Overwrite(row, fields), col, v)
  {
    if v.Some? {
      assert (fields + Maybe(col, v))[..|fields|] == fields;
    } else {
      assert fields + Maybe(col, v) == fields;
    }
  }

  /** `sets` and `params` were pushed together for exactly these fields. */
  predicate Pushed(sets: seq<Bind>, params: seq<Value>, fields: seq<(string, Value)>) {
    && |sets| == |params| == |fields|
    && forall k :: 0 <= k < |fields| ==> sets[k] == Bind(fields[k].0, k + 1) && params[k] == fields[k].1
  }

  lemma PushMaybe(sets: seq<Bind>, params: seq<Value>, fields: seq<(string, Value)>, col: string, v: Option<Value>)
    requires Pushed(sets, params, fields)
    ensures v.None? ==> Pushed(sets, params, fields + Maybe(col, v))
    ensures v.Some? ==> Pushed(sets + [Bind(col, |params| + 1)], params + [v.value], fields + Maybe(col, v))
  {
    if v.None? {
      assert fields + Maybe(col, v) == fields;
    }
  }

  lemma PushedIsBuilt(sets: seq<Bind>, params: seq<Value>, fields: seq<(string, Value)>,
                      key0: (string, Value), key1: (string, Value))
    requires Pushed(sets, params, fields)
    ensures var n := |params|;
      Built(Update(sets, [Bind(key0.0, n + 1), Bind(key1.0, n + 2)]), params + [key0.1, key1.1], fields, [key0, key1])
  {
    assert params == Values(fields);
    assert Values([key0, key1]) == [key0.1, key1.1];
  }
}
