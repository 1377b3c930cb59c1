/**
 incident-svc `readMultipart`: the hand-written reader of a multipart/form-data
 body, and the printer it has to invert (sections 4.2 and 4.3 of RFC 7578,
 section 5.1.1 of RFC 2046). A byte is a char, as in the 'binary' encoding.
 */
module Multipart {
  import opened Common
  import opened Strings

  const CRLF := "\r\n"
  const BLANK_LINE := "\r\n\r\n"
  const NAME := "name=\""
  const FILENAME := "filename=\""

  datatype File = File(filename: string, data: string)

  // ---------------------------------------------------------------------
  // The reader
  // ---------------------------------------------------------------------

  /** The regular expression `key([^"]+)"` tried at one position. */
  function ParamAt(s: string, key: string, at: nat): Option<string> {
    if !OccursAt(s, key, at) then None
    else
      var end := Find(s, "\"", at + |key|);
      if end.Some? && end.value > at + |key| then Some(s[at + |key|..end.value]) else None
  }

  /** Its leftmost match. */
  function Param(s: string, key: string, from: nat): Option<string>
    decreases |s| - from
  {
    if from > |s| then None
    else if ParamAt(s, key, from).Some? then ParamAt(s, key, from)
    else Param(s, key, from + 1)
  }

  /** `boundary=([^;]+)`, leftmost match. */
  function Boundary(contentType: string, from: nat): Option<string>
    decreases |contentType| - from
  {
    var start := from + |"boundary="|;
    if start >= |contentType| then None
    else if OccursAt(contentType, "boundary=", from) && contentType[start] != ';' then
      var end := Find(contentType, ";", start);
      Some(contentType[start..if end.Some? then end.value else |contentType|])
    else Boundary(contentType, from + 1)
  }

  function DropTwo(s: string): string {
    if |s| >= 2 then s[..|s| - 2] else ""
  }

  /** The file in one piece between boundaries, if it is the part named `file` and has a filename. */
  function FileIn(part: string): Option<File> {
    if part == "" || part == "--\r\n" then None
    else
      var pieces := Split(part, BLANK_LINE);
      var head, tail := pieces[0], if |pieces| > 1 then pieces[1] else "";
      if head == "" || tail == "" then None
      else if Param(head, NAME, 0) == Some("file") && Param(head, FILENAME, 0).Some? then
        Some(File(Param(head, FILENAME, 0).value, DropTwo(tail)))
      else None
  }

  function FirstFile(parts: seq<string>): Option<File> {
    if parts == [] then None
    else if FileIn(parts[0]).Some? then FileIn(parts[0])
    else FirstFile(parts[1..])
  }

  function Read(contentType: Option<string>, body: string): Option<File> {
    if contentType.None? then None
    else
      var b := Boundary(contentType.value, 0);
      if b.None? then None else FirstFile(Split(body, "--" + b.value))
  }

  method ReadMultipart(contentType: Option<string>, body: string) returns (file: Option<File>)
    ensures file == Read(contentType, body)
  {
    if contentType.None? {
      return None;
    }
    var match1 := Boundary(contentType.value, 0);
    if match1.None? {
      return None;
    }
    var boundary := "--" + match1.value;
    var parts := Split(body, boundary);
    for k := 0 to |parts|
      invariant FirstFile(parts) == FirstFile(parts[k..])
    {
      var part := parts[k];
      assert parts[k..][1..] == parts[k + 1..];
      if part == "" || part == "--\r\n" {
        continue;
      }
      var pieces := Split(part, BLANK_LINE);
      var head, tail := pieces[0], if |pieces| > 1 then pieces[1] else "";
      if head == "" || tail == "" {
        continue;
      }
      var nameMatch := Param(head, NAME, 0);
      var filenameMatch := Param(head, FILENAME, 0);
      if nameMatch == Some("file") && filenameMatch.Some? {
        return Some(File(filenameMatch.value, DropTwo(tail)));
      }
    }
    file := None;
  }

  // ---------------------------------------------------------------------
  // The printer
  // ---------------------------------------------------------------------

  /** The header lines are `pre`, the name parameter, `mid`, the filename parameter if any, and `post`. */
  datatype Part = Part(pre: string, name: string, mid: string, filename: Option<string>, post: string, content: string)

  function AfterName(p: Part): string {
    p.mid + (if p.filename.Some? then FILENAME + p.filename.value + "\"" else "") + p.post
  }

  function Head(p: Part): string {
    p.pre + NAME + p.name + "\"" + AfterName(p)
  }

  function Segment(p: Part): string {
    CRLF + Head(p) + BLANK_LINE + p.content + CRLF
  }

  function Print(ps: seq<Part>, d: string): string {
    if ps == [] then d + "--" + CRLF else d + Segment(ps[0]) + Print(ps[1..], d)
  }

  function Header(boundary: string): string {
    "multipart/form-data; boundary=" + boundary
  }

  /** A part named `file` that has a filename, which is not empty. */
  predicate Wanted(p: Part) {
    p.name == "file" && p.filename.Some? && p.filename.value != ""
  }

  /** The first such part. */
  function Expected(ps: seq<Part>): (r: Option<Part>)
    ensures r.Some? ==> Wanted(r.value) && r.value in ps
    ensures r.None? ==> forall p :: p in ps ==> !Wanted(p)
  {
    if ps == [] then None else if Wanted(ps[0]) then Some(ps[0]) else Expected(ps[1..])
  }

  predicate NonEmptyUnquoted(s: string) {
    s != "" && '\"' !in s
  }

  /**
   The name parameter is not empty, comes first and is a parameter of its own; for a part named `file` the same goes for
   the filename parameter, if there is one, and an empty one is the last; the header lines end only where they should.
   */
  predicate HeadOk(p: Part) {
    && NonEmptyUnquoted(p.name)
    && (p.name == "file" ==>
          if p.filename.None? then !Contains(Head(p), FILENAME)
          else '\"' !in p.filename.value && !Contains(p.mid, FILENAME)
               && (p.filename.value == "" ==> !Contains(p.post, FILENAME)))
    && !Contains(p.pre, NAME)
    && !(|p.pre| >= 4 && p.pre[|p.pre| - 4..] == "file")
    && !Contains(CRLF + Head(p) + CRLF, BLANK_LINE)
  }

  predicate BoundaryOk(boundary: string) {
    boundary != "" && '\r' !in boundary && ';' !in boundary
  }

  predicate Undelimited(p: Part, d: string) {
    !Contains(Head(p), d) && !Contains(p.content, d)
  }

  /** No blank line inside the content, nor at its end once the closing line break is added. */
  predicate ReadsBack(content: string) {
    !Contains(content + CRLF, BLANK_LINE)
  }

  // ---------------------------------------------------------------------
  // Splitting at the boundary
  // ---------------------------------------------------------------------

  predicate IsDelimiter(d: string) {
    |d| >= 3 && d[0] == '-' && d[1] == '-' && '\r' !in d
  }

  /** A delimiter has no CR and does not start with LF, so it cannot straddle a line break. */
  lemma NoStraddle(a: string, b: string, d: string)
    requires IsDelimiter(d) && !Contains(a, d)
    ensures forall j: nat :: j < |a| + 2 ==> !OccursAt(a + CRLF + b, d, j)
    ensures !Contains(b, d) ==> !Contains(a + CRLF + b, d)
  {
    var s := a + CRLF + b;
    assert s[0..|a|] == a && s[|a|] == '\r' && s[|a| + 1] == '\n';
    forall j: nat | j < |a| + 2
      ensures !OccursAt(s, d, j)
    {
      if j + |d| <= |a| {
        Inside(s, a, 0, d, j);
      } else if j <= |a| {
        Mismatch(s, d, j, |a| - j);
      } else {
        Mismatch(s, d, j, 0);
      }
    }
    if !Contains(b, d) {
      assert s[|a| + 2..|s|] == b;
      forall j: nat | |a| + 2 <= j <= |s|
        ensures !OccursAt(s, d, j)
      {
        if j + |d| <= |s| {
          Inside(s, b, |a| + 2, d, j);
        }
      }
    }
  }

  lemma SegmentUndelimited(p: Part, d: string, rest: string)
    requires IsDelimiter(d) && Undelimited(p, d)
    ensures Split(Segment(p) + d + rest, d) == [Segment(p)] + Split(rest, d)
  {
    var a := CRLF + Head(p);
    NoStraddle("", Head(p), d);
    assert "" + CRLF + Head(p) == a;
    NoStraddle(a, "", d);
    assert a + CRLF + "" == a + CRLF;
    NoStraddle(a + CRLF, p.content, d);
    var x := a + CRLF + CRLF + p.content;
    NoStraddle(x, d + rest, d);
    assert x + CRLF == Segment(p);
    assert x + CRLF + (d + rest) == Segment(p) + d + rest;
    SplitAt(Segment(p), d, rest);
  }

  lemma LastPiece(d: string)
    requires IsDelimiter(d)
    ensures Split("--\r\n", d) == ["--\r\n"]
  {
    var s := "--\r\n";
    Mismatch(s, d, 0, 2);
    Mismatch(s, d, 1, 1);
    assert forall j: nat :: j <= |s| ==> !OccursAt(s, d, j);
  }

  function Segments(ps: seq<Part>): seq<string> {
    if ps == [] then [] else [Segment(ps[0])] + Segments(ps[1..])
  }

  /** The printed body after its first delimiter. */
  function Rest(ps: seq<Part>, d: string): string {
    if ps == [] then "--\r\n" else Segment(ps[0]) + d + Rest(ps[1..], d)
  }

  lemma {:induction false} PrintIsRest(ps: seq<Part>, d: string)
    ensures Print(ps, d) == d + Rest(ps, d)
  {
    if ps != [] {
      PrintIsRest(ps[1..], d);
      assert d + Segment(ps[0]) + (d + Rest(ps[1..], d)) == d + (Segment(ps[0]) + d + Rest(ps[1..], d));
    }
  }

  lemma {:induction false} SplitRest(ps: seq<Part>, d: string)
    requires IsDelimiter(d) && forall p :: p in ps ==> Undelimited(p, d)
    ensures Split(Rest(ps, d), d) == Segments(ps) + ["--\r\n"]
  {
    if ps == [] {
      LastPiece(d);
    } else {
      SplitRest(ps[1..], d);
      SegmentUndelimited(ps[0], d, Rest(ps[1..], d));
    }
  }

  /** Reading at the boundary gives back the empty preamble, one segment per part, and the closing dashes. */
  lemma SplitPrinted(ps: seq<Part>, d: string)
    requires IsDelimiter(d) && forall p :: p in ps ==> Undelimited(p, d)
    ensures Split(Print(ps, d), d) == [""] + (Segments(ps) + ["--\r\n"])
  {
    PrintIsRest(ps, d);
    SplitAt("", d, Rest(ps, d));
    assert "" + d + Rest(ps, d) == d + Rest(ps, d);
    SplitRest(ps, d);
  }

  // ---------------------------------------------------------------------
  // Reading one part
  // ---------------------------------------------------------------------

  lemma {:induction false} ParamFrom(s: string, key: string, from: nat, at: nat)
    requires from <= at <= |s| && forall j: nat :: from <= j < at ==> !OccursAt(s, key, j)
    ensures Param(s, key, from) == Param(s, key, at)
    decreases at - from
  {
    if from < at {
      ParamFrom(s, key, from + 1, at);
    }
  }

  lemma {:induction false} NoParamFrom(s: string, key: string, from: nat)
    requires forall j: nat :: from <= j ==> !OccursAt(s, key, j)
    ensures Param(s, key, from).None?
    decreases |s| - from
  {
    if from <= |s| {
      NoParamFrom(s, key, from + 1);
    }
  }

  /** A key followed by a quoted value. */
  lemma ParamAtIs(s: string, key: string, at: nat, value: string)
    requires NonEmptyUnquoted(value) && OccursAt(s, key, at)
    requires var start := at + |key|;
      start + |value| < |s| && s[start..start + |value|] == value && s[start + |value|] == '\"'
    ensures ParamAt(s, key, at) == Some(value)
  {
    var start := at + |key|;
    forall j: nat | start <= j < start + |value|
      ensures !OccursAt(s, "\"", j)
    {
      assert s[j] == s[start..start + |value|][j - start];
      Mismatch(s, "\"", j, 0);
    }
    assert s[start + |value|..start + |value| + 1] == "\"";
    FindIs(s, "\"", start, start + |value|);
  }

  lemma Slices(a: string, k: string, v: string, b: string)
    ensures var s := a + k + v + b; var start := |a| + |k|;
      s[|a|..start] == k && s[start..start + |v|] == v && s[start + |v|..] == b
  {
  }

  /** A key at its first occurrence, followed by a quoted value. */
  lemma ParamIs(a: string, key: string, value: string, b: string)
    requires NonEmptyUnquoted(value) && b != "" && b[0] == '\"'
    requires forall j: nat :: j < |a| ==> !OccursAt(a + key + value + b, key, j)
    ensures Param(a + key + value + b, key, 0) == Some(value)
  {
    var s := a + key + value + b;
    Slices(a, key, value, b);
    ParamFrom(s, key, 0, |a|);
    ParamAtIs(s, key, |a|, value);
  }

  /** In a head, nothing before the name parameter looks like one. */
  lemma NameFirst(pre: string, b: string)
    requires !Contains(pre, NAME)
    ensures forall j: nat :: j < |CRLF + pre| ==> !OccursAt(CRLF + pre + NAME + b, NAME, j)
  {
    var a := CRLF + pre;
    var s := a + NAME + b;
    assert s[2..2 + |pre|] == pre;
    forall j: nat | j < |a|
      ensures !OccursAt(s, NAME, j)
    {
      if j < 2 {
        Mismatch(s, NAME, j, 0);
      } else if j + 6 <= |a| {
        Inside(s, pre, 2, NAME, j);
      } else {
        assert s[|a|] == 'n';
        Mismatch(s, NAME, j, |a| - j);
      }
    }
  }

  lemma NameIs(p: Part)
    requires HeadOk(p)
    ensures Param(CRLF + Head(p), NAME, 0) == Some(p.name)
  {
    var a, b := CRLF + p.pre, "\"" + AfterName(p);
    NameFirst(p.pre, p.name + b);
    assert a + NAME + (p.name + b) == a + NAME + p.name + b;
    ParamIs(a, NAME, p.name, b);
    assert CRLF + Head(p) == a + NAME + p.name + b;
  }

  const NAMED_FILE := "name=\"file\""

  /** Where a filename parameter starts, a name parameter starts four characters later, after "file". */
  lemma FilenameHasName(s: string, j: nat)
    requires OccursAt(s, FILENAME, j)
    ensures OccursAt(s, NAME, j + 4) && s[j..j + 4] == "file"
  {
    assert s[j + 4..j + 10] == s[j..j + 10][4..10] && s[j..j + 4] == s[j..j + 10][..4];
  }

  /** A key with its only quote at its end does not start so that it would run over this quote. */
  lemma NotOverQuote(s: string, quote: nat, j: nat)
    requires quote < |s| && s[quote] == '\"' && j <= quote < j + 9
    ensures !OccursAt(s, FILENAME, j)
  {
    assert FILENAME[quote - j] != '\"';
    Mismatch(s, FILENAME, j, quote - j);
  }

  /**
   From the name parameter of the part named `file` to its filename parameter nothing looks like the latter: it would
   lie in between, which is excluded, or have a quote before its end, which it has not.
   */
  lemma FilenameNotInMiddle(s: string, start: nat, mid: string, j: nat)
    requires !Contains(mid, FILENAME) && start + 21 + |mid| <= |s|
    requires s[start..start + 11] == NAMED_FILE && s[start + 11..start + 11 + |mid|] == mid
    requires s[start + 11 + |mid|..start + 21 + |mid|] == FILENAME
    requires start < j + 4 && j < start + 11 + |mid|
    ensures !OccursAt(s, FILENAME, j)
  {
    var file := s[start..start + 11];
    assert file[1] == 'a' && file[5] == file[10] == '\"';
    if j <= start + 5 && j != start + 1 {
      NotOverQuote(s, start + 5, j);
    } else if j == start + 1 {
      Mismatch(s, FILENAME, j, 0);
    } else if j < start + 11 {
      NotOverQuote(s, start + 10, j);
    } else if j + 10 <= start + 11 + |mid| {
      Inside(s, mid, start + 11, FILENAME, j);
    } else {
      var i := j - start - |mid| - 2;
      assert s[j + 9] == s[start + 11 + |mid|..start + 21 + |mid|][i] == FILENAME[i] != '\"';
      Mismatch(s, FILENAME, j, 9);
    }
  }

  /** For the part named `file`, nothing before its filename parameter looks like one. */
  lemma FilenameFirst(pre: string, mid: string, b: string)
    requires !Contains(pre, NAME) && !(|pre| >= 4 && pre[|pre| - 4..] == "file")
    requires !Contains(mid, FILENAME)
    ensures var a := CRLF + pre + NAMED_FILE + mid;
      forall j: nat :: j < |a| ==> !OccursAt(a + FILENAME + b, FILENAME, j)
  {
    var a0 := CRLF + pre;
    var a := a0 + NAMED_FILE + mid;
    var s := a + FILENAME + b;
    NameFirst(pre, "file\"" + mid + FILENAME + b);
    assert CRLF + pre + NAME + ("file\"" + mid + FILENAME + b) == s;
    assert s[|a0|..|a0| + 11] == NAMED_FILE && s[|a0| + 11..|a|] == mid && s[|a|..|a| + 10] == FILENAME;
    forall j: nat | j < |a|
      ensures !OccursAt(s, FILENAME, j)
    {
      if j + 4 > |a0| {
        FilenameNotInMiddle(s, |a0|, mid, j);
      } else if j + 4 == |a0| && |pre| < 4 {
        Mismatch(s, FILENAME, j, 0);
      } else {
        assert j + 4 == |a0| ==> s[j..j + 4] == pre[|pre| - 4..];
        if OccursAt(s, FILENAME, j) {
          FilenameHasName(s, j);
          assert false;
        }
      }
    }
  }

  lemma FilenameIs(p: Part)
    requires HeadOk(p) && Wanted(p)
    ensures Param(CRLF + Head(p), FILENAME, 0) == p.filename
  {
    var a, f, b := CRLF + p.pre + NAMED_FILE + p.mid, p.filename.value, "\"" + p.post;
    FilenameFirst(p.pre, p.mid, f + b);
    assert a + FILENAME + (f + b) == a + FILENAME + f + b;
    ParamIs(a, FILENAME, f, b);
    HeadOfFile(p);
  }

  lemma HeadOfFile(p: Part)
    requires p.name == "file" && p.filename.Some?
    ensures CRLF + Head(p) == CRLF + p.pre + NAMED_FILE + p.mid + FILENAME + p.filename.value + ("\"" + p.post)
  {
    assert NAME + p.name + "\"" == NAMED_FILE;
    assert Head(p) == p.pre + NAMED_FILE + AfterName(p);
  }

  /** Within `filename=""` and what follows it, only the first position has the key. */
  lemma NoSecondKey(a: string, post: string)
    requires !Contains(post, FILENAME)
    ensures var s := a + FILENAME + ("\"" + post);
      forall j: nat :: |a| < j ==> !OccursAt(s, FILENAME, j)
  {
    var s := a + FILENAME + ("\"" + post);
    var k := FILENAME + "\"";
    assert s == a + k + post;
    assert s[|a| + 11..|s|] == post;
    forall j: nat | |a| < j
      ensures !OccursAt(s, FILENAME, j)
    {
      if j < |a| + 11 {
        assert s[j] == k[j - |a|] != 'f';
        Mismatch(s, FILENAME, j, 0);
      } else if j + 10 <= |s| {
        Inside(s, post, |a| + 11, FILENAME, j);
      }
    }
  }

  /** An empty quoted value is no match. */
  lemma EmptyValue(s: string, key: string, at: nat)
    requires OccursAt(s, key, at) && at + |key| < |s| && s[at + |key|] == '\"'
    ensures ParamAt(s, key, at).None?
  {
    var start := at + |key|;
    assert s[start..start + 1] == "\"";
    FindIs(s, "\"", start, start);
  }

  /** The key at its only occurrence, followed by an empty value. */
  lemma OnlyEmptyValue(s: string, key: string, at: nat)
    requires OccursAt(s, key, at) && at + |key| < |s| && s[at + |key|] == '\"'
    requires forall j: nat :: j != at ==> !OccursAt(s, key, j)
    ensures Param(s, key, 0).None?
  {
    ParamFrom(s, key, 0, at);
    EmptyValue(s, key, at);
    NoParamFrom(s, key, at + 1);
  }

  lemma EmptyFilenameIn(pre: string, mid: string, post: string)
    requires !Contains(pre, NAME) && !(|pre| >= 4 && pre[|pre| - 4..] == "file")
    requires !Contains(mid, FILENAME) && !Contains(post, FILENAME)
    ensures Param(CRLF + pre + NAMED_FILE + mid + FILENAME + ("\"" + post), FILENAME, 0).None?
  {
    var a, b := CRLF + pre + NAMED_FILE + mid, "\"" + post;
    var s := a + FILENAME + b;
    FilenameFirst(pre, mid, b);
    NoSecondKey(a, post);
    assert s[|a|..|a| + 10] == FILENAME && s[|a| + 10] == '\"';
    assert forall j: nat :: j != |a| ==> !OccursAt(s, FILENAME, j);
    OnlyEmptyValue(s, FILENAME, |a|);
  }

  /** The reader finds no filename in a part whose filename is empty. */
  lemma EmptyFilename(p: Part)
    requires HeadOk(p) && p.name == "file" && p.filename == Some("")
    ensures Param(CRLF + Head(p), FILENAME, 0).None?
  {
    HeadOfFile(p);
    var a, b := CRLF + p.pre + NAMED_FILE + p.mid + FILENAME, "\"" + p.post;
    assert a + "" + b == a + b;
    EmptyFilenameIn(p.pre, p.mid, p.post);
  }

  /** A filename parameter that comes before the name parameter is taken for the name. */
  lemma FilenameReadAsName(pre: string, filename: string, rest: string)
    requires NonEmptyUnquoted(filename) && !Contains(pre, NAME)
    ensures Param(CRLF + pre + FILENAME + filename + ("\"" + rest), NAME, 0) == Some(filename)
  {
    var a, b := pre + "file", "\"" + rest;
    forall j: nat | j <= |a|
      ensures !OccursAt(a, NAME, j)
    {
      if j + 6 <= |pre| {
        assert a[0..|pre|] == pre;
        Inside(a, pre, 0, NAME, j);
      } else if j + 6 <= |a| {
        assert a[j + 5] != '\"';
        Mismatch(a, NAME, j, 5);
      }
    }
    NameFirst(a, filename + b);
    assert CRLF + a + NAME + (filename + b) == CRLF + a + NAME + filename + b;
    ParamIs(CRLF + a, NAME, filename, b);
    assert "file" + NAME == FILENAME;
    assert CRLF + a + NAME + filename + b == CRLF + pre + FILENAME + filename + b;
  }

  lemma NoFilename(p: Part)
    requires HeadOk(p) && p.name == "file" && p.filename.None?
    ensures Param(CRLF + Head(p), FILENAME, 0).None?
  {
    var s := CRLF + Head(p);
    assert s[2..|s|] == Head(p);
    forall j: nat | j <= |s|
      ensures !OccursAt(s, FILENAME, j)
    {
      if j < 2 {
        Mismatch(s, FILENAME, j, 0);
      } else if j + 10 <= |s| {
        Inside(s, Head(p), 2, FILENAME, j);
      }
    }
    NoParamFrom(s, FILENAME, 0);
  }

  lemma NoBlankLineBefore(x: string, t: string)
    requires !Contains(x + CRLF, BLANK_LINE)
    ensures forall j: nat :: j < |x| ==> !OccursAt(x + BLANK_LINE + t, BLANK_LINE, j)
  {
    var s, y := x + BLANK_LINE + t, x + CRLF;
    assert s[0..|y|] == y;
    forall j: nat | j < |x|
      ensures !OccursAt(s, BLANK_LINE, j)
    {
      if j + 4 <= |y| {
        Inside(s, y, 0, BLANK_LINE, j);
      } else {
        assert s[|x|] == '\r';
        Mismatch(s, BLANK_LINE, j, 1);
      }
    }
  }

  /**
   The head ends at the first blank line; what follows is the content and its line break, up to the next blank line.
   */
  lemma {:induction false} HeadAndTail(p: Part)
    requires HeadOk(p)
    ensures Split(Segment(p), BLANK_LINE) == [CRLF + Head(p)] + Split(p.content + CRLF, BLANK_LINE)
  {
    var x, t := CRLF + Head(p), p.content + CRLF;
    var s := x + BLANK_LINE + t;
    NoBlankLineBefore(x, t);
    SplitAt(x, BLANK_LINE, t);
    assert s == Segment(p);
  }

  /** What the reader makes of one printed part. */
  lemma FileInSegment(p: Part)
    requires HeadOk(p)
    ensures !Wanted(p) ==> FileIn(Segment(p)).None?
    ensures Wanted(p) ==>
      var tail := Split(p.content + CRLF, BLANK_LINE)[0];
      FileIn(Segment(p)) == if tail == "" then None else Some(File(p.filename.value, DropTwo(tail)))
  {
    HeadAndTail(p);
    var pieces := Split(Segment(p), BLANK_LINE);
    assert pieces[0] == CRLF + Head(p) && pieces[0] != "";
    assert pieces[1] == Split(p.content + CRLF, BLANK_LINE)[0];
    assert Segment(p)[0] == '\r';
    NameIs(p);
    if p.name == "file" {
      if Wanted(p) {
        FilenameIs(p);
      } else if p.filename.Some? {
        EmptyFilename(p);
      } else {
        NoFilename(p);
      }
    }
  }

  /** The first piece is everything, or strictly less. */
  lemma FirstTail(content: string)
    ensures var tail := Split(content + CRLF, BLANK_LINE)[0];
      if ReadsBack(content) then tail == content + CRLF && DropTwo(tail) == content
      else tail == "" || |DropTwo(tail)| < |content|
  {
    var s := content + CRLF;
    if ReadsBack(content) {
      var i := Find(s, BLANK_LINE, 0);
      if i.Some? {
        assert OccursAt(s, BLANK_LINE, i.value);
        NotIn(s, BLANK_LINE, i.value);
        assert false;
      }
      assert DropTwo(s) == content;
    } else {
      var i: nat :| i <= |s| && OccursAt(s, BLANK_LINE, i);
      assert Find(s, BLANK_LINE, 0).Some?;
    }
  }

  // ---------------------------------------------------------------------
  // Round trip
  // ---------------------------------------------------------------------

  /** A content type names its boundary last, or other parameters follow it after a semicolon. */
  predicate Ends(rest: string) {
    rest == "" || rest[0] == ';'
  }

  /** From its start, a boundary goes to the next semicolon or to the end. */
  lemma BoundaryEnds(s: string, boundary: string, rest: string)
    requires ';' !in boundary && Ends(rest) && 30 + |boundary| + |rest| == |s|
    requires s[30..30 + |boundary|] == boundary && s[30 + |boundary|..] == rest
    ensures Find(s, ";", 30) == if rest == "" then None else Some(30 + |boundary|)
  {
    var end := 30 + |boundary|;
    forall j: nat | 30 <= j < end
      ensures !OccursAt(s, ";", j)
    {
      assert s[j] == s[30..end][j - 30] == boundary[j - 30];
      Mismatch(s, ";", j, 0);
    }
    if rest == "" {
      assert forall j: nat :: 30 <= j ==> !OccursAt(s, ";", j);
    } else {
      assert s[end] == s[end..][0] == ';' && s[end..end + 1] == ";";
      FindIs(s, ";", 30, end);
    }
  }

  lemma BoundaryAt(s: string, boundary: string, rest: string)
    requires boundary != "" && ';' !in boundary && Ends(rest) && 30 + |boundary| + |rest| == |s|
    requires s[21..30] == "boundary=" && s[30..30 + |boundary|] == boundary && s[30 + |boundary|..] == rest
    ensures Boundary(s, 21) == Some(boundary)
  {
    BoundaryEnds(s, boundary, rest);
    var first := s[30..30 + |boundary|][0];
    assert s[30] == first && first in boundary;
    var key := "boundary=";
    assert |key| == 9 && OccursAt(s, key, 21);
  }

  lemma BoundaryIs(boundary: string, rest: string)
    requires BoundaryOk(boundary) && Ends(rest)
    ensures Boundary(Header(boundary) + rest, 0) == Some(boundary)
  {
    var s := Header(boundary) + rest;
    var lead := "multipart/form-data; ";
    assert s == lead + "boundary=" + boundary + rest;
    assert forall j :: 0 <= j < 21 ==> s[j] == lead[j];
    BoundaryFrom(s, 0, 21);
    BoundaryAt(s, boundary, rest);
  }

  /** Without a content type, or without a boundary in it, nothing is read. */
  lemma {:induction false} NoBoundary(contentType: string, from: nat, body: string)
    requires !Contains(contentType, "boundary=")
    ensures Boundary(contentType, from).None?
    ensures from == 0 ==> Read(Some(contentType), body).None? && Read(None, body).None?
    decreases |contentType| - from
  {
    if from + |"boundary="| < |contentType| {
      assert !OccursAt(contentType, "boundary=", from);
      NoBoundary(contentType, from + 1, body);
    }
  }

  lemma {:induction false} BoundaryFrom(s: string, from: nat, at: nat)
    requires from <= at && at + 9 < |s| && forall j: nat :: from <= j < at ==> s[j] != 'b'
    ensures Boundary(s, from) == Boundary(s, at)
    decreases at - from
  {
    if from < at {
      Mismatch(s, "boundary=", from, 0);
      BoundaryFrom(s, from + 1, at);
    }
  }

  lemma {:induction false} FirstFileOf(ps: seq<Part>)
    requires forall p :: p in ps ==> HeadOk(p)
    requires Expected(ps).Some? ==> ReadsBack(Expected(ps).value.content)
    ensures FirstFile(Segments(ps) + ["--\r\n"]) == ExpectedFile(ps)
  {
    var parts := Segments(ps) + ["--\r\n"];
    if ps != [] {
      assert parts[1..] == Segments(ps[1..]) + ["--\r\n"];
      FileInSegment(ps[0]);
      FirstTail(ps[0].content);
      if !Wanted(ps[0]) {
        FirstFileOf(ps[1..]);
      }
    } else {
      assert parts == ["--\r\n"] && parts[1..] == [];
    }
  }

  lemma ReadPrinted(ps: seq<Part>, boundary: string, rest: string)
    requires BoundaryOk(boundary) && Ends(rest) && forall p :: p in ps ==> Undelimited(p, "--" + boundary)
    ensures Read(Some(Header(boundary) + rest), Print(ps, "--" + boundary)) == FirstFile(Segments(ps) + ["--\r\n"])
  {
    BoundaryIs(boundary, rest);
    var d := "--" + boundary;
    SplitPrinted(ps, d);
  }

  /** What the reader should make of a file part. */
  function AsFile(p: Part): Option<File> {
    if p.filename.None? then None else Some(File(p.filename.value, p.content))
  }

  function ExpectedFile(ps: seq<Part>): Option<File> {
    var p := Expected(ps);
    if p.None? then None else AsFile(p.value)
  }

  /** Every part has a proper head and does not contain the delimiter. */
  predicate Printable(ps: seq<Part>, d: string) {
    ps != [] ==> HeadOk(ps[0]) && Undelimited(ps[0], d) && Printable(ps[1..], d)
  }

  lemma {:induction false} EachPrintable(ps: seq<Part>, d: string)
    requires Printable(ps, d)
    ensures forall p :: p in ps ==> HeadOk(p) && Undelimited(p, d)
  {
    if ps != [] {
      EachPrintable(ps[1..], d);
    }
  }

  /**
   Round trip: a printed body reads back as exactly the first part named `file` that has a filename, byte for byte, and
   as nothing if there is none.
   */
  lemma {:induction false} RoundTrip(ps: seq<Part>, boundary: string, rest: string, contentType: string, body: string)
    requires BoundaryOk(boundary) && Ends(rest) && Printable(ps, "--" + boundary)
    requires Expected(ps).Some? ==> ReadsBack(Expected(ps).value.content)
    requires contentType == Header(boundary) + rest && body == Print(ps, "--" + boundary)
    ensures Read(Some(contentType), body) == ExpectedFile(ps)
  {
    EachPrintable(ps, "--" + boundary);
    ReadPrinted(ps, boundary, rest);
    FirstFileOf(ps);
  }

  function Files(ps: seq<Part>): seq<Part> {
    if ps == [] then [] else (if Wanted(ps[0]) then [ps[0]] else []) + Files(ps[1..])
  }

  lemma {:induction false} NoFiles(ps: seq<Part>)
    requires Files(ps) == []
    ensures forall j :: 0 <= j < |ps| ==> !Wanted(ps[j])
  {
    if ps != [] {
      NoFiles(ps[1..]);
      assert forall j :: 0 < j < |ps| ==> ps[j] == ps[1..][j - 1];
    }
  }

  lemma {:induction false} TheFile(ps: seq<Part>, file: Part) returns (k: nat)
    requires Files(ps) == [file]
    ensures k < |ps| && ps[k] == file && Wanted(file)
    ensures forall j :: 0 <= j < |ps| && j != k ==> !Wanted(ps[j])
  {
    if Wanted(ps[0]) {
      assert Files(ps) == [ps[0]] + Files(ps[1..]);
      assert Files(ps)[0] == ps[0] && Files(ps)[1..] == Files(ps[1..]);
      NoFiles(ps[1..]);
      k := 0;
    } else {
      assert Files(ps) == Files(ps[1..]);
      k := TheFile(ps[1..], file);
      k := k + 1;
    }
    assert forall j :: 0 < j < |ps| ==> ps[j] == ps[1..][j - 1];
  }

  lemma {:induction false} OnlyOneFile(ps: seq<Part>, k: nat)
    requires k < |ps| && Wanted(ps[k]) && forall p :: p in ps ==> HeadOk(p)
    requires forall j :: 0 <= j < |ps| && j != k ==> !Wanted(ps[j])
    ensures FirstFile(Segments(ps) + ["--\r\n"]) == FileIn(Segment(ps[k]))
  {
    var parts := Segments(ps) + ["--\r\n"];
    assert parts[1..] == Segments(ps[1..]) + ["--\r\n"];
    FileInSegment(ps[0]);
    if k > 0 {
      OnlyOneFile(ps[1..], k - 1);
    } else {
      assert forall p :: p in ps[1..] ==> !Wanted(p);
      FirstFileOf(ps[1..]);
    }
  }

  /**
   The exact limit of the reader: a body with one file reads back unchanged if and only if the file has no blank line
   and does not end in a line break.
   */
  lemma {:induction false} ReadsBackExactly(ps: seq<Part>, file: Part, boundary: string, rest: string)
    requires BoundaryOk(boundary) && Ends(rest) && Printable(ps, "--" + boundary) && Files(ps) == [file]
    ensures Read(Some(Header(boundary) + rest), Print(ps, "--" + boundary)) == AsFile(file) <==> ReadsBack(file.content)
  {
    EachPrintable(ps, "--" + boundary);
    ReadPrinted(ps, boundary, rest);
    var k := TheFile(ps, file);
    OnlyOneFile(ps, k);
    FileInSegment(file);
    FirstTail(file.content);
  }

  lemma PrefixOccurs(s: string, p: string, n: nat, j: nat)
    requires n <= |s| && OccursAt(s[..n], p, j)
    ensures OccursAt(s, p, j)
  {
    assert s[j..j + |p|] == s[..n][j..j + |p|];
  }

  /** A content that does not read back has a first blank line, be it the one that the closing line break completes. */
  lemma FirstBlankLine(content: string) returns (line: string, rest: string)
    requires !ReadsBack(content)
    ensures content + CRLF == line + BLANK_LINE + rest && ReadsBack(line)
  {
    var s := content + CRLF;
    var i := Find(s, BLANK_LINE, 0).value;
    line, rest := s[..i], s[i + 4..];
    assert s == s[..i] + s[i..i + 4] + s[i + 4..] && s[i..i + 4] == BLANK_LINE;
    assert s[..i + 2] == line + CRLF;
    if j: nat :| j <= |line + CRLF| && OccursAt(line + CRLF, BLANK_LINE, j) {
      PrefixOccurs(s, BLANK_LINE, i + 2, j);
      assert false;
    }
  }

  /**
   What the reader returns for a file that does not read back: what comes before its first blank line less two bytes, or
   nothing if that is empty. If `after` is empty, the content is `line` and a line break.
   */
  lemma {:induction false} CutAtBlankLine(ps: seq<Part>, file: Part, boundary: string, rest: string,
                                          line: string, after: string)
    requires BoundaryOk(boundary) && Ends(rest) && Printable(ps, "--" + boundary) && Files(ps) == [file]
    requires file.content + CRLF == line + BLANK_LINE + after && ReadsBack(line)
    ensures !ReadsBack(file.content)
    ensures Read(Some(Header(boundary) + rest), Print(ps, "--" + boundary)) ==
      if line == "" then None else AsFile(file.(content := DropTwo(line)))
  {
    EachPrintable(ps, "--" + boundary);
    ReadPrinted(ps, boundary, rest);
    var k := TheFile(ps, file);
    OnlyOneFile(ps, k);
    FileInSegment(file);
    PieceBefore(line, after);
  }

  lemma PieceBefore(line: string, rest: string)
    requires ReadsBack(line)
    ensures Split(line + BLANK_LINE + rest, BLANK_LINE)[0] == line
    ensures Contains(line + BLANK_LINE + rest, BLANK_LINE)
  {
    NoBlankLineBefore(line, rest);
    SplitAt(line, BLANK_LINE, rest);
    var s := line + BLANK_LINE + rest;
    assert s[|line|..|line| + 4] == BLANK_LINE;
    assert OccursAt(s, BLANK_LINE, |line|);
  }
}
