/** Exporting issues as CSV, and the reader of RFC 4180, section 2, that gets them
    back. */
module Csv {
  import opened Basics

  /** The characters that would make a spreadsheet read a field as a formula. */
  predicate StartsFormula(s: string) {
    s != "" && s[0] in {'=', '+', '-', '@', '\t', '\r'}
  }

  function Guard(s: string): string { if StartsFormula(s) then "'" + s else s }

  /** Every double quote doubled. */
  function Doubled(s: string): string {
    if s == "" then "" else (if s[0] == '"' then "\"\"" else [s[0]]) + Doubled(s[1..])
  }

  function Cell(s: string): string { "\"" + Doubled(Guard(s)) + "\"" }

  const CRLF := "\r\n"

  function Joined(parts: seq<string>, separator: string): string
    decreases |parts|
  {
    if parts == [] then ""
    else if |parts| == 1 then parts[0]
    else Joined(parts[..|parts| - 1], separator) + separator + parts[|parts| - 1]
  }

  function Cells(fields: seq<string>): seq<string> { seq(|fields|, i requires 0 <= i < |fields| => Cell(fields[i])) }

  function Line(fields: seq<string>): string { Joined(Cells(fields), ",") }

  function Lines(records: seq<seq<string>>): seq<string> {
    seq(|records|, i requires 0 <= i < |records| => Line(records[i]))
  }

  // ---- What is exported ------------------------------------------------------

  /** An issue as loaded for export: its relations and times may be missing. */
  datatype Exported = Exported(
    referenceNo: string, status: string, priority: string, platform: Option<string>, reporter: Option<string>,
    assignee: Option<string>, createdAt: Option<string>, updatedAt: Option<string>,
    resolvedAt: Option<string>, closedAt: Option<string>)

  const HEADERS: seq<string> := [
    "referenceNo", "status", "priority", "platform", "reporter", "assignee",
    "createdAt", "updatedAt", "resolvedAt", "closedAt"]

  function Fields(i: Exported): seq<string> {
    [i.referenceNo, i.status, i.priority, OrElse(i.platform, ""), OrElse(i.reporter, ""), OrElse(i.assignee, ""),
     OrElse(i.createdAt, ""), OrElse(i.updatedAt, ""), OrElse(i.resolvedAt, ""), OrElse(i.closedAt, "")]
  }

  /** The rows of the export: a header, then one record per issue. */
  function Records(issues: seq<Exported>): seq<seq<string>> {
    [HEADERS] + seq(|issues|, k requires 0 <= k < |issues| => Fields(issues[k]))
  }

  method ToCsv(issues: seq<Exported>) returns (csv: string)
    ensures csv == Joined(Lines(Records(issues)), CRLF)
  {
    hide Line, Fields, Joined;
    var lines := [Line(HEADERS)];
    var records := Records(issues);
    for k := 0 to |issues|
      invariant lines == Lines(records[..k + 1])
    {
      assert records[k + 1] == Fields(issues[k]);
      lines := lines + [Line(Fields(issues[k]))];
    }
    assert records[..|issues| + 1] == records;
    csv := Joined(lines, CRLF);
  }

  // ---- The reader -----------------------------------------------------------

  /** The rest of an escaped field (section 2, rules 5 to 7): its text and what
      follows the closing quote. */
  function ReadEscaped(s: string): (r: Option<(string, string)>)
    ensures r.Some? ==> |r.value.1| < |s|
    decreases |s|
  {
    if s == "" then None
    else if s[0] != '"' then
      match ReadEscaped(s[1..])
      case None => None
      case Some((text, rest)) => Some(([s[0]] + text, rest))
    else if |s| >= 2 && s[1] == '"' then
      match ReadEscaped(s[2..])
      case None => None
      case Some((text, rest)) => Some((['"'] + text, rest))
    else Some(("", s[1..]))
  }

  /** The text of an unescaped field: everything up to a comma, a line break or a
      quote (rule 5: quotes may not appear in it). */
  function ReadPlain(s: string): (r: (string, string))
    ensures |r.0| + |r.1| == |s|
    decreases |s|
  {
    if s == "" || s[0] in {',', '\r', '\n', '"'} then ("", s)
    else
      var (text, rest) := ReadPlain(s[1..]);
      ([s[0]] + text, rest)
  }

  function ReadField(s: string): (r: Option<(string, string)>)
    ensures r.Some? ==> |r.value.1| <= |s|
  {
    if s != "" && s[0] == '"' then ReadEscaped(s[1..]) else Some(ReadPlain(s))
  }

  /** Fields separated by commas, up to a line break or the end (rules 1, 2, 4):
      the record, and what follows its line break, if it has one. */
  function ReadRecord(s: string): (r: Option<(seq<string>, Option<string>)>)
    ensures r.Some? && r.value.1.Some? ==> |r.value.1.value| < |s|
    decreases |s|
  {
    match ReadField(s)
    case None => None
    case Some((field, rest)) =>
      if rest == "" then Some(([field], None))
      else if "\r\n" <= rest then Some(([field], Some(rest[2..])))
      else if rest[0] == ',' then
        match ReadRecord(rest[1..])
        case None => None
        case Some((fields, more)) => Some(([field] + fields, more))
      else None
  }

  /** The whole file; a line break after the last record is optional (rule 2). */
  function ReadFile(s: string): Option<seq<seq<string>>>
    decreases |s|
  {
    match ReadRecord(s)
    case None => None
    case Some((record, None)) => Some([record])
    case Some((record, Some(rest))) =>
      if rest == "" then Some([record])
      else match ReadFile(rest)
        case None => None
        case Some(records) => Some([record] + records)
  }

  // ---- Round trip ------------------------------------------------------------

  function Guarded(fields: seq<string>): seq<string> { seq(|fields|, i requires 0 <= i < |fields| => Guard(fields[i])) }

  /** A field written is a field read, whatever it contains and whatever follows. */
  lemma {:induction false} EscapedReadsBack(s: string, rest: string)
    requires rest == "" || rest[0] != '"'
    ensures ReadEscaped(Doubled(s) + "\"" + rest) == Some((s, rest))
    decreases |s|
  {
    var text := Doubled(s) + "\"" + rest;
    if s == "" {
      assert text == "\"" + rest;
    } else {
      var tail := Doubled(s[1..]) + "\"" + rest;
      EscapedReadsBack(s[1..], rest);
      assert text == (if s[0] == '"' then "\"\"" else [s[0]]) + tail;
      assert s == [s[0]] + s[1..];
      if s[0] == '"' {
        assert text[2..] == tail;
      } else {
        assert text[1..] == tail;
      }
    }
  }

  lemma CellReadsBack(s: string, rest: string)
    requires rest == "" || rest[0] != '"'
    ensures ReadField(Cell(s) + rest) == Some((Guard(s), rest))
  {
    var text := Cell(s) + rest;
    assert text[1..] == Doubled(Guard(s)) + "\"" + rest;
    EscapedReadsBack(Guard(s), rest);
  }

  /** What may follow a record: nothing, or a line break and more. */
  function After(rest: Option<string>): string {
    match rest
    case None => ""
    case Some(more) => CRLF + more
  }

  lemma {:induction false} JoinedFromFront(parts: seq<string>, separator: string)
    requires |parts| >= 2
    ensures Joined(parts, separator) == parts[0] + separator + Joined(parts[1..], separator)
    decreases |parts|
  {
    var front := parts[..|parts| - 1];
    if |parts| == 2 {
      assert Joined(front, separator) == parts[0];
      assert Joined(parts[1..], separator) == parts[1];
    } else {
      JoinedFromFront(front, separator);
      assert front[1..] == parts[1..][..|parts| - 2];
      assert Joined(parts[1..], separator) == Joined(front[1..], separator) + separator + parts[|parts| - 1];
    }
  }

  lemma LineFromFront(fields: seq<string>)
    requires fields != []
    ensures Line(fields) == if |fields| == 1 then Cell(fields[0]) else Cell(fields[0]) + "," + Line(fields[1..])
  {
    hide Cell;
    if |fields| == 1 {
      assert Cells(fields) == [Cell(fields[0])];
    } else {
      assert Cells(fields)[1..] == Cells(fields[1..]);
      JoinedFromFront(Cells(fields), ",");
    }
  }

  /** A field with a comma after it is one more field of its record. */
  lemma ReadOneMore(s: string, field: string, tail: string, fields: seq<string>, rest: Option<string>)
    requires ReadField(s) == Some((field, "," + tail)) && ReadRecord(tail) == Some((fields, rest))
    ensures ReadRecord(s) == Some(([field] + fields, rest))
  {
  }

  lemma ReadLast(s: string, field: string, rest: Option<string>)
    requires ReadField(s) == Some((field, After(rest)))
    ensures ReadRecord(s) == Some(([field], rest))
  {
  }

  lemma {:induction false} LineReadsBack(fields: seq<string>, rest: Option<string>)
    requires fields != []
    ensures ReadRecord(Line(fields) + After(rest)) == Some((Guarded(fields), rest))
    decreases |fields|
  {
    hide Line, Cell, Guard, ReadRecord, ReadField;
    LineFromFront(fields);
    if |fields| == 1 {
      CellReadsBack(fields[0], After(rest));
      ReadLast(Line(fields) + After(rest), Guard(fields[0]), rest);
      assert Guarded(fields) == [Guard(fields[0])];
    } else {
      var more := fields[1..];
      var tail := Line(more) + After(rest);
      LineReadsBack(more, rest);
      CellReadsBack(fields[0], "," + tail);
      assert Line(fields) + After(rest) == Cell(fields[0]) + ("," + tail);
      ReadOneMore(Line(fields) + After(rest), Guard(fields[0]), tail, Guarded(more), rest);
      assert Guarded(fields) == [Guard(fields[0])] + Guarded(more);
    }
  }

  function GuardedRecords(records: seq<seq<string>>): seq<seq<string>> {
    seq(|records|, i requires 0 <= i < |records| => Guarded(records[i]))
  }

  lemma LineNotBlank(fields: seq<string>)
    requires fields != []
    ensures Line(fields) != ""
  {
  }

  lemma LinesFromFront(records: seq<seq<string>>)
    requires records != []
    ensures Joined(Lines(records), CRLF)
            == Line(records[0]) + if |records| == 1 then "" else CRLF + Joined(Lines(records[1..]), CRLF)
  {
    hide Line;
    if |records| == 1 {
      assert Lines(records) == [Line(records[0])];
      assert Line(records[0]) + "" == Line(records[0]);
    } else {
      assert Lines(records)[1..] == Lines(records[1..]);
      JoinedFromFront(Lines(records), CRLF);
      hide Joined;
      var more := Joined(Lines(records[1..]), CRLF);
      assert Line(records[0]) + CRLF + more == Line(records[0]) + (CRLF + more);
    }
  }

  lemma {:induction false} LinesReadBack(records: seq<seq<string>>)
    requires records != [] && forall k :: 0 <= k < |records| ==> records[k] != []
    ensures Joined(Lines(records), CRLF) != ""
    ensures ReadFile(Joined(Lines(records), CRLF)) == Some(GuardedRecords(records))
    decreases |records|
  {
    hide Line, Joined, ReadRecord, Guarded;
    var text := Joined(Lines(records), CRLF);
    LineNotBlank(records[0]);
    LinesFromFront(records);
    if |records| == 1 {
      LineReadsBack(records[0], None);
      assert GuardedRecords(records) == [Guarded(records[0])];
    } else {
      var more := records[1..];
      LinesReadBack(more);
      LineReadsBack(records[0], Some(Joined(Lines(more), CRLF)));
      assert GuardedRecords(records) == [Guarded(records[0])] + GuardedRecords(more);
    }
  }

  lemma HeadersUnguarded()
    ensures Guarded(HEADERS) == HEADERS
  {
  }

  lemma RecordsShape(issues: seq<Exported>)
    ensures |Records(issues)| == |issues| + 1 && Records(issues)[0] == HEADERS
    ensures forall k :: 0 <= k < |issues| ==> Records(issues)[k + 1] == Fields(issues[k])
    ensures forall k :: 0 <= k <= |issues| ==> |Records(issues)[k]| == 10
  {
  }

  /** Reading an export back gives the header and one record per issue, in order,
      each of ten fields, every field its guarded value, and none of them one that
      a spreadsheet would run. */
  lemma ExportReadsBack(issues: seq<Exported>)
    ensures var read := ReadFile(Joined(Lines(Records(issues)), CRLF));
            && read.Some? && |read.value| == |issues| + 1 && read.value[0] == HEADERS
            && (forall k :: 0 <= k < |issues| ==> read.value[k + 1] == Guarded(Fields(issues[k])))
            && (forall k :: 0 <= k <= |issues| ==> |read.value[k]| == 10)
            && (forall k, j :: 0 <= k <= |issues| && 0 <= j < 10 ==>
                  read.value[k][j] == "" || read.value[k][j][0] !in {'=', '+', '-', '@', '\t', '\r'})
  {
    var records := Records(issues);
    RecordsShape(issues);
    HeadersUnguarded();
    hide Records, Fields, Joined, Lines, ReadFile, Guard, StartsFormula;
    LinesReadBack(records);
    var read := GuardedRecords(records);
    forall k, j | 0 <= k <= |issues| && 0 <= j < 10
      ensures read[k][j] == "" || read[k][j][0] !in {'=', '+', '-', '@', '\t', '\r'}
    {
      GuardDisarms(records[k][j]);
    }
  }

  /** What the header says of a column. */
  function Named(i: Exported, header: string): string {
    match header
    case "referenceNo" => i.referenceNo
    case "status" => i.status
    case "priority" => i.priority
    case "platform" => OrElse(i.platform, "")
    case "reporter" => OrElse(i.reporter, "")
    case "assignee" => OrElse(i.assignee, "")
    case "createdAt" => OrElse(i.createdAt, "")
    case "updatedAt" => OrElse(i.updatedAt, "")
    case "resolvedAt" => OrElse(i.resolvedAt, "")
    case "closedAt" => OrElse(i.closedAt, "")
    case _ => ""
  }

  lemma FieldsAreNamed(i: Exported, j: nat)
    requires j < 10
    ensures Fields(i)[j] == Named(i, HEADERS[j])
  {
    HeadersDiffer();
    hide Named;
    NamedEach(i);
  }

  lemma HeadersDiffer()
    ensures HEADERS == ["referenceNo", "status", "priority", "platform", "reporter", "assignee",
                        "createdAt", "updatedAt", "resolvedAt", "closedAt"]
  {
  }

  lemma NamedEach(i: Exported)
    ensures Named(i, "referenceNo") == i.referenceNo && Named(i, "status") == i.status
    ensures Named(i, "priority") == i.priority && Named(i, "platform") == OrElse(i.platform, "")
    ensures Named(i, "reporter") == OrElse(i.reporter, "") && Named(i, "assignee") == OrElse(i.assignee, "")
    ensures Named(i, "createdAt") == OrElse(i.createdAt, "") && Named(i, "updatedAt") == OrElse(i.updatedAt, "")
    ensures Named(i, "resolvedAt") == OrElse(i.resolvedAt, "") && Named(i, "closedAt") == OrElse(i.closedAt, "")
  {
  }

  /** Read back by its header, every column of every record is the field of that name
      of its issue, with a quote before it if a spreadsheet would run it. */
  lemma ColumnsAreNamed(issues: seq<Exported>, k: nat, j: nat)
    requires k < |issues| && j < 10
    ensures var read := ReadFile(Joined(Lines(Records(issues)), CRLF));
            && read.Some? && |read.value| == |issues| + 1
            && read.value[0] == ["referenceNo", "status", "priority", "platform", "reporter", "assignee",
                                 "createdAt", "updatedAt", "resolvedAt", "closedAt"]
            && |read.value[k + 1]| == 10
            && var value, field := read.value[k + 1][j], Named(issues[k], read.value[0][j]);
               value == if field != "" && field[0] in {'=', '+', '-', '@', '\t', '\r'} then "'" + field else field
  {
    ExportReadsBack(issues);
    GuardWritten(Named(issues[k], HEADERS[j]));
    FieldsAreNamed(issues[k], j);
    HeadersDiffer();
    hide ReadFile, Joined, Lines, Records, Fields, Named, Guard;
  }

  lemma GuardDisarms(s: string)
    ensures Guard(s) == "" || Guard(s)[0] !in {'=', '+', '-', '@', '\t', '\r'}
  {
  }

  lemma GuardWritten(s: string)
    ensures Guard(s) == if s != "" && s[0] in {'=', '+', '-', '@', '\t', '\r'} then "'" + s else s
  {
  }

  /** The guard is all that an export loses: two fields come out the same exactly
      when they are the same, or one is the other with a quote put before a
      formula. */
  lemma GuardCollides(s: string, t: string)
    ensures Guard(s) == Guard(t) <==> s == t || (StartsFormula(s) && t == "'" + s) || (StartsFormula(t) && s == "'" + t)
  {
    assert StartsFormula(s) ==> ("'" + s)[1..] == s;
    assert StartsFormula(t) ==> ("'" + t)[1..] == t;
  }
}
