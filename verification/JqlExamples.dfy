/** The example queries of the filter language's documentation, read as it says. */
module JqlExamples {
  import opened Basics
  import opened JqlSyntax
  import opened JqlTokens
  import opened JqlGrammar
  import opened JqlPrinting

  // ---- What the printer writes -----------------------------------------------

  lemma {:induction false} RenderJoin(a: seq<Piece>, b: seq<Piece>)
    ensures Render(a + b) == Render(a) + Render(b)
    decreases |a|
  {
    hide Spelling;
    if a == [] {
      assert a + b == b;
    } else {
      assert (a + b)[1..] == a[1..] + b;
      RenderJoin(a[1..], b);
    }
  }

  lemma RenderOne(p: Piece)
    ensures Render([p]) == p.gap + Spelling(p.token)
  {
    assert [p][1..] == [];
    assert Render([]) == "";
  }

  /** Values bare where they can be, everything else as the documentation writes it. */
  const PLAIN := Style(true, false, false)

  function ValueText(v: string): string { if Bare(v) then v else Quote(v) }

  function ListText(vs: seq<string>): string
    requires vs != []
  {
    if |vs| == 1 then ValueText(vs[0]) + ")" else ValueText(vs[0]) + ", " + ListText(vs[1..])
  }

  lemma RenderTwo(p: Piece, q: Piece)
    ensures Render([p, q]) == p.gap + Spelling(p.token) + q.gap + Spelling(q.token)
  {
    hide Spelling;
    assert [p, q] == [p] + [q];
    RenderJoin([p], [q]);
    RenderOne(p);
    RenderOne(q);
    hide Render;
  }

  lemma ValuePrints(v: string, lead: string, sign: Token)
    requires sign in {RParen, Comma}
    ensures Render([Piece(lead, ValueToken(PLAIN, v)), Piece("", sign)]) == lead + ValueText(v) + Spelling(sign)
  {
    hide Bare, Render;
    RenderTwo(Piece(lead, ValueToken(PLAIN, v)), Piece("", sign));
  }

  lemma {:induction false} ListPrints(vs: seq<string>, lead: string)
    requires vs != []
    ensures Render(ListPieces(PLAIN, vs, lead)) == lead + ListText(vs)
    decreases |vs|
  {
    hide Render, ValueToken, ValueText;
    var sign := if |vs| == 1 then RParen else Comma;
    ValuePrints(vs[0], lead, sign);
    if |vs| > 1 {
      RenderJoin([Piece(lead, ValueToken(PLAIN, vs[0])), Piece("", sign)], ListPieces(PLAIN, vs[1..], " "));
      ListPrints(vs[1..], " ");
    }
  }

  function ClauseText(f: Filter): string
    requires f.values != []
  {
    FieldName(f.field) + " " + OpText(f.op) + " "
    + if f.op == In then "(" + ListText(f.values) else ValueText(f.values[0])
  }

  lemma HeadPrints(f: Filter, lead: string)
    ensures Render(Head(PLAIN, f, lead)) == lead + FieldName(f.field) + " " + OpText(f.op)
  {
    var head := Head(PLAIN, f, lead);
    assert head == [head[0], head[1]];
    RenderTwo(head[0], head[1]);
    hide Render;
  }

  lemma ValuesPrint(f: Filter)
    requires f.values != []
    ensures Render(ValuePieces(PLAIN, f)) ==
            " " + if f.op == In then "(" + ListText(f.values) else ValueText(f.values[0])
  {
    hide Bare;
    if f.op == In {
      var open := Piece(" ", LParen);
      RenderJoin([open], ListPieces(PLAIN, f.values, ""));
      RenderOne(open);
      ListPrints(f.values, "");
    } else {
      RenderOne(Piece(" ", ValueToken(PLAIN, f.values[0])));
    }
    hide Render;
  }

  lemma ClausePrints(f: Filter, lead: string)
    requires f.values != []
    ensures Render(ClausePieces(PLAIN, f, lead)) == lead + ClauseText(f)
  {
    hide Render, Head, ValuePieces, ListText, ValueText;
    RenderJoin(Head(PLAIN, f, lead), ValuePieces(PLAIN, f));
    HeadPrints(f, lead);
    ValuesPrint(f);
  }

  function QueryText(fs: seq<Filter>): string
    requires fs != [] && forall k :: 0 <= k < |fs| ==> fs[k].values != []
  {
    if |fs| == 1 then ClauseText(fs[0]) else ClauseText(fs[0]) + " AND " + QueryText(fs[1..])
  }

  lemma AndPrints(fs: seq<Filter>, lead: string)
    requires |fs| > 1 && forall k :: 0 <= k < |fs| ==> fs[k].values != []
    ensures Render(QueryPieces(PLAIN, fs, lead)) ==
            Render(ClausePieces(PLAIN, fs[0], lead)) + (" AND" + Render(QueryPieces(PLAIN, fs[1..], " ")))
  {
    hide Render, ClausePieces;
    var clause, and := ClausePieces(PLAIN, fs[0], lead), Piece(" ", Word("AND"));
    var rest := QueryPieces(PLAIN, fs[1..], " ");
    assert QueryPieces(PLAIN, fs, lead) == clause + ([and] + rest);
    AndJoins(clause, and, rest);
  }

  lemma AndJoins(clause: seq<Piece>, and: Piece, rest: seq<Piece>)
    requires and == Piece(" ", Word("AND"))
    ensures Render(clause + ([and] + rest)) == Render(clause) + (" AND" + Render(rest))
  {
    hide Render;
    RenderJoin(clause, [and] + rest);
    RenderJoin([and], rest);
    RenderOne(and);
  }

  /** What the printer writes in the plain style, clause by clause. */
  lemma {:induction false} QueryPrints(fs: seq<Filter>, lead: string)
    requires fs != [] && forall k :: 0 <= k < |fs| ==> fs[k].values != []
    ensures Render(QueryPieces(PLAIN, fs, lead)) == lead + QueryText(fs)
    decreases |fs|
  {
    hide ClauseText, ClausePieces, Render;
    ClausePrints(fs[0], lead);
    if |fs| > 1 {
      AndPrints(fs, lead);
      QueryPrints(fs[1..], " ");
      hide QueryPieces;
    }
  }

  // ---- The documented examples -------------------------------------------------

  lemma PlainPrint(fs: seq<Filter>)
    requires fs != [] && forall k :: 0 <= k < |fs| ==> fs[k].values != []
    ensures Print(PLAIN, fs) == QueryText(fs)
  {
    hide Render, QueryPieces, QueryText;
    QueryPrints(fs, "");
    assert "" + QueryText(fs) == QueryText(fs);
  }

  /** The plain print of well-formed filters parses to them. */
  lemma PlainTextParses(fs: seq<Filter>, isDate: string -> bool)
    requires fs != [] && AllWellFormed(fs, isDate)
    ensures forall k :: 0 <= k < |fs| ==> fs[k].values != []
    ensures Parse(QueryText(fs), isDate) == Ok(fs)
  {
    hide Parse, Print, QueryText, Canonical;
    assert forall k :: 0 <= k < |fs| ==> WellFormed(fs[k], isDate);
    PlainPrint(fs);
    ParsePrint(PLAIN, fs, isDate);
  }

  /** `text` is how the clause reads. */
  lemma OneValue(f: Filter, name: string, sign: string, text: string)
    requires f.values != [] && f.op != In && Bare(f.values[0])
    requires FieldName(f.field) == name && OpText(f.op) == sign && text == name + " " + sign + " " + f.values[0]
    ensures ClauseText(f) == text
  {
    hide Bare, FieldName, OpText;
  }

  lemma TwoInList(f: Filter, name: string, text: string)
    requires |f.values| == 2 && f.op == In && Bare(f.values[0]) && Bare(f.values[1])
    requires FieldName(f.field) == name && text == name + " IN (" + f.values[0] + ", " + f.values[1] + ")"
    ensures ClauseText(f) == text
  {
    hide Bare, FieldName;
    assert ListText(f.values[1..]) == f.values[1] + ")";
  }

  lemma ThreeClauses(fs: seq<Filter>)
    requires |fs| == 3 && forall k :: 0 <= k < |fs| ==> fs[k].values != []
    ensures QueryText(fs) == ClauseText(fs[0]) + " AND " + ClauseText(fs[1]) + " AND " + ClauseText(fs[2])
  {
    hide ClauseText;
    assert QueryText(fs[1..]) == ClauseText(fs[1]) + " AND " + QueryText(fs[2..]) by {
      assert fs[1..][1..] == fs[2..];
    }
  }

  lemma ThreeClausesParse(a: Filter, b: Filter, c: Filter, isDate: string -> bool)
    requires WellFormed(a, isDate) && WellFormed(b, isDate) && WellFormed(c, isDate)
    ensures Parse(ClauseText(a) + " AND " + ClauseText(b) + " AND " + ClauseText(c), isDate) == Ok([a, b, c])
  {
    PlainTextParses([a, b, c], isDate);
    hide Parse, ClauseText, QueryText;
    ThreeClauses([a, b, c]);
  }

  /** The first query of the documentation: an IN list and a sentinel. */
  lemma FirstExample(isDate: string -> bool)
    ensures Parse("status = NEW" + " AND " + "priority IN (HIGH, CRITICAL)" + " AND " + "assignee = me", isDate) ==
            Ok([Filter(Status, Eq, ["NEW"]), Filter(Priority, In, ["HIGH", "CRITICAL"]), Filter(Assignee, Eq, ["me"])])
  {
    hide Parse;
    FirstFine(isDate);
    StatusText();
    PriorityText();
    AssigneeText();
    hide ClauseText, WellFormed;
    ThreeClausesParse(Filter(Status, Eq, ["NEW"]), Filter(Priority, In, ["HIGH", "CRITICAL"]),
                      Filter(Assignee, Eq, ["me"]), isDate);
  }

  lemma StatusText()
    ensures ClauseText(Filter(Status, Eq, ["NEW"])) == "status = NEW"
  {
    LettersBare("NEW");
    hide ClauseText, Bare, AllLetters;
    OneValue(Filter(Status, Eq, ["NEW"]), "status", "=", "status = NEW");
  }

  lemma AssigneeText()
    ensures ClauseText(Filter(Assignee, Eq, ["me"])) == "assignee = me"
  {
    LettersBare("me");
    hide ClauseText, Bare, AllLetters;
    OneValue(Filter(Assignee, Eq, ["me"]), "assignee", "=", "assignee = me");
  }

  lemma PriorityText()
    ensures ClauseText(Filter(Priority, In, ["HIGH", "CRITICAL"])) == "priority IN (HIGH, CRITICAL)"
  {
    LettersBare("HIGH");
    LettersBare("CRITICAL");
    PriorityLiteral();
    hide ClauseText, Bare, AllLetters;
    assert FieldName(Priority) == "priority";
    hide FieldName;
    TwoInList(Filter(Priority, In, ["HIGH", "CRITICAL"]), "priority", "priority IN (HIGH, CRITICAL)");
  }

  lemma PriorityLiteral()
    ensures "priority" + " IN (" + "HIGH" + ", " + "CRITICAL" + ")" == "priority IN (HIGH, CRITICAL)"
  {
  }

  lemma FirstFine(isDate: string -> bool)
    ensures WellFormed(Filter(Status, Eq, ["NEW"]), isDate) && WellFormed(Filter(Assignee, Eq, ["me"]), isDate)
    ensures WellFormed(Filter(Priority, In, ["HIGH", "CRITICAL"]), isDate)
  {
    assert Upper("NEW") == "NEW" && Upper("HIGH") == "HIGH" && Upper("CRITICAL") == "CRITICAL";
    assert STATUS_NAMES[0] == "NEW" && PRIORITY_NAMES[2] == "HIGH" && PRIORITY_NAMES[3] == "CRITICAL";
  }

  /** The second: a hyphen in a word, and a date, where the runtime reads it as one. */
  lemma SecondExample(isDate: string -> bool)
    requires isDate("2026-07-01")
    ensures Parse("platform != portal-b" + " AND " + "label = bug" + " AND " + "created >= 2026-07-01", isDate) ==
            Ok([Filter(Platform, Neq, ["portal-b"]), Filter(Label, Eq, ["bug"]), Filter(Created, Ge, ["2026-07-01"])])
  {
    hide Parse;
    SecondFine(isDate);
    PlatformText();
    LabelText();
    CreatedText();
    hide ClauseText, WellFormed;
    ThreeClausesParse(Filter(Platform, Neq, ["portal-b"]), Filter(Label, Eq, ["bug"]),
                      Filter(Created, Ge, ["2026-07-01"]), isDate);
  }

  lemma HyphensAreBare()
    ensures Bare("portal-b") && Bare("2026-07-01")
  {
    forall c: char | c == '-' || IsDigit(c) || IsLetter(c) ensures !Separates(c) { SpacesAre(c); }
    hide Separates;
    assert forall i :: 0 <= i < 8 ==> "portal-b"[i] == '-' || IsLetter("portal-b"[i]);
    assert forall i :: 0 <= i < 10 ==> "2026-07-01"[i] == '-' || IsDigit("2026-07-01"[i]);
    assert "portal-b"[0] == 'p' && "2026-07-01"[0] == '2';
  }

  lemma PlatformText()
    ensures ClauseText(Filter(Platform, Neq, ["portal-b"])) == "platform != portal-b"
  {
    HyphensAreBare();
    hide ClauseText, Bare, AllLetters;
    OneValue(Filter(Platform, Neq, ["portal-b"]), "platform", "!=", "platform != portal-b");
  }

  lemma LabelText()
    ensures ClauseText(Filter(Label, Eq, ["bug"])) == "label = bug"
  {
    LettersBare("bug");
    hide ClauseText, Bare, AllLetters;
    OneValue(Filter(Label, Eq, ["bug"]), "label", "=", "label = bug");
  }

  lemma CreatedText()
    ensures ClauseText(Filter(Created, Ge, ["2026-07-01"])) == "created >= 2026-07-01"
  {
    HyphensAreBare();
    hide ClauseText, Bare, AllLetters;
    OneValue(Filter(Created, Ge, ["2026-07-01"]), "created", ">=", "created >= 2026-07-01");
  }

  lemma UpdatedText()
    ensures ClauseText(Filter(Updated, Le, ["2026-07-01"])) == "updated <= 2026-07-01"
  {
    HyphensAreBare();
    hide ClauseText, Bare, AllLetters;
    OneValue(Filter(Updated, Le, ["2026-07-01"]), "updated", "<=", "updated <= 2026-07-01");
  }

  lemma SecondFine(isDate: string -> bool)
    requires isDate("2026-07-01")
    ensures WellFormed(Filter(Platform, Neq, ["portal-b"]), isDate) && WellFormed(Filter(Label, Eq, ["bug"]), isDate)
    ensures WellFormed(Filter(Created, Ge, ["2026-07-01"]), isDate)
    ensures WellFormed(Filter(Updated, Le, ["2026-07-01"]), isDate)
  {
    HyphensAreBare();
    hide Bare;
    assert "2026-07-01"[4] == '-' && "2026-07-01"[7] == '-';
  }

  /** The third: a quoted phrase, and a pattern on the reporter. */
  lemma ThirdExample(isDate: string -> bool)
    ensures Parse("text ~ \"login error\"" + " AND " + "reporter ~ jane", isDate) ==
            Ok([Filter(Text, Tilde, ["login error"]), Filter(Reporter, Tilde, ["jane"])])
  {
    var text, reporter := Filter(Text, Tilde, ["login error"]), Filter(Reporter, Tilde, ["jane"]);
    assert WellFormed(text, isDate) && WellFormed(reporter, isDate);
    TextText();
    ReporterText();
    hide Parse, ClauseText, WellFormed;
    PlainTextParses([text, reporter], isDate);
    TwoClauses([text, reporter]);
  }

  lemma TwoClauses(fs: seq<Filter>)
    requires |fs| == 2 && forall k :: 0 <= k < |fs| ==> fs[k].values != []
    ensures QueryText(fs) == ClauseText(fs[0]) + " AND " + ClauseText(fs[1])
  {
    hide ClauseText;
  }

  lemma ReporterText()
    ensures ClauseText(Filter(Reporter, Tilde, ["jane"])) == "reporter ~ jane"
  {
    LettersBare("jane");
    hide ClauseText, Bare, AllLetters;
    OneValue(Filter(Reporter, Tilde, ["jane"]), "reporter", "~", "reporter ~ jane");
  }

  lemma TextText()
    ensures ClauseText(Filter(Text, Tilde, ["login error"])) == "text ~ \"login error\""
  {
    assert "login error"[5] == ' ';
    assert Separates("login error"[5]) by { SpacesAre(' '); }
    assert !Bare("login error");
    assert FieldName(Text) == "text" && OpText(Tilde) == "~";
    hide Bare, FieldName, OpText, Separates;
  }

  /** The remaining field. */
  lemma UpdatedExample(isDate: string -> bool)
    requires isDate("2026-07-01")
    ensures Parse("updated <= 2026-07-01", isDate) == Ok([Filter(Updated, Le, ["2026-07-01"])])
  {
    hide Parse;
    SecondFine(isDate);
    UpdatedText();
    hide ClauseText, WellFormed;
    PlainTextParses([Filter(Updated, Le, ["2026-07-01"])], isDate);
  }
}
