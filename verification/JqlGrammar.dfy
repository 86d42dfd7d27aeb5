/** Theorems about the filter language: the parser accepts exactly the sentences
    of the grammar, and accepted filters obey the documented table of fields. */
module JqlGrammar {
  import opened Basics
  import opened JqlSyntax
  import opened JqlTokens
  import Lifecycle

  // ---- The parser accepts exactly the grammar ------------------------------

  lemma {:induction false} ListComplete(ts: seq<Token>, i: nat, f: Field, vs: seq<string>, isDate: string -> bool)
    requires ListAt(ts, i, f, vs, isDate)
    ensures ListFrom(ts, i, f, isDate) == Ok((vs, i + 2 * |vs|))
    decreases |vs|
  {
    if |vs| > 1 {
      ListComplete(ts, i + 2, f, vs[1..], isDate);
      assert [vs[0]] + vs[1..] == vs;
    } else {
      assert vs == [vs[0]];
    }
  }

  lemma {:induction false} ListSound(ts: seq<Token>, i: nat, f: Field, isDate: string -> bool)
    requires ListFrom(ts, i, f, isDate).Ok?
    ensures var (vs, j) := ListFrom(ts, i, f, isDate).value;
            ListAt(ts, i, f, vs, isDate) && j == i + 2 * |vs|
    decreases |ts| - i
  {
    var (vs, j) := ListFrom(ts, i, f, isDate).value;
    if TokenAt(ts, i + 1) == Some(Comma) {
      ListSound(ts, i + 2, f, isDate);
      var (rest, _) := ListFrom(ts, i + 2, f, isDate).value;
      assert vs[1..] == rest;
    }
  }

  lemma NamesDistinct(f: Field, g: Field)
    requires FieldName(f) == FieldName(g)
    ensures f == g
  {
  }

  lemma {:induction false} LookupFinds(fs: seq<Field>, f: Field)
    requires f in fs
    ensures LookupIn(fs, FieldName(f)) == Some(f)
  {
    if FieldName(fs[0]) == FieldName(f) {
      NamesDistinct(fs[0], f);
    } else {
      LookupFinds(fs[1..], f);
    }
  }

  lemma LookupExact(name: string, f: Field)
    ensures LookupField(name) == Some(f) <==> FieldName(f) == name
  {
    assert f in ALL_FIELDS;
    LookupFinds(ALL_FIELDS, f);
  }

  lemma ClauseExact(ts: seq<Token>, i: nat, f: Filter, isDate: string -> bool)
    ensures ClauseAt(ts, i, f, isDate) <==> ClauseFrom(ts, i, isDate) == Ok((f, i + ClauseLength(f)))
  {
    if ClauseAt(ts, i, f, isDate) {
      LookupExact(Lower(ts[i].text), f.field);
      if f.op == In {
        ListComplete(ts, i + 3, f.field, f.values, isDate);
      } else {
        assert f.values == [f.values[0]];
      }
    }
    if ClauseFrom(ts, i, isDate) == Ok((f, i + ClauseLength(f))) && f.op == In {
      ListSound(ts, i + 3, f.field, isDate);
    }
  }

  lemma ClauseLengthExact(ts: seq<Token>, i: nat, isDate: string -> bool)
    requires ClauseFrom(ts, i, isDate).Ok?
    ensures var (f, j) := ClauseFrom(ts, i, isDate).value; j == i + ClauseLength(f)
  {
    var (f, j) := ClauseFrom(ts, i, isDate).value;
    if f.op == In {
      ListSound(ts, i + 3, f.field, isDate);
    }
  }

  lemma ClausesStep(ts: seq<Token>, i: nat, f: Filter, j: nat, isDate: string -> bool)
    requires ClauseFrom(ts, i, isDate) == Ok((f, j))
    ensures j == |ts| ==> ClausesFrom(ts, i, isDate) == Ok([f])
    ensures j + 1 < |ts| && IsKeyword(ts[j], "and")
        ==> ClausesFrom(ts, i, isDate) == Prepend([f], ClausesFrom(ts, j + 1, isDate))
  {
  }

  lemma DerivesStep(ts: seq<Token>, i: nat, fs: seq<Filter>, isDate: string -> bool)
    requires Derives(ts, i, fs, isDate)
    ensures ClauseFrom(ts, i, isDate) == Ok((fs[0], i + ClauseLength(fs[0])))
    ensures var j := i + ClauseLength(fs[0]);
            if |fs| == 1 then j == |ts|
            else j + 1 < |ts| && IsKeyword(ts[j], "and") && Derives(ts, j + 1, fs[1..], isDate)
  {
    ClauseExact(ts, i, fs[0], isDate);
  }

  lemma {:induction false} ParseComplete(ts: seq<Token>, i: nat, fs: seq<Filter>, isDate: string -> bool)
    requires Derives(ts, i, fs, isDate)
    ensures ClausesFrom(ts, i, isDate) == Ok(fs)
    decreases |fs|
  {
    hide ClauseFrom, ClauseAt, IsKeyword;
    DerivesStep(ts, i, fs, isDate);
    var j := i + ClauseLength(fs[0]);
    ClausesStep(ts, i, fs[0], j, isDate);
    if |fs| == 1 {
      assert fs == [fs[0]];
    } else {
      ParseComplete(ts, j + 1, fs[1..], isDate);
      assert fs == [fs[0]] + fs[1..];
    }
  }

  lemma AcceptedSplits(ts: seq<Token>, i: nat, isDate: string -> bool)
    requires ClausesFrom(ts, i, isDate).Ok?
    ensures ClauseFrom(ts, i, isDate).Ok?
    ensures var (f, j) := ClauseFrom(ts, i, isDate).value;
            if j == |ts| then ClausesFrom(ts, i, isDate) == Ok([f])
            else && j + 1 < |ts| && IsKeyword(ts[j], "and") && ClausesFrom(ts, j + 1, isDate).Ok?
                 && ClausesFrom(ts, i, isDate).value == [f] + ClausesFrom(ts, j + 1, isDate).value
  {
    hide ClauseFrom, IsKeyword;
  }

  lemma {:induction false} ParseSound(ts: seq<Token>, i: nat, isDate: string -> bool)
    requires ClausesFrom(ts, i, isDate).Ok?
    ensures Derives(ts, i, ClausesFrom(ts, i, isDate).value, isDate)
    decreases |ts| - i
  {
    AcceptedSplits(ts, i, isDate);
    var (f, j) := ClauseFrom(ts, i, isDate).value;
    ClauseLengthExact(ts, i, isDate);
    ClauseExact(ts, i, f, isDate);
    hide ClauseAt, IsKeyword, ClauseFrom, ClausesFrom;
    if j < |ts| {
      ParseSound(ts, j + 1, isDate);
      var rest := ClausesFrom(ts, j + 1, isDate).value;
      assert ([f] + rest)[1..] == rest;
    }
  }

  /** The parser accepts exactly the sentences of the grammar, and reads each in
      the one way the grammar gives it. */
  lemma ParserIsTheGrammar(ts: seq<Token>, fs: seq<Filter>, isDate: string -> bool)
    ensures ClausesFrom(ts, 0, isDate) == Ok(fs) <==> Derives(ts, 0, fs, isDate)
  {
    if Derives(ts, 0, fs, isDate) {
      ParseComplete(ts, 0, fs, isDate);
    }
    if ClausesFrom(ts, 0, isDate) == Ok(fs) {
      ParseSound(ts, 0, isDate);
    }
  }

  // ---- What accepted filters look like -------------------------------------

  /** The field, operator and value-count table. */
  predicate WellTyped(f: Filter) {
    && Allows(f.field, f.op)
    && f.values != []
    && (f.op != In ==> |f.values| == 1)
  }

  /** Well typed, and every value is one the field keeps as it is. */
  predicate WellFormed(f: Filter, isDate: string -> bool) {
    && WellTyped(f)
    && forall k :: 0 <= k < |f.values| ==> Canonical(f.field, f.values[k], isDate)
  }

  ghost predicate AllWellFormed(fs: seq<Filter>, isDate: string -> bool) {
    forall k :: 0 <= k < |fs| ==> WellFormed(fs[k], isDate)
  }

  lemma NormalizeStable(f: Field, raw: string, isDate: string -> bool)
    requires Normalize(f, raw, isDate).Ok?
    ensures var v := Normalize(f, raw, isDate).value;
            Normalize(f, v, isDate) == Ok(v) && (HasNoQuote(raw) ==> HasNoQuote(v))
  {
    assert Upper(Upper(raw)) == Upper(raw);
  }

  predicate QuoteFree(t: Token) {
    IsValueToken(t) ==> HasNoQuote(t.text)
  }

  lemma {:induction false} TokensQuoteFree(s: string)
    ensures forall k :: 0 <= k < |Tokens(s)| ==> QuoteFree(Tokens(s)[k])
    decreases |s|
  {
    if s != "" {
      var (t, n) := Lexeme(s);
      TokensQuoteFree(s[n..]);
      assert t.Some? ==> QuoteFree(t.value);
    }
  }

  predicate Canonical(f: Field, v: string, isDate: string -> bool) {
    Normalize(f, v, isDate) == Ok(v) && HasNoQuote(v)
  }

  lemma {:induction false} ListCanonical(ts: seq<Token>, i: nat, f: Field, vs: seq<string>, isDate: string -> bool)
    requires ListAt(ts, i, f, vs, isDate)
    requires forall k :: 0 <= k < |ts| ==> QuoteFree(ts[k])
    ensures forall k :: 0 <= k < |vs| ==> Canonical(f, vs[k], isDate)
    decreases |vs|
  {
    NormalizeStable(f, ts[i].text, isDate);
    if |vs| > 1 {
      ListCanonical(ts, i + 2, f, vs[1..], isDate);
      assert forall k :: 1 <= k < |vs| ==> vs[k] == vs[1..][k - 1];
    }
  }

  lemma ClauseWellFormed(ts: seq<Token>, i: nat, f: Filter, isDate: string -> bool)
    requires ClauseAt(ts, i, f, isDate)
    requires forall k :: 0 <= k < |ts| ==> QuoteFree(ts[k])
    ensures WellFormed(f, isDate)
  {
    if f.op == In {
      ListCanonical(ts, i + 3, f.field, f.values, isDate);
    } else {
      NormalizeStable(f.field, ts[i + 2].text, isDate);
    }
  }

  lemma {:induction false} DerivedWellFormed(ts: seq<Token>, i: nat, fs: seq<Filter>, isDate: string -> bool)
    requires Derives(ts, i, fs, isDate)
    requires forall k :: 0 <= k < |ts| ==> QuoteFree(ts[k])
    ensures AllWellFormed(fs, isDate)
    decreases |fs|
  {
    ClauseWellFormed(ts, i, fs[0], isDate);
    if |fs| > 1 {
      DerivedWellFormed(ts, i + ClauseLength(fs[0]) + 1, fs[1..], isDate);
      assert forall k :: 1 <= k < |fs| ==> fs[k] == fs[1..][k - 1];
    }
  }

  /** Every filter of an accepted query obeys the field table, carries canonical
      values and no double quote. */
  lemma AcceptedFiltersWellFormed(s: string, isDate: string -> bool)
    requires Parse(s, isDate).Ok?
    ensures Parse(s, isDate).value != [] && AllWellFormed(Parse(s, isDate).value, isDate)
  {
    ParseSound(Tokens(s), 0, isDate);
    TokensQuoteFree(s);
    DerivedWellFormed(Tokens(s), 0, Parse(s, isDate).value, isDate);
  }

  // ---- The documented table --------------------------------------------------

  /** The fields of the documentation and the operators each of them takes. */
  const OPERATORS: map<string, set<string>> := map[
    "status" := {"=", "!=", "IN"}, "priority" := {"=", "!=", "IN"}, "platform" := {"=", "!=", "IN"},
    "assignee" := {"=", "!=", "~", "IN"}, "reporter" := {"=", "!=", "~"}, "label" := {"=", "!=", "IN"},
    "created" := {">=", "<="}, "updated" := {">=", "<="}, "text" := {"~"}]

  lemma OperatorsAreDocumented(f: Field, op: JqlOp)
    ensures FieldName(f) in OPERATORS
    ensures Allows(f, op) <==> OpText(op) in OPERATORS[FieldName(f)]
  {
    SignsDiffer(op);
    match f
    case Status => assert OPERATORS["status"] == {"=", "!=", "IN"};
    case Priority => assert OPERATORS["priority"] == {"=", "!=", "IN"};
    case Platform => assert OPERATORS["platform"] == {"=", "!=", "IN"};
    case Assignee => assert OPERATORS["assignee"] == {"=", "!=", "~", "IN"};
    case Reporter => assert OPERATORS["reporter"] == {"=", "!=", "~"};
    case Label => assert OPERATORS["label"] == {"=", "!=", "IN"};
    case Created => assert OPERATORS["created"] == {">=", "<="};
    case Updated => assert OPERATORS["updated"] == {">=", "<="};
    case Text => assert OPERATORS["text"] == {"~"};
  }

  lemma SignsDiffer(op: JqlOp)
    ensures OpText(op) == "=" <==> op == Eq
    ensures OpText(op) == "!=" <==> op == Neq
    ensures OpText(op) == "~" <==> op == Tilde
    ensures OpText(op) == ">=" <==> op == Ge
    ensures OpText(op) == "<=" <==> op == Le
    ensures OpText(op) == "IN" <==> op == In
  {
    assert "="[0] != "~"[0] && "!="[0] != ">="[0] && "!="[0] != "<="[0] && "!="[0] != "IN"[0];
    assert ">="[0] != "<="[0] && ">="[0] != "IN"[0] && "<="[0] != "IN"[0];
  }

  lemma EnumNamesAre(v: string)
    ensures v in STATUS_NAMES <==> exists s: Lifecycle.Status :: v == Lifecycle.StatusName(s)
    ensures v in PRIORITY_NAMES <==> exists p: Lifecycle.Priority :: v == Lifecycle.PriorityName(p)
  {
    if v in STATUS_NAMES {
      var k :| 0 <= k < |STATUS_NAMES| && STATUS_NAMES[k] == v;
      var names := [Lifecycle.New, Lifecycle.InProgress, Lifecycle.OnHold, Lifecycle.Resolved, Lifecycle.Closed,
                    Lifecycle.Reopened];
      assert Lifecycle.StatusName(names[k]) == v;
    }
    if s: Lifecycle.Status :| v == Lifecycle.StatusName(s) {
      assert Lifecycle.StatusName(s) in STATUS_NAMES;
    }
    if v in PRIORITY_NAMES {
      var k :| 0 <= k < |PRIORITY_NAMES| && PRIORITY_NAMES[k] == v;
      var names := [Lifecycle.Low, Lifecycle.Medium, Lifecycle.High, Lifecycle.Critical];
      assert Lifecycle.PriorityName(names[k]) == v;
    }
    if p: Lifecycle.Priority :| v == Lifecycle.PriorityName(p) {
      assert Lifecycle.PriorityName(p) in PRIORITY_NAMES;
    }
  }

  lemma NamesAreUpper(s: Lifecycle.Status, p: Lifecycle.Priority)
    ensures Upper(Lifecycle.StatusName(s)) == Lifecycle.StatusName(s)
    ensures Upper(Lifecycle.PriorityName(p)) == Lifecycle.PriorityName(p)
  {
  }

  /** A status or priority filter takes the names of the statuses and priorities an
      issue can have, in any letter case, gives them the case they are stored in, and
      takes no other value; a date filter takes what has the shape of a date and the
      runtime reads as one; every other field takes any value, as it is. */
  lemma ValuesAre(f: Field, raw: string, v: string, isDate: string -> bool)
    ensures Normalize(f, raw, isDate) == Ok(v) <==>
            match f
            case Status => Lower(raw) == Lower(v) && exists s: Lifecycle.Status :: v == Lifecycle.StatusName(s)
            case Priority => Lower(raw) == Lower(v) && exists p: Lifecycle.Priority :: v == Lifecycle.PriorityName(p)
            case Created | Updated => v == raw && isDate(raw) && exists y, m, d, tail :: Dated(raw, y, m, d, tail)
            case _ => v == raw
    ensures Normalize(f, raw, isDate).Err? ==>
              Normalize(f, raw, isDate).error ==
              if f in {Status, Priority} then InvalidEnum(f, raw) else InvalidDate(f, raw)
  {
    match f
    case Status =>
      EnumNamesAre(Upper(raw));
      EnumNamesAre(v);
      FoldsAgree(raw, v);
      if s: Lifecycle.Status :| v == Lifecycle.StatusName(s) {
        NamesAreUpper(s, Lifecycle.Low);
      }
      assert Upper(Upper(raw)) == Upper(raw);
      FoldsAgree(raw, Upper(raw));
    case Priority =>
      EnumNamesAre(Upper(raw));
      EnumNamesAre(v);
      FoldsAgree(raw, v);
      if p: Lifecycle.Priority :| v == Lifecycle.PriorityName(p) {
        NamesAreUpper(Lifecycle.New, p);
      }
      assert Upper(Upper(raw)) == Upper(raw);
      FoldsAgree(raw, Upper(raw));
    case Created | Updated => DatesAre(raw);
    case _ =>
  }

  predicate Digits(s: string, n: nat) { |s| == n && forall i :: 0 <= i < n ==> '0' <= s[i] <= '9' }

  /** What may follow the day: nothing, or a `T` or space and anything on one line. */
  predicate DayTail(s: string) {
    s == "" || ((s[0] == 'T' || s[0] == ' ')
                && forall i :: 0 < i < |s| ==> s[i] !in {'\n', '\r', '\U{2028}', '\U{2029}'})
  }

  ghost predicate Dated(s: string, year: string, month: string, day: string, tail: string) {
    && Digits(year, 4) && Digits(month, 2) && Digits(day, 2) && DayTail(tail)
    && s == year + "-" + month + "-" + day + tail
  }

  /** A date is a year, a month and a day of four, two and two digits, joined by
      hyphens, and what may follow. */
  lemma DatesAre(s: string)
    ensures IsoShape(s) <==> exists year, month, day, tail :: Dated(s, year, month, day, tail)
  {
    if IsoShape(s) {
      assert Dated(s, s[..4], s[5..7], s[8..10], s[10..]) by {
        assert s[..4] + "-" + s[5..7] + "-" + s[8..10] + s[10..] == s;
      }
    }
    if year, month, day, tail :| Dated(s, year, month, day, tail) {
      assert s[10..] == tail;
      assert forall i :: 10 <= i < |s| ==> s[i] == tail[i - 10];
    }
  }
}
