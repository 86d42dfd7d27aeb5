/** What the parser of the filter language answers when it does not accept: what may
    follow an accepted query, and which error a faulty one gets. */
module JqlErrors {
  import opened Basics
  import opened JqlSyntax
  import opened JqlTokens
  import opened JqlGrammar

  // ---- What may follow an accepted query ---------------------------------------

  function Shifted<T>(r: Result<(T, nat), JqlError>, n: nat): Result<(T, nat), JqlError> {
    match r
    case Ok((v, j)) => Ok((v, n + j))
    case Err(e) => Err(e)
  }

  lemma {:induction false} ListShifts(a: seq<Token>, b: seq<Token>, i: nat, f: Field, isDate: string -> bool)
    ensures ListFrom(a + b, |a| + i, f, isDate) == Shifted(ListFrom(b, i, f, isDate), |a|)
    decreases |b| - i
  {
    hide Normalize;
    if i < |b| {
      ListShifts(a, b, i + 2, f, isDate);
      assert TokenAt(a + b, |a| + i + 1) == TokenAt(b, i + 1);
    }
  }

  lemma ClauseShifts(a: seq<Token>, b: seq<Token>, i: nat, isDate: string -> bool)
    ensures ClauseFrom(a + b, |a| + i, isDate) == Shifted(ClauseFrom(b, i, isDate), |a|)
  {
    hide Normalize, ListFrom, LookupField, Allows;
    assert TokenAt(a + b, |a| + i) == TokenAt(b, i) && TokenAt(a + b, |a| + i + 1) == TokenAt(b, i + 1);
    assert TokenAt(a + b, |a| + i + 2) == TokenAt(b, i + 2);
    if i < |b| && b[i].Word? && LookupField(Lower(b[i].text)).Some? {
      ListShifts(a, b, i + 3, LookupField(Lower(b[i].text)).value, isDate);
    }
  }

  lemma {:induction false} ClausesShift(a: seq<Token>, b: seq<Token>, i: nat, isDate: string -> bool)
    requires i <= |b|
    ensures ClausesFrom(a + b, |a| + i, isDate) == ClausesFrom(b, i, isDate)
    decreases |b| - i
  {
    ClauseShifts(a, b, i, isDate);
    hide ClauseFrom, IsKeyword;
    match ClauseFrom(b, i, isDate) {
      case Err(_) =>
      case Ok((f, j)) =>
        if j + 1 < |b| {
          ClausesShift(a, b, j + 1, isDate);
        }
    }
  }

  lemma {:induction false} ListKept(a: seq<Token>, b: seq<Token>, i: nat, f: Field, isDate: string -> bool)
    requires ListFrom(a, i, f, isDate).Ok?
    ensures ListFrom(a + b, i, f, isDate) == ListFrom(a, i, f, isDate)
    decreases |a| - i
  {
    hide Normalize;
    if TokenAt(a, i + 1) == Some(Comma) {
      ListKept(a, b, i + 2, f, isDate);
    }
  }

  lemma ClauseKept(a: seq<Token>, b: seq<Token>, i: nat, isDate: string -> bool)
    requires ClauseFrom(a, i, isDate).Ok?
    ensures ClauseFrom(a + b, i, isDate) == ClauseFrom(a, i, isDate)
  {
    hide Normalize, ListFrom, LookupField, Allows;
    var f := ClauseFrom(a, i, isDate).value.0;
    if f.op == In {
      ListKept(a, b, i + 3, f.field, isDate);
    }
  }

  /** The answer after an accepted query, a token `t` and more. */
  function Continued(fs: seq<Filter>, t: Token, more: seq<Token>, isDate: string -> bool):
      Result<seq<Filter>, JqlError>
  {
    if t.Word? && Lower(t.text) == "and" then
      if more == [] then Err(DanglingAnd) else Prepend(fs, ClausesFrom(more, 0, isDate))
    else if t.Word? && Lower(t.text) == "or" then Err(OrUnsupported)
    else Err(Unexpected(t))
  }

  /** What may follow an accepted query: AND and another query, whose filters, or
      whose error, the answer then has after the first ones. AND alone, OR and
      anything else are refused, each in its own way. */
  lemma {:induction false} AfterAnAcceptedQuery(ts: seq<Token>, i: nat, t: Token, more: seq<Token>,
                                                isDate: string -> bool)
    requires ClausesFrom(ts, i, isDate).Ok?
    ensures ClausesFrom(ts + ([t] + more), i, isDate) == Continued(ClausesFrom(ts, i, isDate).value, t, more, isDate)
    decreases |ts| - i
  {
    AcceptedSplits(ts, i, isDate);
    var (f, j) := ClauseFrom(ts, i, isDate).value;
    ClauseKept(ts, [t] + more, i, isDate);
    hide ClauseFrom, ClausesFrom, IsKeyword;
    if j < |ts| {
      AfterAnAcceptedQuery(ts, j + 1, t, more, isDate);
      ClausesStep(ts + ([t] + more), i, f, j, isDate);
      ContinuedAgain(f, ClausesFrom(ts, j + 1, isDate).value, t, more, isDate);
      hide Continued;
    } else {
      AfterTheLastClause(ts, i, f, t, more, isDate);
    }
  }

  lemma AfterTheLastClause(ts: seq<Token>, i: nat, f: Filter, t: Token, more: seq<Token>, isDate: string -> bool)
    requires ClauseFrom(ts + ([t] + more), i, isDate) == Ok((f, |ts|))
    ensures ClausesFrom(ts + ([t] + more), i, isDate) == Continued([f], t, more, isDate)
  {
    hide ClauseFrom, Lower;
    if more != [] {
      assert ts + ([t] + more) == (ts + [t]) + more;
      ClausesShift(ts + [t], more, 0, isDate);
    }
  }

  lemma ContinuedAgain(f: Filter, fs: seq<Filter>, t: Token, more: seq<Token>, isDate: string -> bool)
    ensures Prepend([f], Continued(fs, t, more, isDate)) == Continued([f] + fs, t, more, isDate)
  {
    var r := ClausesFrom(more, 0, isDate);
    hide ClausesFrom, Lower;
    if r.Ok? {
      assert [f] + (fs + r.value) == [f] + fs + r.value;
    }
  }

  // ---- What is wrong with a clause that is refused -------------------------------

  /** The clause at `i` starts with a field and an operator the field takes. */
  ghost predicate Opens(ts: seq<Token>, i: nat, f: Field, op: JqlOp) {
    FieldAt(ts, i, f) && OpAt(ts, i + 1, op) && OpText(op) in OPERATORS[FieldName(f)]
  }

  ghost predicate FieldAt(ts: seq<Token>, i: nat, f: Field) {
    i < |ts| && ts[i].Word? && Lower(ts[i].text) == FieldName(f) && FieldName(f) in OPERATORS
  }

  ghost predicate OpAt(ts: seq<Token>, i: nat, op: JqlOp) {
    i < |ts| && (ts[i] == OpSign(op) || (op == In && ts[i].Word? && Lower(ts[i].text) == "in"))
  }

  predicate NoValue(t: Option<Token>) { t == None || !(t.value.Word? || t.value.Quoted?) }

  /** The value at `i` is one the field refuses. */
  ghost predicate Refused(ts: seq<Token>, i: nat, f: Field, isDate: string -> bool, e: JqlError) {
    && !NoValue(TokenAt(ts, i)) && Normalize(f, ts[i].text, isDate).Err?
    && e == if f in {Status, Priority} then InvalidEnum(f, ts[i].text) else InvalidDate(f, ts[i].text)
  }

  /** What is wrong with the list whose first value is expected at `i`. */
  ghost predicate ListFault(ts: seq<Token>, i: nat, f: Field, isDate: string -> bool, e: JqlError)
    decreases |ts| - i
  {
    if NoValue(TokenAt(ts, i)) then e == ExpectedListValue(f)
    else if Normalize(f, ts[i].text, isDate).Err? then Refused(ts, i, f, isDate, e)
    else if TokenAt(ts, i + 1) == Some(Comma) then ListFault(ts, i + 2, f, isDate, e)
    else TokenAt(ts, i + 1) != Some(RParen) && e == ExpectedListSeparator(f)
  }

  ghost predicate FaultInList(ts: seq<Token>, i: nat, f: Field, isDate: string -> bool, e: JqlError) {
    Opens(ts, i, f, In) && TokenAt(ts, i + 2) == Some(LParen) && ListFault(ts, i + 3, f, isDate, e)
  }

  /** What is wrong with the clause at `i`, read from left to right. */
  ghost predicate Fault(ts: seq<Token>, i: nat, isDate: string -> bool, e: JqlError) {
    match e
    case ExpectedField(near) => near == TokenAt(ts, i) && (near == None || !near.value.Word?)
    case UnknownField(name) => TokenAt(ts, i) == Some(Word(name)) && Lower(name) !in OPERATORS
    case ExpectedOperator(f, got) =>
      && FieldAt(ts, i, f) && got == TokenAt(ts, i + 1)
      && (got == None || !(got.value.OpSign? || (got.value.Word? && Lower(got.value.text) == "in")))
    case BadOperator(f, op) => FieldAt(ts, i, f) && OpAt(ts, i + 1, op) && OpText(op) !in OPERATORS[FieldName(f)]
    case ExpectedList(f) => Opens(ts, i, f, In) && TokenAt(ts, i + 2) != Some(LParen)
    case ExpectedListValue(f) => FaultInList(ts, i, f, isDate, e)
    case ExpectedListSeparator(f) => FaultInList(ts, i, f, isDate, e)
    case ExpectedValue(f, op) => op != In && Opens(ts, i, f, op) && NoValue(TokenAt(ts, i + 2))
    case InvalidEnum(f, _) => FaultInList(ts, i, f, isDate, e) || FaultInValue(ts, i, f, isDate, e)
    case InvalidDate(f, _) => FaultInList(ts, i, f, isDate, e) || FaultInValue(ts, i, f, isDate, e)
    case _ => false
  }

  ghost predicate FaultInValue(ts: seq<Token>, i: nat, f: Field, isDate: string -> bool, e: JqlError) {
    && i + 1 < |ts| && ts[i + 1].OpSign? && ts[i + 1].op != In
    && Opens(ts, i, f, ts[i + 1].op) && Refused(ts, i + 2, f, isDate, e)
  }

  lemma {:induction false} ListRefusedBecause(ts: seq<Token>, i: nat, f: Field, isDate: string -> bool, e: JqlError)
    ensures ListFrom(ts, i, f, isDate) == Err(e) <==> ListFault(ts, i, f, isDate, e)
    decreases |ts| - i
  {
    if i < |ts| && IsValueToken(ts[i]) {
      if Normalize(f, ts[i].text, isDate).Err? {
        ValuesAre(f, ts[i].text, "", isDate);
      }
      hide Normalize;
      ListRefusedBecause(ts, i + 2, f, isDate, e);
    }
  }

  lemma KnownIffDocumented(name: string)
    ensures LookupField(name).Some? <==> name in OPERATORS
    ensures forall f: Field :: LookupField(name) == Some(f) <==> FieldName(f) == name
  {
    forall f: Field ensures LookupField(name) == Some(f) <==> FieldName(f) == name {
      LookupExact(name, f);
    }
    hide LookupField;
    if LookupField(name).Some? {
      OperatorsAreDocumented(LookupField(name).value, Eq);
    }
    if name in OPERATORS {
      DocumentedAreFields(name);
    }
  }

  lemma DocumentedAreFields(name: string)
    requires name in OPERATORS
    ensures exists f: Field :: FieldName(f) == name
  {
    assert name in {"status", "priority", "platform", "assignee", "reporter", "label", "created", "updated", "text"};
    assert FieldName(Status) == "status" && FieldName(Priority) == "priority" && FieldName(Platform) == "platform";
    assert FieldName(Assignee) == "assignee" && FieldName(Reporter) == "reporter" && FieldName(Label) == "label";
    assert FieldName(Created) == "created" && FieldName(Updated) == "updated" && FieldName(Text) == "text";
  }

  /** A fault in the list of a field names the field. */
  lemma {:induction false} ListFaultIsOf(ts: seq<Token>, i: nat, f: Field, isDate: string -> bool, e: JqlError)
    requires ListFault(ts, i, f, isDate, e)
    ensures e.ExpectedListValue? || e.ExpectedListSeparator? || e.InvalidEnum? || e.InvalidDate?
    ensures e.field == f
    decreases |ts| - i
  {
    hide Normalize;
    if !NoValue(TokenAt(ts, i)) && Normalize(f, ts[i].text, isDate).Ok? && TokenAt(ts, i + 1) == Some(Comma) {
      ListFaultIsOf(ts, i + 2, f, isDate, e);
    }
  }

  /** `f` is the one field that can stand at `i`. */
  ghost predicate OnlyField(ts: seq<Token>, i: nat, f: Field) {
    && i < |ts| && ts[i].Word? && LookupField(Lower(ts[i].text)) == Some(f) && Lower(ts[i].text) in OPERATORS
    && forall g: Field :: LookupField(Lower(ts[i].text)) == Some(g) <==> FieldName(g) == Lower(ts[i].text)
  }

  lemma InTheList(ts: seq<Token>, i: nat, f: Field, isDate: string -> bool, e: JqlError)
    requires OnlyField(ts, i, f) && OperatorAt(ts, i + 1) == Some(In)
    requires Allows(f, In) <==> OpText(In) in OPERATORS[FieldName(f)]
    ensures ClauseFrom(ts, i, isDate) == Err(e) <==> Fault(ts, i, isDate, e)
  {
    hide LookupField, ListFrom, ListFault, FieldName, OPERATORS, OpText, Allows, Normalize;
    ListRefusedBecause(ts, i + 3, f, isDate, e);
    if ListFault(ts, i + 3, f, isDate, e) {
      ListFaultIsOf(ts, i + 3, f, isDate, e);
    }
  }

  lemma InTheValue(ts: seq<Token>, i: nat, f: Field, isDate: string -> bool, e: JqlError)
    requires OnlyField(ts, i, f) && OperatorAt(ts, i + 1).Some? && OperatorAt(ts, i + 1).value != In
    requires var op := OperatorAt(ts, i + 1).value; Allows(f, op) <==> OpText(op) in OPERATORS[FieldName(f)]
    ensures ClauseFrom(ts, i, isDate) == Err(e) <==> Fault(ts, i, isDate, e)
  {
    hide LookupField, ListFrom, ListFault, FieldName, OPERATORS, OpText, Allows;
    if i + 2 < |ts| && IsValueToken(ts[i + 2]) && Normalize(f, ts[i + 2].text, isDate).Err? {
      ValuesAre(f, ts[i + 2].text, "", isDate);
    }
    hide Normalize;
  }

  lemma AfterTheField(ts: seq<Token>, i: nat, f: Field, isDate: string -> bool, e: JqlError)
    requires OnlyField(ts, i, f)
    ensures ClauseFrom(ts, i, isDate) == Err(e) <==> Fault(ts, i, isDate, e)
  {
    hide LookupField, ListFrom, ListFault, FieldName, OPERATORS, OpText, Allows;
    if OperatorAt(ts, i + 1).Some? {
      OperatorsAreDocumented(f, OperatorAt(ts, i + 1).value);
      if OperatorAt(ts, i + 1).value == In {
        InTheList(ts, i, f, isDate, e);
      } else {
        InTheValue(ts, i, f, isDate, e);
      }
    }
  }

  /** A clause is refused with the first thing that is wrong with it, and so then is
      the query that starts with it. */
  lemma ClauseRefusedBecause(ts: seq<Token>, i: nat, isDate: string -> bool, e: JqlError)
    ensures ClauseFrom(ts, i, isDate) == Err(e) <==> Fault(ts, i, isDate, e)
    ensures Fault(ts, i, isDate, e) ==> ClausesFrom(ts, i, isDate) == Err(e)
  {
    if i < |ts| && ts[i].Word? {
      KnownIffDocumented(Lower(ts[i].text));
      hide LookupField, Normalize, ListFrom, ListFault;
      if LookupField(Lower(ts[i].text)).Some? {
        var f := LookupField(Lower(ts[i].text)).value;
        AfterTheField(ts, i, f, isDate, e);
      }
    }
  }

  // ---- Blank queries -----------------------------------------------------------

  lemma {:induction false} NeverEmptyQuery(ts: seq<Token>, i: nat, isDate: string -> bool)
    ensures ClausesFrom(ts, i, isDate) != Err(EmptyQuery)
    decreases |ts| - i
  {
    ClauseRefusedBecause(ts, i, isDate, EmptyQuery);
    hide ClauseFrom;
    if ClauseFrom(ts, i, isDate).Ok? && ClauseFrom(ts, i, isDate).value.1 + 1 < |ts| {
      NeverEmptyQuery(ts, ClauseFrom(ts, i, isDate).value.1 + 1, isDate);
    }
  }

  /** A query counts as empty exactly when it is nothing but white space. */
  lemma EmptyIffBlank(s: string, isDate: string -> bool)
    ensures Parse(s, isDate) == Err(EmptyQuery) <==> forall i :: 0 <= i < |s| ==> s[i] in WHITE_SPACE
  {
    NeverEmptyQuery(Tokens(s), 0, isDate);
    forall i | 0 <= i < |s| ensures IsSpace(s[i]) <==> s[i] in WHITE_SPACE {
      SpacesAre(s[i]);
    }
    hide IsSpace;
  }
}
