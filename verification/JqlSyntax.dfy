/** The filter language of saved views: its tokens, its table of fields and
    operators, and what the tokenizer and the parser are to compute. */
module JqlSyntax {
  import opened Basics

  datatype JqlOp = Eq | Neq | Tilde | Ge | Le | In

  datatype Field =
    | Status | Priority | Platform | Assignee | Reporter | Label | Created | Updated | Text

  datatype Filter = Filter(field: Field, op: JqlOp, values: seq<string>)

  // ---- The table of fields -------------------------------------------------

  const ALL_FIELDS := [Status, Priority, Platform, Assignee, Reporter, Label, Created, Updated, Text]

  function FieldName(f: Field): string {
    match f
    case Status => "status"
    case Priority => "priority"
    case Platform => "platform"
    case Assignee => "assignee"
    case Reporter => "reporter"
    case Label => "label"
    case Created => "created"
    case Updated => "updated"
    case Text => "text"
  }

  function LookupField(name: string): Option<Field> { LookupIn(ALL_FIELDS, name) }

  function LookupIn(fs: seq<Field>, name: string): (r: Option<Field>)
    ensures r.Some? ==> FieldName(r.value) == name
  {
    if fs == [] then None
    else if FieldName(fs[0]) == name then Some(fs[0])
    else LookupIn(fs[1..], name)
  }

  predicate Allows(f: Field, op: JqlOp) {
    match f
    case Status | Priority | Platform | Label => op in {Eq, Neq, In}
    case Assignee => op in {Eq, Neq, Tilde, In}
    case Reporter => op in {Eq, Neq, Tilde}
    case Created | Updated => op in {Ge, Le}
    case Text => op == Tilde
  }

  const STATUS_NAMES := ["NEW", "IN_PROGRESS", "ON_HOLD", "RESOLVED", "CLOSED", "REOPENED"]
  const PRIORITY_NAMES := ["LOW", "MEDIUM", "HIGH", "CRITICAL"]

  // ---- Errors --------------------------------------------------------------

  datatype JqlError =
    | EmptyQuery
    | ExpectedField(near: Option<Token>)
    | UnknownField(name: string)
    | ExpectedOperator(field: Field, got: Option<Token>)
    | BadOperator(field: Field, op: JqlOp)
    | ExpectedList(field: Field)
    | ExpectedListValue(field: Field)
    | ExpectedListSeparator(field: Field)
    | ExpectedValue(field: Field, op: JqlOp)
    | InvalidEnum(field: Field, value: string)
    | InvalidDate(field: Field, value: string)
    | DanglingAnd
    | OrUnsupported
    | Unexpected(token: Token)

  // ---- Tokens --------------------------------------------------------------

  datatype Token =
    | Word(text: string) | Quoted(text: string) | OpSign(op: JqlOp)
    | LParen | RParen | Comma

  predicate IsWordChar(c: char) {
    !IsSpace(c) && c != '(' && c != ')' && c != ',' && c != '"'
  }

  /** How many word characters `s` starts with. */
  function WordLength(s: string): (n: nat)
    ensures n <= |s|
    ensures forall i :: 0 <= i < n ==> IsWordChar(s[i])
    ensures n < |s| ==> !IsWordChar(s[n])
  {
    if s == "" || !IsWordChar(s[0]) then 0 else 1 + WordLength(s[1..])
  }

  /** The position of the first double quote, if there is one. */
  function FirstQuote(s: string): (r: Option<nat>)
    ensures r.Some? ==> r.value < |s| && s[r.value] == '"'
    ensures r.Some? ==> forall i :: 0 <= i < r.value ==> s[i] != '"'
    ensures r.None? ==> forall i :: 0 <= i < |s| ==> s[i] != '"'
  {
    if s == "" then None
    else if s[0] == '"' then Some(0)
    else match FirstQuote(s[1..])
      case None => None
      case Some(k) => Some(k + 1)
  }

  /** What one step of the scanning regular expression does at the start of
      `s`: the token it yields, if any, and how many characters it passes. A
      space and a quote that is never closed are skipped one at a time. */
  function Lexeme(s: string): (r: (Option<Token>, nat))
    requires s != ""
    ensures 1 <= r.1 <= |s|
  {
    if s[0] == '"' then
      match FirstQuote(s[1..])
      case Some(k) => (Some(Quoted(s[1..k + 1])), k + 2)
      case None => (None, 1)
    else if |s| > 1 && s[0] == '!' && s[1] == '=' then (Some(OpSign(Neq)), 2)
    else if |s| > 1 && s[0] == '>' && s[1] == '=' then (Some(OpSign(Ge)), 2)
    else if |s| > 1 && s[0] == '<' && s[1] == '=' then (Some(OpSign(Le)), 2)
    else if s[0] == '=' then (Some(OpSign(Eq)), 1)
    else if s[0] == '~' then (Some(OpSign(Tilde)), 1)
    else if s[0] == '(' then (Some(LParen), 1)
    else if s[0] == ')' then (Some(RParen), 1)
    else if s[0] == ',' then (Some(Comma), 1)
    else if IsSpace(s[0]) then (None, 1)
    else (Some(Word(s[..WordLength(s)])), WordLength(s))
  }

  function Emit(t: Option<Token>): seq<Token> {
    if t.Some? then [t.value] else []
  }

  function Tokens(s: string): seq<Token>
    decreases |s|
  {
    if s == "" then [] else Emit(Lexeme(s).0) + Tokens(s[Lexeme(s).1..])
  }

  // ---- Values --------------------------------------------------------------

  predicate IsDigit(c: char) { '0' <= c <= '9' }

  predicate IsLineEnd(c: char) {
    c == '\n' || c == '\r' || c == '\U{2028}' || c == '\U{2029}'
  }

  /** YYYY-MM-DD, alone or followed by 'T' or a space and anything on one line. */
  predicate IsoShape(s: string) {
    && |s| >= 10
    && (forall i :: 0 <= i < 10 ==> if i == 4 || i == 7 then s[i] == '-' else IsDigit(s[i]))
    && (|s| > 10 ==> (s[10] == 'T' || s[10] == ' ') && forall i :: 11 <= i < |s| ==> !IsLineEnd(s[i]))
  }

  /** `isDate` stands for the runtime's own date parser. */
  function Normalize(f: Field, raw: string, isDate: string -> bool): Result<string, JqlError> {
    match f
    case Status =>
      if Upper(raw) in STATUS_NAMES then Ok(Upper(raw)) else Err(InvalidEnum(f, raw))
    case Priority =>
      if Upper(raw) in PRIORITY_NAMES then Ok(Upper(raw)) else Err(InvalidEnum(f, raw))
    case Created | Updated =>
      if IsoShape(raw) && isDate(raw) then Ok(raw) else Err(InvalidDate(f, raw))
    case _ => Ok(raw)
  }

  // ---- What the parser computes -------------------------------------------

  function TokenAt(ts: seq<Token>, i: nat): Option<Token> {
    if i < |ts| then Some(ts[i]) else None
  }

  predicate IsValueToken(t: Token) { t.Word? || t.Quoted? }

  predicate IsKeyword(t: Token, word: string) {
    t.Word? && Lower(t.text) == word
  }

  /** The values of an IN list whose first value is expected at `i`, and the
      position after the closing parenthesis. */
  function ListFrom(ts: seq<Token>, i: nat, f: Field, isDate: string -> bool):
      (r: Result<(seq<string>, nat), JqlError>)
    ensures r.Ok? ==> i < r.value.1 <= |ts| && r.value.0 != []
    decreases |ts| - i
  {
    if i >= |ts| || !IsValueToken(ts[i]) then Err(ExpectedListValue(f))
    else match Normalize(f, ts[i].text, isDate)
      case Err(e) => Err(e)
      case Ok(v) =>
        if TokenAt(ts, i + 1) == Some(RParen) then Ok(([v], i + 2))
        else if TokenAt(ts, i + 1) != Some(Comma) then Err(ExpectedListSeparator(f))
        else PrependValues([v], ListFrom(ts, i + 2, f, isDate))
  }

  function PrependValues(vs: seq<string>, r: Result<(seq<string>, nat), JqlError>):
      Result<(seq<string>, nat), JqlError>
  {
    match r
    case Ok((more, j)) => Ok((vs + more, j))
    case Err(e) => Err(e)
  }

  function OperatorAt(ts: seq<Token>, i: nat): Option<JqlOp> {
    if i >= |ts| then None
    else if ts[i].OpSign? then Some(ts[i].op)
    else if IsKeyword(ts[i], "in") then Some(In)
    else None
  }

  /** The clause at `i` and the position after it. */
  function ClauseFrom(ts: seq<Token>, i: nat, isDate: string -> bool):
      (r: Result<(Filter, nat), JqlError>)
    ensures r.Ok? ==> i < r.value.1 <= |ts|
  {
    if i >= |ts| || !ts[i].Word? then Err(ExpectedField(TokenAt(ts, i)))
    else match LookupField(Lower(ts[i].text))
      case None => Err(UnknownField(ts[i].text))
      case Some(f) =>
        match OperatorAt(ts, i + 1)
        case None => Err(ExpectedOperator(f, TokenAt(ts, i + 1)))
        case Some(op) =>
          if !Allows(f, op) then Err(BadOperator(f, op))
          else if op == In then
            if TokenAt(ts, i + 2) != Some(LParen) then Err(ExpectedList(f))
            else match ListFrom(ts, i + 3, f, isDate)
              case Err(e) => Err(e)
              case Ok((vs, j)) => Ok((Filter(f, op, vs), j))
          else if i + 2 >= |ts| || !IsValueToken(ts[i + 2]) then Err(ExpectedValue(f, op))
          else match Normalize(f, ts[i + 2].text, isDate)
            case Err(e) => Err(e)
            case Ok(v) => Ok((Filter(f, op, [v]), i + 3))
  }

  function Prepend(fs: seq<Filter>, r: Result<seq<Filter>, JqlError>): Result<seq<Filter>, JqlError> {
    match r
    case Ok(gs) => Ok(fs + gs)
    case Err(e) => Err(e)
  }

  /** The clauses from position `i` to the end of the query. */
  function ClausesFrom(ts: seq<Token>, i: nat, isDate: string -> bool): Result<seq<Filter>, JqlError>
    decreases |ts| - i
  {
    match ClauseFrom(ts, i, isDate)
    case Err(e) => Err(e)
    case Ok((f, j)) =>
      if j == |ts| then Ok([f])
      else if IsKeyword(ts[j], "and") then
        if j + 1 == |ts| then Err(DanglingAnd)
        else Prepend([f], ClausesFrom(ts, j + 1, isDate))
      else if IsKeyword(ts[j], "or") then Err(OrUnsupported)
      else Err(Unexpected(ts[j]))
  }

  function Parse(input: string, isDate: string -> bool): Result<seq<Filter>, JqlError> {
    if IsBlank(input) then Err(EmptyQuery) else ClausesFrom(Tokens(input), 0, isDate)
  }

  // ---- The grammar, stated from the filters' side --------------------------

  ghost predicate ValueAt(ts: seq<Token>, i: nat, f: Field, v: string, isDate: string -> bool) {
    i < |ts| && IsValueToken(ts[i]) && Normalize(f, ts[i].text, isDate) == Ok(v)
  }

  /** list := value ')' | value ',' list */
  ghost predicate ListAt(ts: seq<Token>, i: nat, f: Field, vs: seq<string>, isDate: string -> bool)
    decreases |vs|
  {
    && vs != []
    && i + 1 < |ts|
    && ValueAt(ts, i, f, vs[0], isDate)
    && if |vs| == 1 then ts[i + 1] == RParen
       else ts[i + 1] == Comma && ListAt(ts, i + 2, f, vs[1..], isDate)
  }

  function ClauseLength(f: Filter): nat {
    if f.op == In then 3 + 2 * |f.values| else 3
  }

  ghost predicate ClauseAt(ts: seq<Token>, i: nat, f: Filter, isDate: string -> bool) {
    && i + 1 < |ts|
    && IsKeyword(ts[i], FieldName(f.field))
    && (ts[i + 1] == OpSign(f.op) || (f.op == In && IsKeyword(ts[i + 1], "in")))
    && Allows(f.field, f.op)
    && if f.op == In then
         TokenAt(ts, i + 2) == Some(LParen) && ListAt(ts, i + 3, f.field, f.values, isDate)
       else
         |f.values| == 1 && ValueAt(ts, i + 2, f.field, f.values[0], isDate)
  }

  /** `ts` from `i` on is a sentence of the grammar that denotes `fs`. */
  ghost predicate Derives(ts: seq<Token>, i: nat, fs: seq<Filter>, isDate: string -> bool)
    decreases |fs|
  {
    && fs != []
    && ClauseAt(ts, i, fs[0], isDate)
    && var j := i + ClauseLength(fs[0]);
       if |fs| == 1 then j == |ts|
       else j < |ts| && IsKeyword(ts[j], "and") && Derives(ts, j + 1, fs[1..], isDate)
  }
}
