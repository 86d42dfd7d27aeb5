/** The tokenizer and the cursor-driven parser of saved-view queries, each
    proved to compute what JqlSyntax says it should. */
module JqlParser {
  import opened Basics
  import opened JqlSyntax

  lemma TokensStep(tokens: seq<Token>, rest: string)
    requires rest != ""
    ensures tokens + Tokens(rest) == tokens + Emit(Lexeme(rest).0) + Tokens(rest[Lexeme(rest).1..])
  {
  }

  lemma EndOfText(rest: string)
    requires rest == ""
    ensures Tokens(rest) == []
  {
  }

  /** Scans `input` left to right, pushing one token per lexeme. */
  method Tokenize(input: string) returns (tokens: seq<Token>)
    ensures tokens == Tokens(input)
  {
    hide Lexeme, Tokens;
    tokens := [];
    var at := 0;
    assert input[0..] == input;
    while at < |input|
      invariant 0 <= at <= |input|
      invariant tokens + Tokens(input[at..]) == Tokens(input)
    {
      var rest := input[at..];
      ghost var before := tokens;
      var (token, length) := Lexeme(rest);
      if token.Some? {
        tokens := tokens + [token.value];
      }
      TokensStep(before, rest);
      assert rest[length..] == input[at + length..];
      at := at + length;
    }
    EndOfText(input[at..]);
  }

  lemma PrependValuesTwice(a: seq<string>, b: seq<string>, r: Result<(seq<string>, nat), JqlError>)
    ensures PrependValues(a, PrependValues(b, r)) == PrependValues(a + b, r)
    ensures PrependValues([], r) == r
  {
    if r.Ok? {
      assert a + (b + r.value.0) == a + b + r.value.0;
      assert [] + r.value.0 == r.value.0;
    }
  }

  lemma PrependTwice(a: seq<Filter>, b: seq<Filter>, r: Result<seq<Filter>, JqlError>)
    ensures Prepend(a, Prepend(b, r)) == Prepend(a + b, r)
    ensures Prepend([], r) == r
  {
    if r.Ok? {
      assert a + (b + r.value) == a + b + r.value;
      assert [] + r.value == r.value;
    }
  }

  /** The value list of an IN clause, the opening parenthesis being consumed. */
  method ParseList(tokens: seq<Token>, start: nat, field: Field, isDate: string -> bool)
    returns (r: Result<(seq<string>, nat), JqlError>)
    ensures r == ListFrom(tokens, start, field, isDate)
  {
    hide Normalize;
    var values: seq<string> := [];
    var i := start;
    PrependValuesTwice([], [], ListFrom(tokens, start, field, isDate));
    while true
      invariant start <= i
      invariant i <= |tokens| || i == start
      invariant ListFrom(tokens, start, field, isDate) ==
                PrependValues(values, ListFrom(tokens, i, field, isDate))
      decreases |tokens| - i
    {
      var value := TokenAt(tokens, i);
      if value.None? || !IsValueToken(value.value) {
        return Err(ExpectedListValue(field));
      }
      var normal := Normalize(field, value.value.text, isDate);
      if normal.Err? {
        return Err(normal.error);
      }
      PrependValuesTwice(values, [normal.value], ListFrom(tokens, i + 2, field, isDate));
      values := values + [normal.value];
      var separator := TokenAt(tokens, i + 1);
      i := i + 2;
      if separator == Some(RParen) {
        return Ok((values, i));
      }
      if separator != Some(Comma) {
        return Err(ExpectedListSeparator(field));
      }
    }
  }

  /** One clause: field, operator, value or list. */
  method ParseClause(tokens: seq<Token>, start: nat, isDate: string -> bool)
    returns (r: Result<(Filter, nat), JqlError>)
    ensures r == ClauseFrom(tokens, start, isDate)
  {
    var fieldToken := TokenAt(tokens, start);
    if fieldToken.None? || !fieldToken.value.Word? {
      return Err(ExpectedField(fieldToken));
    }
    var found := LookupField(Lower(fieldToken.value.text));
    if found.None? {
      return Err(UnknownField(fieldToken.value.text));
    }
    var field := found.value;
    var opToken := TokenAt(tokens, start + 1);
    var op: JqlOp;
    if opToken.Some? && opToken.value.OpSign? {
      op := opToken.value.op;
    } else if opToken.Some? && IsKeyword(opToken.value, "in") {
      op := In;
    } else {
      return Err(ExpectedOperator(field, opToken));
    }
    if !Allows(field, op) {
      return Err(BadOperator(field, op));
    }
    if op == In {
      if TokenAt(tokens, start + 2) != Some(LParen) {
        return Err(ExpectedList(field));
      }
      var list := ParseList(tokens, start + 3, field, isDate);
      match list {
        case Ok((values, next)) => return Ok((Filter(field, op, values), next));
        case Err(e) => return Err(e);
      }
    }
    var value := TokenAt(tokens, start + 2);
    if value.None? || !IsValueToken(value.value) {
      return Err(ExpectedValue(field, op));
    }
    var normal := Normalize(field, value.value.text, isDate);
    if normal.Err? {
      return Err(normal.error);
    }
    return Ok((Filter(field, op, [normal.value]), start + 3));
  }

  /** The whole query: clauses joined with AND. */
  method ParseJql(input: string, isDate: string -> bool) returns (r: Result<seq<Filter>, JqlError>)
    ensures r == Parse(input, isDate)
  {
    if IsBlank(input) {
      return Err(EmptyQuery);
    }
    var tokens := Tokenize(input);
    var filters: seq<Filter> := [];
    var i := 0;
    hide ClauseFrom, IsKeyword;
    PrependTwice([], [], ClausesFrom(tokens, 0, isDate));
    while true
      invariant 0 <= i <= |tokens|
      invariant ClausesFrom(tokens, 0, isDate) == Prepend(filters, ClausesFrom(tokens, i, isDate))
      decreases |tokens| - i
    {
      var clause := ParseClause(tokens, i, isDate);
      if clause.Err? {
        return Err(clause.error);
      }
      var (filter, next) := clause.value;
      filters := filters + [filter];
      if next == |tokens| {
        return Ok(filters);
      }
      if IsKeyword(tokens[next], "and") {
        if next + 1 == |tokens| {
          return Err(DanglingAnd);
        }
        PrependTwice(filters[..|filters| - 1], [filter], ClausesFrom(tokens, next + 1, isDate));
        assert filters[..|filters| - 1] + [filter] == filters;
        i := next + 1;
        continue;
      }
      if IsKeyword(tokens[next], "or") {
        return Err(OrUnsupported);
      }
      return Err(Unexpected(tokens[next]));
    }
  }
}
