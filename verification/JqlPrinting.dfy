/** Writing filter lists down: every spelling of a sentence of the grammar parses to
    what it denotes, and so does every way the printer has. */
module JqlPrinting {
  import opened Basics
  import opened JqlSyntax
  import opened JqlTokens
  import opened JqlGrammar

  // ---- Every spelling of a sentence parses ---------------------------------

  lemma {:induction false} BlankHasNoTokens(s: string)
    requires IsBlank(s)
    ensures Tokens(s) == []
  {
    if s != "" {
      assert s == [s[0]] + s[1..];
      SpacesAre(s[0]);
      SpaceStarts(s[0], s[1..]);
      LexemeStep(s, None, s[1..]);
      BlankHasNoTokens(s[1..]);
    }
  }

  /** A text in which tokens are written down legibly, with whatever white space, is
      accepted as `fs` exactly when the tokens are a sentence that denotes `fs`. */
  lemma SpelledQueriesParse(pieces: seq<Piece>, tail: string, fs: seq<Filter>, isDate: string -> bool)
    requires Legible(None, pieces) && IsGap(tail)
    ensures Parse(Render(pieces) + tail, isDate) == Ok(fs) <==> Derives(TokensOf(pieces), 0, fs, isDate)
  {
    var s := Render(pieces) + tail;
    SpellingsReadBack(None, pieces, tail);
    ParserIsTheGrammar(TokensOf(pieces), fs, isDate);
    hide Legible, ClausesFrom, Render, Tokens;
    if IsBlank(s) {
      BlankHasNoTokens(s);
    }
  }

  // ---- The printer ---------------------------------------------------------

  /** How to write: values without quotes where they can do without, keywords in
      lower and field names in upper case, no white space where none is needed. */
  datatype Style = Style(bare: bool, swapped: bool, tight: bool)

  function Gap(style: Style): string { if style.tight then "" else " " }

  function Keyword(style: Style, name: string): Token { Word(if style.swapped then Lower(name) else name) }

  function FieldWord(style: Style, f: Field): Token {
    Word(if style.swapped then Upper(FieldName(f)) else FieldName(f))
  }

  function ValueToken(style: Style, v: string): Token { if style.bare && Bare(v) then Word(v) else Quoted(v) }

  function ListPieces(style: Style, vs: seq<string>, lead: string): seq<Piece>
    requires vs != []
  {
    if |vs| == 1 then [Piece(lead, ValueToken(style, vs[0])), Piece("", RParen)]
    else [Piece(lead, ValueToken(style, vs[0])), Piece("", Comma)] + ListPieces(style, vs[1..], Gap(style))
  }

  function ValuePieces(style: Style, f: Filter): seq<Piece>
    requires f.values != []
  {
    if f.op == In then [Piece(Gap(style), LParen)] + ListPieces(style, f.values, "")
    else [Piece(Gap(style), ValueToken(style, f.values[0]))]
  }

  function Head(style: Style, f: Filter, lead: string): seq<Piece> {
    [Piece(lead, FieldWord(style, f.field)), Piece(" ", if f.op == In then Keyword(style, "IN") else OpSign(f.op))]
  }

  function ClausePieces(style: Style, f: Filter, lead: string): seq<Piece>
    requires f.values != []
  {
    Head(style, f, lead) + ValuePieces(style, f)
  }

  function QueryPieces(style: Style, fs: seq<Filter>, lead: string): seq<Piece>
    requires fs != []
    requires forall k :: 0 <= k < |fs| ==> fs[k].values != []
  {
    if |fs| == 1 then ClausePieces(style, fs[0], lead)
    else ClausePieces(style, fs[0], lead) + ([Piece(" ", Keyword(style, "AND"))] + QueryPieces(style, fs[1..], " "))
  }

  function Print(style: Style, fs: seq<Filter>): string
    requires fs != []
    requires forall k :: 0 <= k < |fs| ==> fs[k].values != []
  {
    Render(QueryPieces(style, fs, ""))
  }

  // ---- What it prints is legible -------------------------------------------

  function Last(before: Option<Token>, pieces: seq<Piece>): Option<Token> {
    if pieces == [] then before else Some(pieces[|pieces| - 1].token)
  }

  lemma {:induction false} LegibleJoin(before: Option<Token>, a: seq<Piece>, b: seq<Piece>)
    requires Legible(before, a) && Legible(Last(before, a), b)
    ensures Legible(before, a + b)
    decreases |a|
  {
    hide Spellable, IsGap, Apart;
    if a == [] {
      assert a + b == b;
    } else {
      assert (a + b)[1..] == a[1..] + b;
      LegibleJoin(Some(a[0].token), a[1..], b);
    }
  }

  lemma Two(before: Option<Token>, p: Piece, q: Piece)
    requires Spellable(p.token) && IsGap(p.gap) && Apart(before, p)
    requires Spellable(q.token) && IsGap(q.gap) && Apart(Some(p.token), q)
    ensures Legible(before, [p, q])
  {
    assert [p, q][1..] == [q] && [q][1..] == [];
  }

  lemma GapsAreGaps(style: Style)
    ensures IsGap("") && IsGap(" ") && IsGap(Gap(style))
  {
    assert ' ' in WHITE_SPACE;
  }

  lemma {:induction false} ListLegible(style: Style, before: Token, vs: seq<string>, lead: string)
    requires IsGap(lead) && vs != [] && !before.Word? && forall k :: 0 <= k < |vs| ==> HasNoQuote(vs[k])
    ensures Legible(Some(before), ListPieces(style, vs, lead))
    decreases |vs|
  {
    GapsAreGaps(style);
    var value, sign := Piece(lead, ValueToken(style, vs[0])), Piece("", if |vs| == 1 then RParen else Comma);
    hide HasNoQuote, Bare;
    Two(Some(before), value, sign);
    if |vs| > 1 {
      ListLegible(style, Comma, vs[1..], Gap(style));
      LegibleJoin(Some(before), [value, sign], ListPieces(style, vs[1..], Gap(style)));
    }
  }

  predicate IsLetter(c: char) { 'a' <= c <= 'z' || 'A' <= c <= 'Z' }

  predicate AllLetters(w: string) { w != "" && forall i :: 0 <= i < |w| ==> IsLetter(w[i]) }

  lemma LetterIsPlain(c: char)
    requires IsLetter(c)
    ensures !Separates(c) && c !in {'=', '~', '!', '>', '<'}
  {
    SpacesAre(c);
  }

  lemma LettersBare(w: string)
    requires AllLetters(w)
    ensures Bare(w)
  {
    forall i | 0 <= i < |w| ensures !Separates(w[i]) {
      LetterIsPlain(w[i]);
    }
    LetterIsPlain(w[0]);
  }

  lemma CaseKeepsLetters(w: string)
    requires AllLetters(w)
    ensures AllLetters(Lower(w)) && AllLetters(Upper(w))
  {
  }

  lemma NamesAreLetters(f: Field)
    ensures AllLetters(FieldName(f)) && AllLetters("IN") && AllLetters("AND")
  {
  }

  lemma KeywordsBare(style: Style, f: Field)
    ensures Spellable(FieldWord(style, f)) && Spellable(Keyword(style, "IN")) && Spellable(Keyword(style, "AND"))
  {
    NamesAreLetters(f);
    hide Bare, AllLetters, Lower, Upper, FieldName;
    forall w | w in {"IN", "AND", FieldName(f)} ensures Bare(w) && Bare(Lower(w)) && Bare(Upper(w)) {
      CaseKeepsLetters(w);
      LettersBare(w);
      LettersBare(Lower(w));
      LettersBare(Upper(w));
    }
  }

  lemma ClauseLegible(style: Style, before: Option<Token>, f: Filter, lead: string)
    requires f.values != [] && forall k :: 0 <= k < |f.values| ==> HasNoQuote(f.values[k])
    requires IsGap(lead) && (before.Some? ==> lead != "")
    ensures Legible(before, ClausePieces(style, f, lead))
  {
    hide HasNoQuote, Bare;
    KeywordsBare(style, f.field);
    GapsAreGaps(style);
    var head := Head(style, f, lead);
    Two(before, head[0], head[1]);
    if f.op == In {
      ListLegible(style, LParen, f.values, "");
    }
    assert Legible(Last(before, head), ValuePieces(style, f));
    LegibleJoin(before, head, ValuePieces(style, f));
  }

  lemma {:induction false} QueryLegible(style: Style, before: Option<Token>, fs: seq<Filter>, lead: string)
    requires fs != [] && forall k :: 0 <= k < |fs| ==> fs[k].values != []
    requires forall k, m :: 0 <= k < |fs| && 0 <= m < |fs[k].values| ==> HasNoQuote(fs[k].values[m])
    requires IsGap(lead) && (before.Some? ==> lead != "")
    ensures Legible(before, QueryPieces(style, fs, lead))
    decreases |fs|
  {
    ClauseLegible(style, before, fs[0], lead);
    if |fs| > 1 {
      var clause, and := ClausePieces(style, fs[0], lead), Piece(" ", Keyword(style, "AND"));
      var rest := QueryPieces(style, fs[1..], " ");
      AndLegible(style, Last(before, clause), fs[0].field);
      QueryLegible(style, Some(and.token), fs[1..], " ");
      hide HasNoQuote, Legible, ClausePieces, Keyword, IsGap, Last;
      LegibleJoin(Last(before, clause), [and], rest);
      LegibleJoin(before, clause, [and] + rest);
    }
  }

  lemma AndLegible(style: Style, before: Option<Token>, f: Field)
    ensures var and := Piece(" ", Keyword(style, "AND"));
            Legible(before, [and]) && Last(before, [and]) == Some(and.token) && IsGap(" ")
  {
    KeywordsBare(style, f);
    GapsAreGaps(style);
  }

  // ---- And a sentence of the grammar ----------------------------------------

  /** `part` is what `ts` holds from position `i` on, for |part| tokens. */
  ghost predicate Holds(ts: seq<Token>, i: nat, part: seq<Token>) {
    i + |part| <= |ts| && forall k :: 0 <= k < |part| ==> ts[i + k] == part[k]
  }

  lemma HoldsConcat(ts: seq<Token>, i: nat, a: seq<Token>, b: seq<Token>)
    requires Holds(ts, i, a + b)
    ensures Holds(ts, i, a) && Holds(ts, i + |a|, b)
  {
    var c := a + b;
    forall k | 0 <= k < |a| ensures ts[i + k] == a[k] {
      assert c[k] == a[k];
    }
    forall k | 0 <= k < |b| ensures ts[i + |a| + k] == b[k] {
      assert c[|a| + k] == b[k];
      assert ts[i + (|a| + k)] == c[|a| + k];
    }
  }

  lemma HoldsOne(ts: seq<Token>, i: nat, t: Token)
    requires Holds(ts, i, [t])
    ensures i < |ts| && ts[i] == t
  {
    assert ts[i + 0] == [t][0];
  }

  lemma TokensJoin(a: seq<Piece>, b: seq<Piece>)
    ensures TokensOf(a + b) == TokensOf(a) + TokensOf(b)
  {
  }

  lemma {:induction false} ListDerives(style: Style, ts: seq<Token>, i: nat, f: Field, vs: seq<string>,
                                       lead: string, isDate: string -> bool)
    requires vs != [] && Holds(ts, i, TokensOf(ListPieces(style, vs, lead)))
    requires forall k :: 0 <= k < |vs| ==> Normalize(f, vs[k], isDate) == Ok(vs[k])
    ensures |ListPieces(style, vs, lead)| == 2 * |vs| && ListAt(ts, i, f, vs, isDate)
    decreases |vs|
  {
    hide Normalize, Bare, Gap;
    var value, sign := Piece(lead, ValueToken(style, vs[0])), Piece("", if |vs| == 1 then RParen else Comma);
    var rest := if |vs| == 1 then [] else ListPieces(style, vs[1..], Gap(style));
    assert ListPieces(style, vs, lead) == [value, sign] + rest;
    TokensJoin([value, sign], rest);
    assert TokensOf([value, sign]) == [value.token] + [sign.token];
    HoldsConcat(ts, i, TokensOf([value, sign]), TokensOf(rest));
    if |vs| > 1 {
      ListDerives(style, ts, i + 2, f, vs[1..], Gap(style), isDate);
    }
    HoldsConcat(ts, i, [value.token], [sign.token]);
    HoldsOne(ts, i, value.token);
    HoldsOne(ts, i + 1, sign.token);
  }

  lemma KeywordsFold(style: Style, f: Field)
    ensures Lower(FieldWord(style, f).text) == FieldName(f)
    ensures Lower(Keyword(style, "IN").text) == "in" && Lower(Keyword(style, "AND").text) == "and"
  {
    var name := FieldName(f);
    assert Lower(name) == name && Lower(Upper(name)) == name;
    assert Lower("IN") == "in" && Lower("AND") == "and" && Lower("in") == "in" && Lower("and") == "and";
  }

  lemma ValuesDerive(style: Style, ts: seq<Token>, i: nat, f: Filter, isDate: string -> bool)
    requires WellFormed(f, isDate) && Holds(ts, i, TokensOf(ValuePieces(style, f)))
    ensures 2 + |ValuePieces(style, f)| == ClauseLength(f)
    ensures if f.op == In then TokenAt(ts, i) == Some(LParen) && ListAt(ts, i + 1, f.field, f.values, isDate)
            else |f.values| == 1 && ValueAt(ts, i, f.field, f.values[0], isDate)
  {
    hide Holds, Gap, Bare;
    if f.op == In {
      var open := [Piece(Gap(style), LParen)];
      TokensJoin(open, ListPieces(style, f.values, ""));
      assert TokensOf(open) == [LParen];
      HoldsConcat(ts, i, [LParen], TokensOf(ListPieces(style, f.values, "")));
      HoldsOne(ts, i, LParen);
      ListDerives(style, ts, i + 1, f.field, f.values, "", isDate);
    } else {
      var value := ValueToken(style, f.values[0]);
      assert TokensOf(ValuePieces(style, f)) == [value];
      HoldsOne(ts, i, value);
    }
  }

  lemma ClauseDerives(style: Style, ts: seq<Token>, i: nat, f: Filter, lead: string, isDate: string -> bool)
    requires WellFormed(f, isDate)
    requires Holds(ts, i, TokensOf(ClausePieces(style, f, lead)))
    ensures |ClausePieces(style, f, lead)| == ClauseLength(f)
    ensures ClauseAt(ts, i, f, isDate)
  {
    KeywordsFold(style, f.field);
    var head := Head(style, f, lead);
    TokensJoin(head, ValuePieces(style, f));
    HoldsConcat(ts, i, TokensOf(head), TokensOf(ValuePieces(style, f)));
    assert ts[i + 0] == TokensOf(head)[0] && ts[i + 1] == TokensOf(head)[1];
    ValuesDerive(style, ts, i + 2, f, isDate);
    hide Holds, FieldWord, Keyword, ValuePieces, ListAt, ValueAt, TokensOf;
  }

  lemma {:induction false} QueryDerives(style: Style, ts: seq<Token>, i: nat, fs: seq<Filter>, lead: string,
                                        isDate: string -> bool)
    requires fs != [] && AllWellFormed(fs, isDate)
    requires Holds(ts, i, TokensOf(QueryPieces(style, fs, lead))) && i + |QueryPieces(style, fs, lead)| == |ts|
    ensures Derives(ts, i, fs, isDate)
    decreases |fs|
  {
    hide Normalize, ClauseAt, ClausePieces;
    if |fs| == 1 {
      ClauseDerives(style, ts, i, fs[0], lead, isDate);
    } else {
      var clause, and := ClausePieces(style, fs[0], lead), [Piece(" ", Keyword(style, "AND"))];
      var rest := QueryPieces(style, fs[1..], " ");
      TokensJoin(clause, and + rest);
      TokensJoin(and, rest);
      assert TokensOf(and) == [Keyword(style, "AND")];
      HoldsConcat(ts, i, TokensOf(clause), TokensOf(and) + TokensOf(rest));
      HoldsConcat(ts, i + |clause|, TokensOf(and), TokensOf(rest));
      HoldsOne(ts, i + |clause|, Keyword(style, "AND"));
      ClauseDerives(style, ts, i, fs[0], lead, isDate);
      QueryDerives(style, ts, i + |clause| + 1, fs[1..], " ", isDate);
      KeywordsFold(style, fs[0].field);
    }
  }

  // ---- Round trips ---------------------------------------------------------

  /** Round trip: parsing a filter list, printed in any style, gives the list back. */
  lemma ParsePrint(style: Style, fs: seq<Filter>, isDate: string -> bool)
    requires fs != [] && AllWellFormed(fs, isDate)
    ensures Parse(Print(style, fs), isDate) == Ok(fs)
  {
    var pieces := QueryPieces(style, fs, "");
    assert forall k, m :: 0 <= k < |fs| && 0 <= m < |fs[k].values| ==> Canonical(fs[k].field, fs[k].values[m], isDate);
    GapsAreGaps(style);
    QueryLegible(style, None, fs, "");
    hide QueryPieces, Legible, WellFormed, Derives, Render;
    QueryDerives(style, TokensOf(pieces), 0, fs, "", isDate);
    SpelledQueriesParse(pieces, "", fs, isDate);
    assert Render(pieces) + "" == Render(pieces);
  }

  /** Printing what was parsed and parsing it again changes nothing, for every
      query text that parses. */
  lemma ParsePrintParse(style: Style, s: string, isDate: string -> bool)
    requires Parse(s, isDate).Ok?
    ensures Parse(s, isDate).value != []
    ensures forall k :: 0 <= k < |Parse(s, isDate).value| ==> Parse(s, isDate).value[k].values != []
    ensures Parse(Print(style, Parse(s, isDate).value), isDate) == Parse(s, isDate)
  {
    AcceptedFiltersWellFormed(s, isDate);
    ParsePrint(style, Parse(s, isDate).value, isDate);
  }
}
