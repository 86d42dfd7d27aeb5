/** What the tokenizer of the filter language does to a text: one law for each kind
    of lexeme, which together leave no other answer; and that every spelling of a
    list of tokens reads back as that list. */
module JqlTokens {
  import opened Basics
  import opened JqlSyntax

  predicate HasNoQuote(s: string) {
    forall i :: 0 <= i < |s| ==> s[i] != '"'
  }

  function Quote(v: string): string { "\"" + v + "\"" }

  // ---- The laws ------------------------------------------------------------

  /** The characters that end an unquoted value. */
  predicate Separates(c: char) {
    c == '(' || c == ')' || c == ',' || c == '"' || c in WHITE_SPACE
  }

  predicate StartsWithSign(s: string) {
    "=" <= s || "~" <= s || "!=" <= s || ">=" <= s || "<=" <= s
  }

  /** A value that can be written without quotes. */
  predicate Bare(w: string) {
    w != "" && !StartsWithSign(w) && forall i :: 0 <= i < |w| ==> !Separates(w[i])
  }

  /** Nothing, or a character that ends an unquoted value. */
  predicate Ends(rest: string) { rest == "" || Separates(rest[0]) }

  /** What a function from texts to tokens does with each kind of lexeme. */
  ghost predicate LexingLaws(lex: string -> seq<Token>) {
    && lex("") == []
    && (forall c: char, rest :: c in WHITE_SPACE ==> lex([c] + rest) == lex(rest))
    && (forall w: string, rest :: Bare(w) && Ends(rest) ==> lex(w + rest) == [Word(w)] + lex(rest))
    && (forall v, rest :: HasNoQuote(v) ==> lex(Quote(v) + rest) == [Quoted(v)] + lex(rest))
    && (forall rest :: HasNoQuote(rest) ==> lex("\"" + rest) == lex(rest))
    && (forall rest :: lex("=" + rest) == [OpSign(Eq)] + lex(rest))
    && (forall rest :: lex("~" + rest) == [OpSign(Tilde)] + lex(rest))
    && (forall rest :: lex("!=" + rest) == [OpSign(Neq)] + lex(rest))
    && (forall rest :: lex(">=" + rest) == [OpSign(Ge)] + lex(rest))
    && (forall rest :: lex("<=" + rest) == [OpSign(Le)] + lex(rest))
    && (forall rest :: lex("(" + rest) == [LParen] + lex(rest))
    && (forall rest :: lex(")" + rest) == [RParen] + lex(rest))
    && (forall rest :: lex("," + rest) == [Comma] + lex(rest))
  }

  // ---- The tokenizer obeys them --------------------------------------------

  /** One lexeme at the front of a text. */
  ghost predicate Starts(s: string, t: Option<Token>, rest: string) {
    s != "" && Lexeme(s).0 == t && s[Lexeme(s).1..] == rest
  }

  lemma LexemeStep(s: string, t: Option<Token>, rest: string)
    requires Starts(s, t, rest)
    ensures Tokens(s) == Emit(t) + Tokens(rest)
  {
  }

  lemma WordCharsAre(c: char)
    ensures IsWordChar(c) <==> !Separates(c)
  {
    SpacesAre(c);
  }

  lemma {:induction false} WordLengthOf(w: string, rest: string)
    requires (forall i :: 0 <= i < |w| ==> !Separates(w[i])) && Ends(rest)
    ensures WordLength(w + rest) == |w|
  {
    hide Separates, IsWordChar;
    if w == "" {
      assert w + rest == rest;
      if rest != "" {
        WordCharsAre(rest[0]);
      }
    } else {
      WordCharsAre(w[0]);
      assert (w + rest)[0] == w[0] && (w + rest)[1..] == w[1..] + rest;
      WordLengthOf(w[1..], rest);
    }
  }

  /** The characters a word of its own can start with. */
  lemma FirstOfBare(w: string)
    requires Bare(w)
    ensures IsWordChar(w[0]) && w[0] != '=' && w[0] != '~'
    ensures |w| > 1 && w[1] == '=' ==> w[0] != '!' && w[0] != '>' && w[0] != '<'
  {
    WordCharsAre(w[0]);
    assert |w| > 1 ==> w[..2] == [w[0], w[1]];
  }

  lemma WordStarts(w: string, rest: string)
    requires Bare(w) && Ends(rest)
    ensures Starts(w + rest, Some(Word(w)), rest)
  {
    var s := w + rest;
    WordLengthOf(w, rest);
    FirstOfBare(w);
    assert s[..|w|] == w && s[|w|..] == rest;
    assert s[0] == w[0];
    if |w| == 1 && rest != "" {
      assert s[1] == rest[0] && !Separates(s[0]);
    }
    hide Bare, Ends, Separates, WordLength;
  }

  lemma {:induction false} FirstQuoteAt(v: string, rest: string)
    requires HasNoQuote(v)
    ensures FirstQuote(v + "\"" + rest) == Some(|v|)
  {
    if v == "" {
    } else {
      assert (v + "\"" + rest)[1..] == v[1..] + "\"" + rest;
      FirstQuoteAt(v[1..], rest);
    }
  }

  lemma QuotedStarts(v: string, rest: string)
    requires HasNoQuote(v)
    ensures Starts(Quote(v) + rest, Some(Quoted(v)), rest)
  {
    var s := Quote(v) + rest;
    assert s[1..] == v + "\"" + rest;
    FirstQuoteAt(v, rest);
    assert s[1..|v| + 1] == v;
    assert s[|v| + 2..] == rest;
  }

  lemma OpenQuoteStarts(rest: string)
    requires HasNoQuote(rest)
    ensures Starts("\"" + rest, None, rest)
  {
    assert ("\"" + rest)[1..] == rest;
  }

  lemma SpaceStarts(c: char, rest: string)
    requires c in WHITE_SPACE
    ensures Starts([c] + rest, None, rest)
  {
    SpacesAre(c);
  }

  /** The signs, and the token each of them is. */
  predicate IsSign(sign: string, t: Token) {
    match t
    case OpSign(Eq) => sign == "="
    case OpSign(Tilde) => sign == "~"
    case OpSign(Neq) => sign == "!="
    case OpSign(Ge) => sign == ">="
    case OpSign(Le) => sign == "<="
    case LParen => sign == "("
    case RParen => sign == ")"
    case Comma => sign == ","
    case _ => false
  }

  lemma SignStarts(sign: string, t: Token, rest: string)
    requires IsSign(sign, t)
    ensures Starts(sign + rest, Some(t), rest)
  {
  }

  lemma SignLexes(sign: string, t: Token, rest: string)
    requires IsSign(sign, t)
    ensures Tokens(sign + rest) == [t] + Tokens(rest)
  {
    SignStarts(sign, t, rest);
    LexemeStep(sign + rest, Some(t), rest);
  }

  lemma TokenizerObeysLaws()
    ensures LexingLaws(Tokens)
  {
    hide Tokens, Bare, Ends, Starts, IsSign, HasNoQuote;
    assert Tokens("") == [] by { NoTokens(); }
    forall c: char, rest | c in WHITE_SPACE ensures Tokens([c] + rest) == Tokens(rest) {
      SpaceStarts(c, rest);
      LexemeStep([c] + rest, None, rest);
    }
    forall w: string, rest | Bare(w) && Ends(rest) ensures Tokens(w + rest) == [Word(w)] + Tokens(rest) {
      WordStarts(w, rest);
      LexemeStep(w + rest, Some(Word(w)), rest);
    }
    forall v, rest | HasNoQuote(v) ensures Tokens(Quote(v) + rest) == [Quoted(v)] + Tokens(rest) {
      QuotedStarts(v, rest);
      LexemeStep(Quote(v) + rest, Some(Quoted(v)), rest);
    }
    forall rest | HasNoQuote(rest) ensures Tokens("\"" + rest) == Tokens(rest) {
      OpenQuoteStarts(rest);
      LexemeStep("\"" + rest, None, rest);
    }
    SignsObeyLaws();
  }

  lemma NoTokens()
    ensures Tokens("") == []
  {
  }

  lemma SignsObeyLaws()
    ensures forall rest :: Tokens("=" + rest) == [OpSign(Eq)] + Tokens(rest)
    ensures forall rest :: Tokens("~" + rest) == [OpSign(Tilde)] + Tokens(rest)
    ensures forall rest :: Tokens("!=" + rest) == [OpSign(Neq)] + Tokens(rest)
    ensures forall rest :: Tokens(">=" + rest) == [OpSign(Ge)] + Tokens(rest)
    ensures forall rest :: Tokens("<=" + rest) == [OpSign(Le)] + Tokens(rest)
    ensures forall rest :: Tokens("(" + rest) == [LParen] + Tokens(rest)
    ensures forall rest :: Tokens(")" + rest) == [RParen] + Tokens(rest)
    ensures forall rest :: Tokens("," + rest) == [Comma] + Tokens(rest)
  {
    hide Tokens;
    forall rest ensures Tokens("=" + rest) == [OpSign(Eq)] + Tokens(rest) { SignLexes("=", OpSign(Eq), rest); }
    forall rest ensures Tokens("~" + rest) == [OpSign(Tilde)] + Tokens(rest) { SignLexes("~", OpSign(Tilde), rest); }
    forall rest ensures Tokens("!=" + rest) == [OpSign(Neq)] + Tokens(rest) { SignLexes("!=", OpSign(Neq), rest); }
    forall rest ensures Tokens(">=" + rest) == [OpSign(Ge)] + Tokens(rest) { SignLexes(">=", OpSign(Ge), rest); }
    forall rest ensures Tokens("<=" + rest) == [OpSign(Le)] + Tokens(rest) { SignLexes("<=", OpSign(Le), rest); }
    forall rest ensures Tokens("(" + rest) == [LParen] + Tokens(rest) { SignLexes("(", LParen, rest); }
    forall rest ensures Tokens(")" + rest) == [RParen] + Tokens(rest) { SignLexes(")", RParen, rest); }
    forall rest ensures Tokens("," + rest) == [Comma] + Tokens(rest) { SignLexes(",", Comma, rest); }
  }

  // ---- Nothing else does ---------------------------------------------------

  /** The lexeme a text starts with: what it is, and the law that reads it. */
  lemma LawAtTheFront(lex: string -> seq<Token>, s: string)
    requires LexingLaws(lex) && s != ""
    ensures lex(s) == Emit(Lexeme(s).0) + lex(s[Lexeme(s).1..])
  {
    SpacesAre(s[0]);
    if s[0] == '"' {
      QuoteAtTheFront(lex, s);
    } else if |s| > 1 && s[1] == '=' && s[0] in {'!', '>', '<'} {
      assert s == s[..2] + s[2..];
      assert s[..2] == [s[0], '='];
    } else if s[0] in {'=', '~', '(', ')', ','} {
      assert s == [s[0]] + s[1..];
      assert [s[0]] in {"=", "~", "(", ")", ","};
    } else if IsSpace(s[0]) {
      assert s == [s[0]] + s[1..];
    } else {
      WordAtTheFront(lex, s);
    }
  }

  lemma QuoteAtTheFront(lex: string -> seq<Token>, s: string)
    requires LexingLaws(lex) && s != "" && s[0] == '"'
    ensures lex(s) == Emit(Lexeme(s).0) + lex(s[Lexeme(s).1..])
  {
    match FirstQuote(s[1..])
    case Some(k) => QuotedFront(s, k);
    case None => assert s == "\"" + s[1..];
  }

  lemma QuotedFront(s: string, k: nat)
    requires s != "" && s[0] == '"' && FirstQuote(s[1..]) == Some(k)
    ensures k + 2 <= |s| && HasNoQuote(s[1..k + 1]) && s == Quote(s[1..k + 1]) + s[k + 2..]
  {
    var v := s[1..k + 1];
    forall i | 0 <= i < |v| ensures v[i] != '"' {
      assert v[i] == s[1..][i];
    }
    assert s[k + 1] == s[1..][k];
  }

  lemma WordAtTheFront(lex: string -> seq<Token>, s: string)
    requires LexingLaws(lex) && s != "" && IsWordChar(s[0]) && s[0] != '=' && s[0] != '~'
    requires |s| > 1 && s[1] == '=' ==> s[0] !in {'!', '>', '<'}
    ensures lex(s) == Emit(Lexeme(s).0) + lex(s[Lexeme(s).1..])
  {
    var n := WordLength(s);
    var w, rest := s[..n], s[n..];
    assert s == w + rest;
    assert n > 0;
    forall i | 0 <= i < n ensures !Separates(w[i]) {
      WordCharsAre(s[i]);
    }
    if n < |s| {
      WordCharsAre(s[n]);
      assert rest[0] == s[n];
    }
    assert Bare(w) && Ends(rest);
  }

  /** The laws leave no choice: whatever obeys them is the tokenizer. */
  lemma {:induction false} LawsDetermine(lex: string -> seq<Token>, s: string)
    requires LexingLaws(lex)
    ensures lex(s) == Tokens(s)
    decreases |s|
  {
    if s != "" {
      LawAtTheFront(lex, s);
      hide LexingLaws;
      LawsDetermine(lex, s[Lexeme(s).1..]);
    }
  }

  // ---- Every spelling reads back -------------------------------------------

  /** A token, and the white space written before it. */
  datatype Piece = Piece(gap: string, token: Token)

  predicate IsGap(gap: string) { forall i :: 0 <= i < |gap| ==> gap[i] in WHITE_SPACE }

  predicate Spellable(t: Token) {
    match t
    case Word(w) => Bare(w)
    case Quoted(v) => HasNoQuote(v)
    case OpSign(op) => op != In
    case _ => true
  }

  function OpText(op: JqlOp): string {
    match op
    case Eq => "="
    case Neq => "!="
    case Tilde => "~"
    case Ge => ">="
    case Le => "<="
    case In => "IN"
  }

  function Spelling(t: Token): string {
    match t
    case Word(w) => w
    case Quoted(v) => Quote(v)
    case OpSign(op) => OpText(op)
    case LParen => "("
    case RParen => ")"
    case Comma => ","
  }

  /** An unquoted word has to be kept apart from a word or sign after it. */
  predicate Apart(before: Option<Token>, p: Piece) {
    before.Some? && before.value.Word? && (p.token.Word? || p.token.OpSign?) ==> p.gap != ""
  }

  /** A way to write tokens down after the token `before`. */
  predicate Legible(before: Option<Token>, pieces: seq<Piece>)
    decreases |pieces|
  {
    pieces == [] ||
    (&& Spellable(pieces[0].token) && IsGap(pieces[0].gap) && Apart(before, pieces[0])
     && Legible(Some(pieces[0].token), pieces[1..]))
  }

  function Render(pieces: seq<Piece>): string {
    if pieces == [] then "" else pieces[0].gap + Spelling(pieces[0].token) + Render(pieces[1..])
  }

  function TokensOf(pieces: seq<Piece>): (ts: seq<Token>)
    ensures |ts| == |pieces| && forall k :: 0 <= k < |ts| ==> ts[k] == pieces[k].token
  {
    seq(|pieces|, k requires 0 <= k < |pieces| => pieces[k].token)
  }

  lemma {:induction false} GapSkipped(gap: string, rest: string)
    requires IsGap(gap)
    ensures Tokens(gap + rest) == Tokens(rest)
  {
    if gap == "" {
      assert gap + rest == rest;
    } else {
      assert gap + rest == [gap[0]] + (gap[1..] + rest);
      SpaceStarts(gap[0], gap[1..] + rest);
      LexemeStep(gap + rest, None, gap[1..] + rest);
      GapSkipped(gap[1..], rest);
    }
  }

  /** What is written after a word that stands before `pieces` ends it. */
  lemma NextEnds(t: Token, pieces: seq<Piece>, tail: string)
    requires t.Word? && Legible(Some(t), pieces) && IsGap(tail)
    ensures Ends(Render(pieces) + tail)
  {
    if pieces == [] {
      assert Render(pieces) + tail == tail;
    } else {
      var p := pieces[0];
      assert p.gap != "" ==> (Render(pieces) + tail)[0] == p.gap[0];
      assert p.gap == "" ==> p.token.Quoted? || p.token.LParen? || p.token.RParen? || p.token.Comma?;
      assert p.gap == "" ==> (Render(pieces) + tail)[0] == Spelling(p.token)[0];
    }
  }

  lemma TokenReads(t: Token, rest: string)
    requires Spellable(t) && (t.Word? ==> Ends(rest))
    ensures Tokens(Spelling(t) + rest) == [t] + Tokens(rest)
  {
    hide Tokens;
    match t
    case Word(w) =>
      WordStarts(w, rest);
      LexemeStep(w + rest, Some(t), rest);
    case Quoted(v) =>
      QuotedStarts(v, rest);
      LexemeStep(Quote(v) + rest, Some(t), rest);
    case _ => SignLexes(Spelling(t), t, rest);
  }

  lemma PieceReads(p: Piece, rest: string)
    requires Spellable(p.token) && IsGap(p.gap) && (p.token.Word? ==> Ends(rest))
    ensures Tokens(p.gap + Spelling(p.token) + rest) == [p.token] + Tokens(rest)
  {
    assert p.gap + Spelling(p.token) + rest == p.gap + (Spelling(p.token) + rest);
    hide Tokens, Spelling, Spellable, Ends, IsGap;
    GapSkipped(p.gap, Spelling(p.token) + rest);
    TokenReads(p.token, rest);
  }

  lemma RenderFront(pieces: seq<Piece>, tail: string)
    requires pieces != []
    ensures Render(pieces) + tail == pieces[0].gap + Spelling(pieces[0].token) + (Render(pieces[1..]) + tail)
  {
    hide Spelling;
  }

  /** However tokens are written down, with whatever white space between them and
      after them, the tokenizer reads them back. */
  lemma {:induction false} SpellingsReadBack(before: Option<Token>, pieces: seq<Piece>, tail: string)
    requires Legible(before, pieces) && IsGap(tail)
    ensures Tokens(Render(pieces) + tail) == TokensOf(pieces)
    decreases |pieces|
  {
    hide Tokens, Spelling, Spellable, Ends, IsGap, Render, Apart;
    if pieces == [] {
      assert Render(pieces) + tail == tail + "" by { RenderNothing(pieces); }
      GapSkipped(tail, "");
      NoTokens();
    } else {
      var p, more := pieces[0], pieces[1..];
      RenderFront(pieces, tail);
      if p.token.Word? {
        NextEnds(p.token, more, tail);
      }
      PieceReads(p, Render(more) + tail);
      SpellingsReadBack(Some(p.token), more, tail);
      assert TokensOf(pieces) == [p.token] + TokensOf(more);
    }
  }

  lemma RenderNothing(pieces: seq<Piece>)
    requires pieces == []
    ensures Render(pieces) == ""
  {
  }
}
