/** The LIKE matching of PostgreSQL with its default escape character, and the
    escaping the search code applies before it wraps a term in '%'. */
module Like {
  import opened Basics

  predicate IsMeta(c: char) { c == '\\' || c == '%' || c == '_' }

  predicate HasNoMeta(s: string) {
    forall i :: 0 <= i < |s| ==> !IsMeta(s[i])
  }

  /** `text LIKE pattern`. */
  predicate Matches(text: string, pattern: string)
    decreases |pattern|, |text|
  {
    if pattern == "" then
      text == ""
    else if pattern[0] == '%' then
      Matches(text, pattern[1..]) || (text != "" && Matches(text[1..], pattern))
    else if text == "" then
      false
    else if pattern[0] == '_' then
      Matches(text[1..], pattern[1..])
    else if pattern[0] == '\\' && |pattern| > 1 then
      text[0] == pattern[1] && Matches(text[1..], pattern[2..])
    else
      text[0] == pattern[0] && Matches(text[1..], pattern[1..])
  }

  /** `text ILIKE pattern`: case folding leaves the three metacharacters alone. */
  predicate MatchesFold(text: string, pattern: string) {
    Matches(Lower(text), Lower(pattern))
  }

  /** Puts a backslash in front of every metacharacter. */
  function Escape(raw: string): string {
    if raw == "" then ""
    else (if IsMeta(raw[0]) then ['\\', raw[0]] else [raw[0]]) + Escape(raw[1..])
  }

  function Wrap(s: string): string { "%" + s + "%" }

  lemma {:induction false} PercentMatchesAll(text: string)
    ensures Matches(text, "%")
  {
    if text != "" {
      PercentMatchesAll(text[1..]);
    }
    assert "%"[1..] == "";
  }

  lemma {:induction false} LeadingPercent(text: string, rest: string)
    ensures Matches(text, "%" + rest)
       <==> exists i :: 0 <= i <= |text| && Matches(text[i..], rest)
  {
    var p := "%" + rest;
    assert p[1..] == rest;
    assert text[0..] == text;
    if text != "" {
      LeadingPercent(text[1..], rest);
      if Matches(text[1..], p) {
        var i :| 0 <= i <= |text[1..]| && Matches(text[1..][i..], rest);
        assert text[1..][i..] == text[i + 1..];
      }
      if i :| 0 < i <= |text| && Matches(text[i..], rest) {
        assert text[1..][i - 1..] == text[i..];
      }
    }
  }

  lemma {:induction false} EscapedPrefix(text: string, raw: string, rest: string)
    ensures Matches(text, Escape(raw) + rest)
       <==> |raw| <= |text| && text[..|raw|] == raw && Matches(text[|raw|..], rest)
  {
    if raw == "" {
      assert Escape(raw) + rest == rest;
      assert text[0..] == text;
    } else {
      var p := Escape(raw) + rest;
      var tail := Escape(raw[1..]) + rest;
      if IsMeta(raw[0]) {
        assert p == ['\\', raw[0]] + tail;
        assert p[2..] == tail;
      } else {
        assert p == [raw[0]] + tail;
        assert p[1..] == tail;
      }
      if text != "" {
        EscapedPrefix(text[1..], raw[1..], rest);
        assert Matches(text, p) <==> text[0] == raw[0] && Matches(text[1..], tail);
        if |raw| <= |text| {
          assert text[1..][|raw[1..]|..] == text[|raw|..];
          assert text[..|raw|] == [text[0]] + text[1..][..|raw[1..]|];
          assert raw == [raw[0]] + raw[1..];
        }
      }
    }
  }

  /** Escaping is exact: the wrapped, escaped term matches precisely the texts
      that contain the term, for every term and every text. */
  lemma EscapedMatchesOccurrences(text: string, raw: string)
    ensures Matches(text, Wrap(Escape(raw))) <==> Occurs(raw, text)
  {
    assert Wrap(Escape(raw)) == "%" + (Escape(raw) + "%");
    LeadingPercent(text, Escape(raw) + "%");
    forall i | 0 <= i <= |text|
      ensures Matches(text[i..], Escape(raw) + "%")
         <==> OccursAt(raw, text, i)
    {
      EscapedPrefix(text[i..], raw, "%");
      if |raw| <= |text[i..]| {
        PercentMatchesAll(text[i..][|raw|..]);
        assert text[i..][..|raw|] == text[i..i + |raw|];
      }
    }
  }

  lemma {:induction false} LowerEscape(raw: string)
    ensures Lower(Escape(raw)) == Escape(Lower(raw))
  {
    if raw != "" {
      LowerEscape(raw[1..]);
      var head := if IsMeta(raw[0]) then ['\\', raw[0]] else [raw[0]];
      assert Lower(raw)[1..] == Lower(raw[1..]);
      LowerConcat(head, Escape(raw[1..]));
    }
  }

  lemma LowerWrap(s: string)
    ensures Lower(Wrap(s)) == Wrap(Lower(s))
  {
  }

  /** The same, letter case aside: what ILIKE does with an escaped term. */
  lemma EscapedMatchesOccurrencesFold(text: string, raw: string)
    ensures MatchesFold(text, Wrap(Escape(raw))) <==> OccursFold(raw, text)
  {
    LowerWrap(Escape(raw));
    LowerEscape(raw);
    EscapedMatchesOccurrences(Lower(text), Lower(raw));
  }

  // ---- Terms that are wrapped but not escaped ------------------------------

  /** A text the pattern `raw` matches although it is not `raw` itself, unless
      `raw` has no metacharacter. */
  function Instance(raw: string): string {
    if raw == "" then ""
    else if raw[0] == '%' then Instance(raw[1..])
    else if raw[0] == '_' then "x" + Instance(raw[1..])
    else if raw[0] == '\\' && |raw| > 1 then [raw[1]] + Instance(raw[2..])
    else if raw[0] == '\\' then "%"
    else [raw[0]] + Instance(raw[1..])
  }

  lemma {:induction false} InstanceMatches(raw: string)
    ensures Matches(Instance(raw), raw + "%")
  {
    if raw == "" {
      assert raw + "%" == "%";
      PercentMatchesAll(Instance(raw));
    } else if raw[0] == '\\' && |raw| > 1 {
      InstanceMatches(raw[2..]);
      assert (raw + "%")[2..] == raw[2..] + "%";
      assert Instance(raw)[1..] == Instance(raw[2..]);
    } else if raw[0] == '\\' {
      assert raw + "%" == "\\%";
      assert "\\%"[2..] == "" && "%"[1..] == "";
    } else {
      InstanceMatches(raw[1..]);
      assert (raw + "%")[1..] == raw[1..] + "%";
      if raw[0] != '%' {
        assert Instance(raw)[1..] == Instance(raw[1..]);
      }
    }
  }

  lemma {:induction false} InstanceDiffers(raw: string)
    ensures |Instance(raw)| <= |raw|
    ensures Instance(raw) == raw ==> HasNoMeta(raw)
  {
    if raw == "" {
    } else if raw[0] == '\\' && |raw| > 1 {
      InstanceDiffers(raw[2..]);
    } else if raw[0] == '\\' {
    } else {
      InstanceDiffers(raw[1..]);
      if raw[0] != '%' && Instance(raw) == raw {
        assert Instance(raw)[1..] == Instance(raw[1..]);
        assert forall i :: 0 < i < |raw| ==> raw[i] == raw[1..][i - 1];
      }
    }
  }

  lemma {:induction false} EscapeWithoutMeta(raw: string)
    requires HasNoMeta(raw)
    ensures Escape(raw) == raw
  {
    if raw != "" {
      EscapeWithoutMeta(raw[1..]);
    }
  }

  lemma {:induction false} InstanceOfLower(raw: string)
    requires Lower(raw) == raw
    ensures Lower(Instance(raw)) == Instance(raw)
  {
    if raw == "" {
    } else {
      assert LowerChar(raw[0]) == raw[0];
      if raw[0] == '\\' && |raw| > 1 {
        assert LowerChar(raw[1]) == raw[1];
        assert forall i :: 2 <= i < |raw| ==> LowerChar(raw[i]) == raw[i];
        assert Lower(raw[2..]) == raw[2..];
        InstanceOfLower(raw[2..]);
      } else {
        assert forall i :: 1 <= i < |raw| ==> LowerChar(raw[i]) == raw[i];
        assert Lower(raw[1..]) == raw[1..];
        InstanceOfLower(raw[1..]);
      }
    }
  }

  ghost predicate WrapsExactly(raw: string) {
    forall text :: MatchesFold(text, Wrap(raw)) <==> OccursFold(raw, text)
  }

  /** A term wrapped WITHOUT escaping reads as "contains" exactly when it has no
      metacharacter. */
  lemma UnescapedIsExactIffNoMeta(raw: string)
    ensures WrapsExactly(raw) <==> HasNoMeta(raw)
  {
    if HasNoMeta(raw) {
      EscapeWithoutMeta(raw);
      forall text ensures MatchesFold(text, Wrap(raw)) <==> OccursFold(raw, text) {
        EscapedMatchesOccurrencesFold(text, raw);
      }
    } else {
      var low := Lower(raw);
      var text := Instance(low);
      LowerIdempotent(raw);
      InstanceOfLower(low);
      InstanceMatches(low);
      InstanceDiffers(low);
      LowerWrap(raw);
      assert Wrap(low) == "%" + (low + "%");
      LeadingPercent(text, low + "%");
      assert text[0..] == text;
      assert MatchesFold(text, Wrap(raw));
      var k :| 0 <= k < |raw| && IsMeta(raw[k]);
      assert IsMeta(low[k]);
      assert forall i :: 0 <= i <= |text| && OccursAt(low, text, i) ==> text[i..i + |low|] == text;
      assert !OccursFold(raw, text);
    }
  }
}
