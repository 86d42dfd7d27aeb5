/** The prefix query that free text stands for, shared by the search box, the text
    filter and the search for similar issues. */
module SearchTerms {
  import opened Basics

  predicate IsTermChar(c: char) { 'a' <= c <= 'z' || '0' <= c <= '9' }

  /** The terms of a text already lower-cased: runs between spaces with every
      other character dropped, empty runs left out. `open` is the run in progress. */
  function Terms(s: string, open: string): seq<string>
    decreases |s|
  {
    if s == "" then (if open == "" then [] else [open])
    else if IsSpace(s[0]) then (if open == "" then [] else [open]) + Terms(s[1..], "")
    else Terms(s[1..], if IsTermChar(s[0]) then open + [s[0]] else open)
  }

  function JoinTerms(ts: seq<string>): string {
    if ts == [] then ""
    else if |ts| == 1 then ts[0] + ":*"
    else ts[0] + ":*" + " & " + JoinTerms(ts[1..])
  }

  function PrefixQuery(q: string): string { JoinTerms(Terms(Lower(q), "")) }

  // ---- What it is, by laws -------------------------------------------------

  /** The ASCII letters and digits of a text, in order and in lower case. */
  function Kept(s: string): string {
    if s == "" then ""
    else
      (if 'a' <= s[0] <= 'z' || '0' <= s[0] <= '9' then [s[0]]
       else if 'A' <= s[0] <= 'Z' then [(s[0] as int - 'A' as int + 'a' as int) as char]
       else "") + Kept(s[1..])
  }

  predicate Spaceless(s: string) { forall i :: 0 <= i < |s| ==> s[i] !in WHITE_SPACE }

  /** Two queries that both have to hold; an empty one asks for nothing. */
  function Conjoined(a: string, b: string): string {
    if a == "" then b else if b == "" then a else a + " & " + b
  }

  /** What a function from texts to queries does with a stretch without space, and
      with a text that has a space somewhere. */
  ghost predicate QueryLaws(query: string -> string) {
    && (forall w :: Spaceless(w) ==> query(w) == if Kept(w) == "" then "" else Kept(w) + ":*")
    && (forall a: string, c: char, b: string :: c in WHITE_SPACE ==>
        query(a + [c] + b) == Conjoined(query(a), query(b)))
  }

  lemma KeptIsLower(c: char)
    ensures Kept([c]) == if IsTermChar(LowerChar(c)) then [LowerChar(c)] else ""
    ensures IsSpace(LowerChar(c)) <==> IsSpace(c)
  {
    assert [c][1..] == "" && Kept("") == "";
  }

  lemma StretchStep(w: string, open: string)
    requires w != "" && w[0] !in WHITE_SPACE
    ensures Terms(Lower(w), open) == Terms(Lower(w[1..]), open + Kept([w[0]]))
    ensures Kept(w) == Kept([w[0]]) + Kept(w[1..])
  {
    SpacesAre(w[0]);
    KeptIsLower(w[0]);
    assert Lower(w)[1..] == Lower(w[1..]) && Lower(w)[0] == LowerChar(w[0]);
    assert open + "" == open;
    KeptStep(w);
    hide Kept, IsSpace, IsTermChar, LowerChar;
  }

  lemma KeptStep(w: string)
    requires w != ""
    ensures Kept(w) == Kept([w[0]]) + Kept(w[1..])
  {
    assert [w[0]][1..] == "" && Kept("") == "";
  }

  lemma {:induction false} StretchIsOneTerm(w: string, open: string)
    requires Spaceless(w)
    ensures Terms(Lower(w), open) == if open + Kept(w) == "" then [] else [open + Kept(w)]
    decreases |w|
  {
    if w != "" {
      StretchStep(w, open);
      hide Kept, Terms;
      StretchIsOneTerm(w[1..], open + Kept([w[0]]));
      assert (open + Kept([w[0]])) + Kept(w[1..]) == open + Kept(w);
    } else {
      assert Lower(w) == "" && open + "" == open;
    }
  }

  lemma {:induction false} SpaceSplits(a: string, c: char, b: string, open: string)
    requires c in WHITE_SPACE
    ensures Terms(Lower(a + [c] + b), open) == Terms(Lower(a), open) + Terms(Lower(b), "")
    decreases |a|
  {
    var s := a + [c] + b;
    if a == "" {
      SpacesAre(c);
      assert LowerChar(c) == c;
      assert Lower(s)[0] == c && Lower(s)[1..] == Lower(b);
      assert Lower(a) == "";
    } else {
      assert s[1..] == a[1..] + [c] + b;
      assert Lower(s)[1..] == Lower(s[1..]) && Lower(a)[1..] == Lower(a[1..]) && Lower(s)[0] == Lower(a)[0];
      var l := LowerChar(a[0]);
      SpaceSplits(a[1..], c, b, if IsSpace(l) then "" else if IsTermChar(l) then open + [l] else open);
    }
  }

  lemma {:induction false} JoinConcat(a: seq<string>, b: seq<string>)
    ensures JoinTerms(a + b) == Conjoined(JoinTerms(a), JoinTerms(b))
    decreases |a|
  {
    if a == [] {
      assert a + b == b;
    } else if b == [] {
      assert a + b == a;
    } else {
      assert (a + b)[1..] == a[1..] + b;
      JoinConcat(a[1..], b);
      if |a| > 1 {
        assert a[0] + ":*" + " & " + (JoinTerms(a[1..]) + " & " + JoinTerms(b)) == JoinTerms(a) + " & " + JoinTerms(b);
      }
    }
  }

  /** A stretch without space stands for the prefix of its letters and digits, and a
      space between two texts for both their queries together. */
  lemma PrefixQueryLaws()
    ensures QueryLaws(PrefixQuery)
  {
    forall w | Spaceless(w) ensures PrefixQuery(w) == if Kept(w) == "" then "" else Kept(w) + ":*" {
      StretchIsOneTerm(w, "");
      assert "" + Kept(w) == Kept(w);
    }
    forall a: string, c: char, b: string | c in WHITE_SPACE
      ensures PrefixQuery(a + [c] + b) == Conjoined(PrefixQuery(a), PrefixQuery(b))
    {
      SpaceSplits(a, c, b, "");
      JoinConcat(Terms(Lower(a), ""), Terms(Lower(b), ""));
    }
  }

  lemma StretchLaw(query: string -> string, w: string)
    requires QueryLaws(query) && Spaceless(w)
    ensures query(w) == if Kept(w) == "" then "" else Kept(w) + ":*"
  {
  }

  lemma SpaceLaw(query: string -> string, a: string, c: char, b: string)
    requires QueryLaws(query) && c in WHITE_SPACE
    ensures query(a + [c] + b) == Conjoined(query(a), query(b))
  {
  }

  /** The laws leave no choice: whatever obeys them is the prefix query. */
  lemma {:induction false} QueryLawsDetermine(query: string -> string, q: string)
    requires QueryLaws(query)
    ensures query(q) == PrefixQuery(q)
    decreases |q|
  {
    PrefixQueryLaws();
    hide PrefixQuery, Kept, QueryLaws, Conjoined;
    if i :| 0 <= i < |q| && q[i] in WHITE_SPACE {
      var a, c, b := q[..i], q[i], q[i + 1..];
      assert q == a + [c] + b;
      QueryLawsDetermine(query, a);
      QueryLawsDetermine(query, b);
      SpaceLaw(query, a, c, b);
      SpaceLaw(PrefixQuery, a, c, b);
    } else {
      assert Spaceless(q);
      StretchLaw(query, q);
      StretchLaw(PrefixQuery, q);
    }
  }

  lemma NothingToConjoin(a: string)
    ensures Conjoined("", a) == a && Conjoined(a, "") == a
  {
  }

  /** Space around a text is ignored. */
  lemma OuterSpaceIgnored(q: string, c: char)
    requires c in WHITE_SPACE
    ensures PrefixQuery([c] + q) == PrefixQuery(q) && PrefixQuery(q + [c]) == PrefixQuery(q)
  {
    PrefixQueryLaws();
    EmptyQuery();
    hide *;
    assert ("" + [c]) + q == [c] + q;
    assert (q + [c]) + "" == q + [c];
    SpaceLaw(PrefixQuery, "", c, q);
    SpaceLaw(PrefixQuery, q, c, "");
    NothingToConjoin(PrefixQuery(q));
  }

  lemma EmptyQuery()
    ensures PrefixQuery("") == ""
  {
    assert Lower("") == "";
  }
}
