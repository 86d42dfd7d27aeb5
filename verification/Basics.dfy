/** Vocabulary shared by every component: optional values, results with an
    error side, and the ASCII text operations the services rely on. */
module Basics {

  datatype Option<+T> = None | Some(value: T)

  datatype Result<+T, +E> = Ok(value: T) | Err(error: E)

  function OrElse<T>(o: Option<T>, t: T): T {
    match o
    case Some(v) => v
    case None => t
  }

  function LowerChar(c: char): char {
    if 'A' <= c <= 'Z' then (c as int + 32) as char else c
  }

  function UpperChar(c: char): char {
    if 'a' <= c <= 'z' then (c as int - 32) as char else c
  }

  function Lower(s: string): (t: string)
    ensures |t| == |s|
    ensures forall i :: 0 <= i < |s| ==> t[i] == LowerChar(s[i])
  {
    seq(|s|, i requires 0 <= i < |s| => LowerChar(s[i]))
  }

  function Upper(s: string): (t: string)
    ensures |t| == |s|
    ensures forall i :: 0 <= i < |s| ==> t[i] == UpperChar(s[i])
  {
    seq(|s|, i requires 0 <= i < |s| => UpperChar(s[i]))
  }

  /** A letter's two cases; every other character has one. */
  lemma CasesPair(c: char)
    ensures 'a' <= c <= 'z' ==> 'A' <= UpperChar(c) <= 'Z' && LowerChar(UpperChar(c)) == c && LowerChar(c) == c
    ensures 'A' <= c <= 'Z' ==> 'a' <= LowerChar(c) <= 'z' && UpperChar(LowerChar(c)) == c && UpperChar(c) == c
    ensures !('a' <= c <= 'z') && !('A' <= c <= 'Z') ==> LowerChar(c) == c == UpperChar(c)
  {
  }

  lemma FoldsAgree(s: string, t: string)
    ensures Lower(s) == Lower(t) <==> Upper(s) == Upper(t)
  {
    if |s| == |t| {
      forall i | 0 <= i < |s| ensures LowerChar(s[i]) == LowerChar(t[i]) <==> UpperChar(s[i]) == UpperChar(t[i]) {
        CasesPair(s[i]);
        CasesPair(t[i]);
      }
      assert Lower(s) == Lower(t) <==> forall i :: 0 <= i < |s| ==> LowerChar(s[i]) == LowerChar(t[i]);
    }
  }

  lemma LowerIdempotent(s: string)
    ensures Lower(Lower(s)) == Lower(s)
  {
  }

  lemma LowerConcat(s: string, t: string)
    ensures Lower(s + t) == Lower(s) + Lower(t)
  {
  }

  /** The characters matched by \s in a JavaScript regular expression, which are
      also the ones String.prototype.trim removes. */
  predicate IsSpace(c: char) {
    || c == ' ' || c == '\t' || c == '\n' || c == '\r'
    || c == '\U{000B}' || c == '\U{000C}' || c == '\U{00A0}' || c == '\U{1680}'
    || '\U{2000}' <= c <= '\U{200A}'
    || c == '\U{2028}' || c == '\U{2029}' || c == '\U{202F}' || c == '\U{205F}'
    || c == '\U{3000}' || c == '\U{FEFF}'
  }

  /** The same characters, one by one. */
  const WHITE_SPACE: seq<char> := [
    ' ', '\t', '\n', '\r', '\U{000B}', '\U{000C}', '\U{00A0}', '\U{1680}',
    '\U{2000}', '\U{2001}', '\U{2002}', '\U{2003}', '\U{2004}', '\U{2005}', '\U{2006}', '\U{2007}',
    '\U{2008}', '\U{2009}', '\U{200A}', '\U{2028}', '\U{2029}', '\U{202F}', '\U{205F}', '\U{3000}', '\U{FEFF}']

  lemma SpacesAre(c: char)
    ensures IsSpace(c) <==> c in WHITE_SPACE
  {
    var n := c as int;
    if IsSpace(c) {
      assert c == n as char;
    }
  }

  predicate IsBlank(s: string) {
    forall i :: 0 <= i < |s| ==> IsSpace(s[i])
  }

  predicate OccursAt(part: string, whole: string, i: nat) {
    i + |part| <= |whole| && whole[i..i + |part|] == part
  }

  /** `part` occurs somewhere in `whole`. */
  predicate Occurs(part: string, whole: string) {
    exists i :: 0 <= i <= |whole| && OccursAt(part, whole, i)
  }

  /** `part` occurs in `whole`, letter case aside. */
  predicate OccursFold(part: string, whole: string) {
    Occurs(Lower(part), Lower(whole))
  }
}
