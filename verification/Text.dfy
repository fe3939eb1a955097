/** Strings as the other modules need them: splitting and joining at a separator, substring search,
    and ASCII case folding. */
module Text {

  function Split(s: string, sep: char): (parts: seq<string>)
    ensures |parts| >= 1
  {
    if s == [] then [[]]
    else if s[0] == sep then [[]] + Split(s[1..], sep)
    else
      var rest := Split(s[1..], sep);
      [[s[0]] + rest[0]] + rest[1..]
  }

  function Join(parts: seq<string>, sep: char): string {
    if parts == [] then []
    else if |parts| == 1 then parts[0]
    else parts[0] + [sep] + Join(parts[1..], sep)
  }

  lemma {:induction false} JoinOfSplit(s: string, sep: char)
    ensures Join(Split(s, sep), sep) == s
  {
    if s != [] {
      JoinOfSplit(s[1..], sep);
      var rest := Split(s[1..], sep);
      if s[0] == sep {
        assert Split(s, sep)[1..] == rest;
      } else {
        assert Split(s, sep)[1..] == rest[1..];
      }
    }
  }

  lemma GlueHead(x: string, first: seq<string>, rest: seq<string>)
    requires first != []
    ensures [x + (first + rest)[0]] + (first + rest)[1..] == ([x + first[0]] + first[1..]) + rest
  {
    assert (first + rest)[1..] == first[1..] + rest;
  }

  lemma SplitCons(c: char, s: string, sep: char)
    ensures Split([c] + s, sep)
         == if c == sep then [[]] + Split(s, sep) else [[c] + Split(s, sep)[0]] + Split(s, sep)[1..]
  {
    assert ([c] + s)[1..] == s;
  }

  lemma ConsAppend(a: string, b: string, sep: char)
    requires a != []
    ensures a + [sep] + b == [a[0]] + (a[1..] + [sep] + b)
    ensures a == [a[0]] + a[1..]
  {
  }

  /** A character in front goes to the first part, or makes a new one, whatever parts follow. */
  lemma SplitConsParts(c: char, s: string, sep: char, parts: seq<string>, others: seq<string>)
    requires parts != [] && Split(s, sep) == parts + others
    ensures Split([c] + s, sep)
         == (if c == sep then [[]] + parts else [[c] + parts[0]] + parts[1..]) + others
  {
    hide Split;
    SplitCons(c, s, sep);
    GlueHead([c], parts, others);
    assert [[]] + (parts + others) == ([[]] + parts) + others;
  }

  lemma {:induction false} SplitAppend(a: string, b: string, sep: char)
    ensures Split(a + [sep] + b, sep) == Split(a, sep) + Split(b, sep)
  {
    if a == [] {
      assert a + [sep] + b == [sep] + b;
      SplitCons(sep, b, sep);
    } else {
      hide Split;
      var c, rest := a[0], a[1..];
      SplitAppend(rest, b, sep);
      SplitConsParts(c, rest + [sep] + b, sep, Split(rest, sep), Split(b, sep));
      SplitCons(c, rest, sep);
      ConsAppend(a, b, sep);
    }
  }

  lemma {:induction false} SplitWithout(a: string, sep: char)
    requires sep !in a
    ensures Split(a, sep) == [a]
  {
    if a != [] {
      SplitWithout(a[1..], sep);
      assert a == [a[0]] + a[1..];
    }
  }

  lemma {:induction false} SplitOfJoin(parts: seq<string>, sep: char)
    requires parts != [] && forall p | p in parts :: sep !in p
    ensures Split(Join(parts, sep), sep) == parts
  {
    SplitWithout(parts[0], sep);
    if |parts| > 1 {
      SplitOfJoin(parts[1..], sep);
      SplitAppend(parts[0], Join(parts[1..], sep), sep);
    }
  }

  /** Cuts at the first `sep`; the parts before and after it determine one another. */
  lemma FirstSeparator(a: string, x: string, b: string, y: string, sep: char)
    requires sep !in a && sep !in b
    requires a + [sep] + x == b + [sep] + y
    ensures a == b && x == y
  {
    var s := a + [sep] + x;
    assert s[|a|] == sep && s[|b|] == sep;
    assert forall i | 0 <= i < |a| :: s[i] == a[i];
    assert forall i | 0 <= i < |b| :: s[i] == b[i];
    assert a == s[..|a|] && b == s[..|b|];
    assert x == s[|a| + 1..] && y == s[|b| + 1..];
  }

  /** Cuts at the last `sep`, likewise. */
  lemma LastSeparator(x: string, a: string, y: string, b: string, sep: char)
    requires sep !in a && sep !in b
    requires x + [sep] + a == y + [sep] + b
    ensures a == b && x == y
  {
    var s := x + [sep] + a;
    assert s[|x|] == sep && s[|y|] == sep;
    assert forall i | |x| < i < |s| :: s[i] == a[i - |x| - 1];
    assert forall i | |y| < i < |s| :: s[i] == b[i - |y| - 1];
    assert x == s[..|x|] && y == s[..|y|];
    assert a == s[|x| + 1..] && b == s[|y| + 1..];
  }

  predicate StartsWith(s: string, prefix: string) {
    prefix <= s
  }

  predicate OccursAt(hay: string, needle: string, i: nat) {
    i + |needle| <= |hay| && hay[i..i + |needle|] == needle
  }

  predicate Contains(hay: string, needle: string) {
    exists i: nat | i <= |hay| :: OccursAt(hay, needle, i)
  }

  function LowerChar(c: char): char {
    if 'A' <= c <= 'Z' then c - 'A' + 'a' else c
  }

  function UpperChar(c: char): char {
    if 'a' <= c <= 'z' then c - 'a' + 'A' else c
  }

  function Lower(s: string): (r: string)
    ensures |r| == |s|
  {
    seq(|s|, i requires 0 <= i < |s| => LowerChar(s[i]))
  }

  function Upper(s: string): (r: string)
    ensures |r| == |s|
  {
    seq(|s|, i requires 0 <= i < |s| => UpperChar(s[i]))
  }

  predicate IsSpace(c: char) {
    c == ' ' || c == '\t' || c == '\n' || c == '\r'
  }

  function StripLeft(s: string): (r: string)
  {
    if s != [] && IsSpace(s[0]) then StripLeft(s[1..]) else s
  }

  function StripRight(s: string): (r: string)
  {
    if s != [] && IsSpace(s[|s| - 1]) then StripRight(s[..|s| - 1]) else s
  }

  function Strip(s: string): string {
    StripRight(StripLeft(s))
  }

  predicate AllSpace(s: string) {
    forall c | c in s :: IsSpace(c)
  }

  lemma {:induction false} StripLeftIs(s: string) returns (blank: string)
    ensures s == blank + StripLeft(s) && AllSpace(blank)
    ensures StripLeft(s) != [] ==> !IsSpace(StripLeft(s)[0])
  {
    if s != [] && IsSpace(s[0]) {
      var rest := StripLeftIs(s[1..]);
      blank := [s[0]] + rest;
      assert s == [s[0]] + s[1..];
    } else {
      blank := [];
    }
  }

  lemma {:induction false} StripRightIs(s: string) returns (blank: string)
    ensures s == StripRight(s) + blank && AllSpace(blank)
    ensures StripRight(s) != [] ==> !IsSpace(StripRight(s)[|StripRight(s)| - 1])
  {
    var n := |s| - 1;
    if s != [] && IsSpace(s[n]) {
      var rest := StripRightIs(s[..n]);
      blank := rest + [s[n]];
      assert s == s[..n] + [s[n]];
    } else {
      blank := [];
    }
  }

  const BLANKS := " \t\n\r"

  lemma SpaceIsBlank(c: char)
    ensures IsSpace(c) <==> c in BLANKS
  {
    assert BLANKS[0] == ' ' && BLANKS[1] == '\t' && BLANKS[2] == '\n' && BLANKS[3] == '\r';
  }

  /** Stripping takes the blanks off both ends, and nothing else. */
  lemma StripIs(s: string) returns (before: string, after: string)
    ensures s == before + Strip(s) + after
    ensures forall c | c in before + after :: c in BLANKS
    ensures Strip(s) != [] ==> Strip(s)[0] !in BLANKS && Strip(s)[|Strip(s)| - 1] !in BLANKS
  {
    hide StripLeft, StripRight, IsSpace;
    before := StripLeftIs(s);
    after := StripRightIs(StripLeft(s));
    assert before + (Strip(s) + after) == before + Strip(s) + after;
    forall c
      ensures IsSpace(c) <==> c in BLANKS
    {
      SpaceIsBlank(c);
    }
    if Strip(s) != [] {
      assert Strip(s)[0] == StripLeft(s)[0];
    }
  }

  const SMALL_LETTERS := "abcdefghijklmnopqrstuvwxyz"
  const CAPITAL_LETTERS := "ABCDEFGHIJKLMNOPQRSTUVWXYZ"

  /** Folding pairs the letters of the alphabet and leaves everything else alone. */
  lemma CaseFolding(k: nat, c: char)
    requires k < 26
    ensures |SMALL_LETTERS| == |CAPITAL_LETTERS| == 26
    ensures LowerChar(CAPITAL_LETTERS[k]) == SMALL_LETTERS[k] == LowerChar(SMALL_LETTERS[k])
    ensures UpperChar(SMALL_LETTERS[k]) == CAPITAL_LETTERS[k] == UpperChar(CAPITAL_LETTERS[k])
    ensures !('A' <= c <= 'Z') ==> LowerChar(c) == c
    ensures !('a' <= c <= 'z') ==> UpperChar(c) == c
  {
  }
}
