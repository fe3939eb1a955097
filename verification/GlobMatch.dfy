/** Shell-style patterns over whole strings, and the ignore rule built on them.

    What a bracket class accepts is a parameter (`member`, from the text between the brackets and a
    character), so every result here holds whatever classes mean. */
module GlobMatch {
  import opened Sequences
  import opened Text

  type ClassRule = (string, char) -> bool

  datatype Token = Star | Any | Class(body: string) | Literal(c: char)

  function Find(p: string, from: nat, c: char): (k: nat)
    requires from <= |p|
    ensures from <= k <= |p|
    ensures k < |p| ==> p[k] == c
    ensures c !in p[from..k]
    decreases |p| - from
  {
    if from == |p| || p[from] == c then from
    else
      var k := Find(p, from + 1, c);
      assert p[from..k] == [p[from]] + p[from + 1..k];
      k
  }

  /** Where a class opened at the start of `p` closes: a leading `!` and a leading `]` belong to its
      body.  `|p|` when it never does. */
  function ClassEnd(p: string): (k: nat)
    requires p != [] && p[0] == '['
    ensures 1 <= k <= |p|
  {
    var afterBang := if 1 < |p| && p[1] == '!' then 2 else 1;
    var afterBracket := if afterBang < |p| && p[afterBang] == ']' then afterBang + 1 else afterBang;
    Find(p, afterBracket, ']')
  }

  /** How much of the pattern its first token takes. */
  function Width(p: string): (w: nat)
    requires p != []
    ensures 1 <= w <= |p|
  {
    if p[0] == '[' && ClassEnd(p) < |p| then ClassEnd(p) + 1 else 1
  }

  function First(p: string): Token
    requires p != []
  {
    if p[0] == '*' then Star
    else if p[0] == '?' then Any
    else if Width(p) > 1 then Class(p[1..Width(p) - 1])
    else Literal(p[0])
  }

  function Tokens(p: string): seq<Token>
    decreases |p|
  {
    if p == [] then [] else [First(p)] + Tokens(p[Width(p)..])
  }

  predicate Accepts(member: ClassRule, t: Token, c: char) {
    match t
    case Star => true
    case Any => true
    case Class(body) => member(body, c)
    case Literal(l) => l == c
  }

  predicate Match(member: ClassRule, ts: seq<Token>, s: string)
    decreases |ts|, |s|
  {
    if ts == [] then s == []
    else if ts[0].Star? then Match(member, ts[1..], s) || (s != [] && Match(member, ts, s[1..]))
    else s != [] && Accepts(member, ts[0], s[0]) && Match(member, ts[1..], s[1..])
  }

  predicate Fnmatch(member: ClassRule, s: string, pattern: string) {
    Match(member, Tokens(pattern), s)
  }

  lemma {:induction false} MatchAppend(
    member: ClassRule, ts: seq<Token>, s: string, us: seq<Token>, t: string)
    requires Match(member, ts, s) && Match(member, us, t)
    ensures Match(member, ts + us, s + t)
    decreases |ts|, |s|
  {
    if ts == [] {
      assert ts + us == us && s + t == t;
    } else {
      assert (ts + us)[1..] == ts[1..] + us;
      if ts[0].Star? && Match(member, ts[1..], s) {
        MatchAppend(member, ts[1..], s, us, t);
      } else {
        assert (s + t)[1..] == s[1..] + t;
        if ts[0].Star? {
          MatchAppend(member, ts, s[1..], us, t);
        } else {
          MatchAppend(member, ts[1..], s[1..], us, t);
        }
      }
    }
  }

  lemma {:induction false} StarMatches(member: ClassRule, s: string)
    ensures Match(member, [Star], s)
  {
    if s != [] {
      StarMatches(member, s[1..]);
    } else {
      assert [Star][1..] == [];
    }
  }

  // ---- what a match is --------------------------------------------------------------------------------

  /** The text one token stands for: a star any, a question mark one character, a class one of its own, a
      literal itself. */
  predicate Fits(member: ClassRule, t: Token, piece: string) {
    match t
    case Star => true
    case Any => |piece| == 1
    case Class(body) => |piece| == 1 && member(body, piece[0])
    case Literal(c) => piece == [c]
  }

  function Concat(pieces: seq<string>): string {
    if pieces == [] then [] else pieces[0] + Concat(pieces[1..])
  }

  /** One piece of text for each token. */
  predicate AllFit(member: ClassRule, ts: seq<Token>, pieces: seq<string>) {
    |pieces| == |ts| && forall i | 0 <= i < |ts| :: Fits(member, ts[i], pieces[i])
  }

  lemma FitsFirst(member: ClassRule, t: Token, ts: seq<Token>, piece: string, pieces: seq<string>)
    requires Fits(member, t, piece) && AllFit(member, ts, pieces)
    ensures AllFit(member, [t] + ts, [piece] + pieces)
    ensures Concat([piece] + pieces) == piece + Concat(pieces)
  {
    assert ([piece] + pieces)[1..] == pieces;
  }

  lemma {:induction false} MatchHasPieces(member: ClassRule, ts: seq<Token>, s: string) returns (pieces: seq<string>)
    requires Match(member, ts, s)
    ensures AllFit(member, ts, pieces) && Concat(pieces) == s
    decreases |ts|, |s|
  {
    if ts == [] {
      pieces := [];
    } else {
      assert ts == [ts[0]] + ts[1..];
      if ts[0].Star? && Match(member, ts[1..], s) {
        pieces := MatchHasPieces(member, ts[1..], s);
        FitsFirst(member, Star, ts[1..], [], pieces);
        pieces := [[]] + pieces;
      } else if ts[0].Star? {
        // The star's piece grows by one character.
        pieces := MatchHasPieces(member, ts, s[1..]);
        assert pieces == [pieces[0]] + pieces[1..];
        FitsFirst(member, Star, ts[1..], [s[0]] + pieces[0], pieces[1..]);
        assert s == [s[0]] + s[1..];
        assert ([s[0]] + pieces[0]) + Concat(pieces[1..]) == [s[0]] + (pieces[0] + Concat(pieces[1..]));
        pieces := [[s[0]] + pieces[0]] + pieces[1..];
      } else {
        pieces := MatchHasPieces(member, ts[1..], s[1..]);
        FitsFirst(member, ts[0], ts[1..], [s[0]], pieces);
        assert s == [s[0]] + s[1..];
        pieces := [[s[0]]] + pieces;
      }
    }
  }

  lemma {:induction false} StarSkips(member: ClassRule, ts: seq<Token>, x: string, s: string)
    requires Match(member, ts, s)
    ensures Match(member, [Star] + ts, x + s)
  {
    assert ([Star] + ts)[1..] == ts;
    if x == [] {
      assert x + s == s;
    } else {
      StarSkips(member, ts, x[1..], s);
      assert (x + s)[1..] == x[1..] + s;
    }
  }

  lemma {:induction false} PiecesMatch(member: ClassRule, ts: seq<Token>, pieces: seq<string>)
    requires AllFit(member, ts, pieces)
    ensures Match(member, ts, Concat(pieces))
  {
    if ts != [] {
      var rest := Concat(pieces[1..]);
      PiecesMatch(member, ts[1..], pieces[1..]);
      assert ts == [ts[0]] + ts[1..];
      assert Fits(member, ts[0], pieces[0]);
      if ts[0].Star? {
        StarSkips(member, ts[1..], pieces[0], rest);
      } else {
        assert (pieces[0] + rest)[1..] == rest;
      }
    }
  }

  /** A text matches exactly when it can be cut into one piece for each token. */
  lemma MatchIff(member: ClassRule, ts: seq<Token>, s: string)
    ensures Match(member, ts, s) <==> exists pieces :: AllFit(member, ts, pieces) && Concat(pieces) == s
  {
    if Match(member, ts, s) {
      var pieces := MatchHasPieces(member, ts, s);
    }
    if pieces :| AllFit(member, ts, pieces) && Concat(pieces) == s {
      PiecesMatch(member, ts, pieces);
    }
  }

  /** A pattern that ends in a star goes on matching when text is appended. */
  lemma {:induction false} TrailingStarAbsorbs(member: ClassRule, ts: seq<Token>, s: string, t: string)
    requires Match(member, ts + [Star], s)
    ensures Match(member, ts + [Star], s + t)
    decreases |ts|, |s|
  {
    var all := ts + [Star];
    if ts == [] {
      assert all == [Star];
      StarMatches(member, s + t);
    } else {
      assert all[1..] == ts[1..] + [Star];
      if ts[0].Star? && Match(member, all[1..], s) {
        TrailingStarAbsorbs(member, ts[1..], s, t);
      } else {
        assert (s + t)[1..] == s[1..] + t;
        if ts[0].Star? {
          TrailingStarAbsorbs(member, ts, s[1..], t);
        } else {
          TrailingStarAbsorbs(member, ts[1..], s[1..], t);
        }
      }
    }
  }

  // ---- how a pattern is read --------------------------------------------------------------------------

  function Spelled(t: Token): string {
    match t
    case Star => "*"
    case Any => "?"
    case Class(body) => "[" + body + "]"
    case Literal(c) => [c]
  }

  /** What can stand between the brackets of a class: something, after a leading `!`, and no closing
      bracket but in the first place. */
  predicate IsBody(b: string) {
    var from := if b != [] && b[0] == '!' then 1 else 0;
    from < |b| && forall k | from < k < |b| :: b[k] != ']'
  }

  ghost predicate Closes(text: string, b: string) {
    IsBody(b) && b + "]" <= text
  }

  /** `t` is read when `rest` follows: an opening bracket is a literal only if nothing closes it. */
  ghost predicate ReadBefore(t: Token, rest: string) {
    match t
    case Class(body) => IsBody(body)
    case Literal(c) => c != '*' && c != '?' && (c == '[' ==> forall b: string :: !Closes(rest, b))
    case _ => true
  }

  /** The pattern spells these tokens, one after the other. */
  ghost predicate Reads(ts: seq<Token>, p: string)
    decreases ts
  {
    if ts == [] then p == []
    else
      && Spelled(ts[0]) <= p
      && ReadBefore(ts[0], p[|Spelled(ts[0])|..])
      && Reads(ts[1..], p[|Spelled(ts[0])|..])
  }

  lemma ClassEndIs(p: string, b: string)
    requires p != [] && p[0] == '[' && Closes(p[1..], b)
    ensures ClassEnd(p) == |b| + 1 < |p| && p[1..ClassEnd(p)] == b
  {
    assert forall k | 0 <= k < |b| + 1 :: p[k + 1] == (b + "]")[k];
    var from := if b[0] == '!' then 1 else 0;
    var start := if p[from + 1] == ']' then from + 2 else from + 1;
    assert p[|b| + 1] == ']';
    forall k | start <= k < |b| + 1
      ensures p[k] != ']'
    {
      assert p[k] == b[k - 1];
    }
    FindIs(p, start, ']', |b| + 1);
  }

  lemma {:induction false} FindIs(p: string, from: nat, c: char, k: nat)
    requires from <= k < |p| && p[k] == c && forall j | from <= j < k :: p[j] != c
    ensures Find(p, from, c) == k
    decreases k - from
  {
    if from < k {
      FindIs(p, from + 1, c, k);
    }
  }

  lemma ClosedClass(p: string)
    requires p != [] && p[0] == '[' && ClassEnd(p) < |p|
    ensures Closes(p[1..], p[1..ClassEnd(p)])
  {
    var b := p[1..ClassEnd(p)];
    assert b + "]" == p[1..ClassEnd(p) + 1];
    assert p[1..ClassEnd(p) + 1] <= p[1..];
    var from := if 1 < |p| && p[1] == '!' then 2 else 1;
    var start := if from < |p| && p[from] == ']' then from + 1 else from;
    forall k | 0 < k < |b| && k + 1 >= start
      ensures b[k] != ']'
    {
      assert p[start..ClassEnd(p)][k + 1 - start] == b[k];
    }
  }

  lemma ClassIsFirst(p: string, b: string)
    requires p != []
    ensures Spelled(Class(b)) <= p && IsBody(b) <==> p[0] == '[' && Closes(p[1..], b)
    ensures p[0] == '[' && Closes(p[1..], b) ==> First(p) == Class(b)
  {
    if Spelled(Class(b)) <= p {
      assert Spelled(Class(b))[0] == p[0];
      assert b + "]" == Spelled(Class(b))[1..] && Spelled(Class(b))[1..] <= p[1..];
    }
    if p[0] == '[' && Closes(p[1..], b) {
      assert p == "[" + p[1..] && Spelled(Class(b)) == "[" + (b + "]");
      ClassEndIs(p, b);
    }
  }

  /** The first token is the one that can be read there. */
  lemma FirstIff(p: string, t: Token)
    requires p != []
    ensures Width(p) == |Spelled(First(p))|
    ensures t == First(p) <==> Spelled(t) <= p && ReadBefore(t, p[|Spelled(t)|..])
  {
    hide IsBody, Closes;
    if p[0] == '[' && ClassEnd(p) < |p| {
      ClosedClass(p);
      ClassIsFirst(p, p[1..ClassEnd(p)]);
    }
    forall b: string
      ensures p[0] == '[' && Closes(p[1..], b) ==> ClassEnd(p) < |p|
    {
      ClassIsFirst(p, b);
    }
    if t.Class? {
      ClassIsFirst(p, t.body);
    }
  }

  lemma ReadsFirst(ts: seq<Token>, p: string)
    requires p != []
    ensures Reads(ts, p) <==> ts != [] && ts[0] == First(p) && Reads(ts[1..], p[Width(p)..])
  {
    hide First, Width, ReadBefore, Spelled;
    if ts != [] {
      FirstIff(p, ts[0]);
    }
  }

  /** Nothing is spelled by no text. */
  lemma NothingSpelled(ts: seq<Token>)
    ensures Reads(ts, []) <==> ts == []
  {
  }

  /** A pattern is read in one way only. */
  lemma {:induction false} TokensIff(ts: seq<Token>, p: string)
    ensures Reads(ts, p) <==> ts == Tokens(p)
    decreases |p|
  {
    hide Reads, First, Width;
    if p == [] {
      NothingSpelled(ts);
    } else {
      ReadsFirst(ts, p);
      if ts != [] {
        TokensIff(ts[1..], p[Width(p)..]);
        assert ts == [ts[0]] + ts[1..];
      }
    }
  }

  /** Appending a suffix without a closing bracket cannot change how the pattern was cut up. */
  lemma ClassEndAppend(p: string, q: string)
    requires p != [] && p[0] == '[' && ']' !in q && '!' !in q
    ensures ClassEnd(p) < |p| ==> ClassEnd(p + q) == ClassEnd(p)
    ensures ClassEnd(p) == |p| ==> ClassEnd(p + q) == |p + q|
  {
    var afterBang := if 1 < |p| && p[1] == '!' then 2 else 1;
    var from := if afterBang < |p| && p[afterBang] == ']' then afterBang + 1 else afterBang;
    FindAppend(p, q, from);
  }

  lemma {:induction false} FindAppend(p: string, q: string, from: nat)
    requires from <= |p| && ']' !in q
    ensures Find(p, from, ']') < |p| ==> Find(p + q, from, ']') == Find(p, from, ']')
    ensures Find(p, from, ']') == |p| ==> Find(p + q, from, ']') == |p + q|
    decreases |p| - from
  {
    if from == |p| {
      var k := Find(p + q, from, ']');
      if k < |p + q| {
        assert (p + q)[k] == q[k - |p|];
      }
    } else if p[from] != ']' {
      FindAppend(p, q, from + 1);
    }
  }

  lemma FirstAppend(p: string, q: string)
    requires p != [] && ']' !in q && '!' !in q
    ensures Width(p + q) == Width(p) && First(p + q) == First(p)
    ensures (p + q)[Width(p)..] == p[Width(p)..] + q
  {
    hide ClassEnd;
    if p[0] == '[' {
      ClassEndAppend(p, q);
      if Width(p) > 1 {
        SliceOfAppend(p, q, 1, Width(p) - 1);
      }
    }
    SliceOfAppend(p, q, 0, Width(p));
  }

  lemma {:induction false} TokensAppend(p: string)
    ensures Tokens(p + "/*") == Tokens(p) + [Literal('/'), Star]
    decreases |p|
  {
    if p == [] {
      assert p + "/*" == "/*";
      TokensOfSlashStar();
    } else {
      hide First, Width;
      FirstAppend(p, "/*");
      TokensAppend(p[Width(p)..]);
      Associates([First(p)], Tokens(p[Width(p)..]), [Literal('/'), Star]);
    }
  }

  lemma TokensOfSlashStar()
    ensures Tokens("/*") == [Literal('/'), Star] && Tokens("") == []
  {
    assert "/*"[1..] == "*" && "*"[1..] == "";
    assert Tokens("*") == [Star] + Tokens("");
    assert Tokens("/*") == [Literal('/')] + Tokens("*");
  }

  // ---- the ignore rule --------------------------------------------------------------------------------

  predicate SomeAncestorMatches(member: ClassRule, relative: string, pattern: string) {
    var parts := Split(relative, '/');
    exists part | part in parts[..|parts| - 1] :: Fnmatch(member, part, pattern)
  }

  predicate Covers(member: ClassRule, pattern: string, relative: string) {
    || Fnmatch(member, relative, pattern)
    || StartsWith(relative, pattern + "/")
    || Fnmatch(member, relative, pattern + "/*")
    || SomeAncestorMatches(member, relative, pattern)
  }

  predicate IsIgnored(member: ClassRule, relative: string, patterns: seq<string>) {
    exists pattern | pattern in patterns :: Covers(member, pattern, relative)
  }

  lemma SlashStarMatches(member: ClassRule, below: string)
    ensures Match(member, [Literal('/'), Star], "/" + below)
  {
    StarMatches(member, below);
    assert [Literal('/'), Star][1..] == [Star] && ("/" + below)[1..] == below;
  }

  /** A pattern that covers a directory covers everything below it. */
  lemma CoversBelow(member: ClassRule, pattern: string, relative: string, below: string)
    requires Covers(member, pattern, relative)
    ensures Covers(member, pattern, relative + "/" + below)
  {
    hide Tokens, Match;
    var longer := relative + "/" + below;
    TokensAppend(pattern);
    if Fnmatch(member, relative, pattern) {
      SlashStarMatches(member, below);
      MatchAppend(member, Tokens(pattern), relative, [Literal('/'), Star], "/" + below);
      assert relative + ("/" + below) == longer;
    } else if StartsWith(relative, pattern + "/") {
    } else if Fnmatch(member, relative, pattern + "/*") {
      var ts := Tokens(pattern) + [Literal('/')];
      assert Tokens(pattern + "/*") == ts + [Star];
      TrailingStarAbsorbs(member, ts, relative, "/" + below);
      assert relative + ("/" + below) == longer;
    } else {
      var parts := Split(relative, '/');
      SplitAppend(relative, below, '/');
      var part :| part in parts[..|parts| - 1] && Fnmatch(member, part, pattern);
      var all := Split(longer, '/');
      assert all[..|all| - 1][..|parts| - 1] == parts[..|parts| - 1];
      assert part in all[..|all| - 1];
    }
  }

  /** An ignored directory has every path below it ignored: what makes pruning the descent sound. */
  lemma IgnoredBelow(member: ClassRule, relative: string, patterns: seq<string>, below: string)
    requires IsIgnored(member, relative, patterns)
    ensures IsIgnored(member, relative + "/" + below, patterns)
  {
    var pattern :| pattern in patterns && Covers(member, pattern, relative);
    CoversBelow(member, pattern, relative, below);
  }

  // ---- which paths are ignored ------------------------------------------------------------------------

  /** The POSIX text of a relative path. */
  function Relative(parts: seq<string>): string {
    Join(parts, '/')
  }

  predicate IsRelative(parts: seq<string>) {
    parts != [] && forall part | part in parts :: '/' !in part
  }

  lemma {:induction false} RelativeAppend(a: seq<string>, b: seq<string>)
    requires a != [] && b != []
    ensures Relative(a + b) == Relative(a) + "/" + Relative(b)
  {
    assert (a + b)[1..] == a[1..] + b;
    if |a| == 1 {
      assert a + b == [a[0]] + b && (a + b)[1..] == b;
    } else {
      RelativeAppend(a[1..], b);
      assert a[0] + ['/'] + (Relative(a[1..]) + "/" + Relative(b)) == (a[0] + ['/'] + Relative(a[1..])) + "/" + Relative(b);
    }
  }

  /** A path is cut at a slash exactly between an ancestor and what is below it. */
  lemma CutIsAncestor(parts: seq<string>, x: string, y: string) returns (k: nat)
    requires IsRelative(parts) && Relative(parts) == x + "/" + y
    ensures 0 < k < |parts| && x == Relative(parts[..k])
  {
    SplitOfJoin(parts, '/');
    SplitAppend(x, y, '/');
    JoinOfSplit(x, '/');
    k := |Split(x, '/')|;
    assert parts[..k] == Split(x, '/');
  }

  lemma AncestorIsCut(parts: seq<string>, k: nat)
    requires 0 < k < |parts|
    ensures Relative(parts) == Relative(parts[..k]) + "/" + Relative(parts[k..])
  {
    RelativeAppend(parts[..k], parts[k..]);
    assert parts == parts[..k] + parts[k..];
  }

  lemma {:induction false} ConcatAppend(a: seq<string>, b: seq<string>)
    ensures Concat(a + b) == Concat(a) + Concat(b)
  {
    if a == [] {
      assert a + b == b;
    } else {
      ConcatAppend(a[1..], b);
      assert (a + b)[1..] == a[1..] + b;
      Associates(a[0], Concat(a[1..]), Concat(b));
    }
  }

  lemma PiecesSplit(member: ClassRule, ts: seq<Token>, us: seq<Token>, pieces: seq<string>)
    requires AllFit(member, ts + us, pieces)
    ensures |pieces| == |ts| + |us|
    ensures AllFit(member, ts, pieces[..|ts|]) && AllFit(member, us, pieces[|ts|..])
    ensures Concat(pieces) == Concat(pieces[..|ts|]) + Concat(pieces[|ts|..])
  {
    hide Fits, Concat;
    var all := ts + us;
    forall i | 0 <= i < |all|
      ensures i < |ts| ==> Fits(member, ts[i], pieces[i])
      ensures i >= |ts| ==> Fits(member, us[i - |ts|], pieces[i])
    {
      assert Fits(member, all[i], pieces[i]);
    }
    assert pieces == pieces[..|ts|] + pieces[|ts|..];
    ConcatAppend(pieces[..|ts|], pieces[|ts|..]);
  }

  lemma SlashPieces(member: ClassRule, pieces: seq<string>)
    requires AllFit(member, [Literal('/'), Star], pieces)
    ensures |pieces| == 2 && Concat(pieces) == "/" + pieces[1]
  {
    assert Fits(member, [Literal('/'), Star][0], pieces[0]);
    assert pieces[1..] == [pieces[1]] && pieces[1..][1..] == [];
    assert Concat([]) == [] && Concat(pieces[1..]) == pieces[1] + Concat(pieces[1..][1..]);
  }

  /** What matches a pattern with a slash and a star behind it is something the pattern matches, a slash,
      and anything. */
  lemma MatchBelow(member: ClassRule, pattern: string, s: string) returns (x: string, y: string)
    requires Fnmatch(member, s, pattern + "/*")
    ensures s == x + "/" + y && Fnmatch(member, x, pattern)
  {
    hide Match, AllFit, Concat, Fits, Tokens;
    var ts := Tokens(pattern);
    TokensAppend(pattern);
    var pieces := MatchHasPieces(member, ts + [Literal('/'), Star], s);
    PiecesSplit(member, ts, [Literal('/'), Star], pieces);
    SlashPieces(member, pieces[|ts|..]);
    PiecesMatch(member, ts, pieces[..|ts|]);
    x, y := Concat(pieces[..|ts|]), pieces[|ts|..][1];
    assert x + ("/" + y) == x + "/" + y;
  }

  /** The pattern spells the path of the directory `k` components down, or matches it or its name. */
  predicate IgnoresDirectory(member: ClassRule, pattern: string, parts: seq<string>, k: nat)
    requires 0 < k <= |parts|
  {
    || Relative(parts[..k]) == pattern
    || Fnmatch(member, Relative(parts[..k]), pattern)
    || Fnmatch(member, parts[k - 1], pattern)
  }

  predicate IgnoresPath(member: ClassRule, pattern: string, parts: seq<string>) {
    || Fnmatch(member, Relative(parts), pattern)
    || exists k | 0 < k < |parts| :: IgnoresDirectory(member, pattern, parts, k)
  }

  /** A pattern ignores a path if and only if it matches the path, or ignores a directory on the way to it. */
  lemma CoversIff(member: ClassRule, pattern: string, parts: seq<string>)
    requires IsRelative(parts)
    ensures Covers(member, pattern, Relative(parts)) <==> IgnoresPath(member, pattern, parts)
  {
    hide Fnmatch;
    var path := Relative(parts);
    SplitOfJoin(parts, '/');
    if StartsWith(path, pattern + "/") {
      var k := CutIsAncestor(parts, pattern, path[|pattern| + 1..]);
      assert IgnoresDirectory(member, pattern, parts, k);
    }
    if Fnmatch(member, path, pattern + "/*") {
      var x, y := MatchBelow(member, pattern, path);
      var k := CutIsAncestor(parts, x, y);
      assert IgnoresDirectory(member, pattern, parts, k);
    }
    if SomeAncestorMatches(member, path, pattern) {
      var part :| part in parts[..|parts| - 1] && Fnmatch(member, part, pattern);
      var i :| 0 <= i < |parts| - 1 && parts[..|parts| - 1][i] == part;
      assert IgnoresDirectory(member, pattern, parts, i + 1);
    }
    if k :| 0 < k < |parts| && IgnoresDirectory(member, pattern, parts, k) {
      AncestorIsCut(parts, k);
      if Relative(parts[..k]) == pattern {
        assert path == (pattern + "/") + Relative(parts[k..]);
      } else if Fnmatch(member, Relative(parts[..k]), pattern) {
        BelowMatches(member, pattern, Relative(parts[..k]), Relative(parts[k..]));
      } else {
        assert parts[k - 1] == parts[..|parts| - 1][k - 1];
      }
    }
  }

  lemma BelowMatches(member: ClassRule, pattern: string, x: string, y: string)
    requires Fnmatch(member, x, pattern)
    ensures Fnmatch(member, x + "/" + y, pattern + "/*")
  {
    TokensAppend(pattern);
    SlashStarMatches(member, y);
    MatchAppend(member, Tokens(pattern), x, [Literal('/'), Star], "/" + y);
    assert x + ("/" + y) == x + "/" + y;
  }

  predicate Excluded(member: ClassRule, patterns: seq<string>, parts: seq<string>) {
    exists pattern | pattern in patterns :: IgnoresPath(member, pattern, parts)
  }

  lemma IgnoredIff(member: ClassRule, patterns: seq<string>, parts: seq<string>)
    requires IsRelative(parts)
    ensures IsIgnored(member, Relative(parts), patterns) <==> Excluded(member, patterns, parts)
  {
    hide Covers, IgnoresPath;
    forall pattern | pattern in patterns
      ensures Covers(member, pattern, Relative(parts)) <==> IgnoresPath(member, pattern, parts)
    {
      CoversIff(member, pattern, parts);
    }
  }

  // ---- patterns without wildcards ---------------------------------------------------------------------

  predicate IsPlain(pattern: string) {
    '*' !in pattern && '?' !in pattern && '[' !in pattern
  }

  lemma {:induction false} PlainMatchesItself(member: ClassRule, pattern: string, s: string)
    requires IsPlain(pattern)
    ensures Fnmatch(member, s, pattern) <==> s == pattern
  {
    if pattern != [] {
      assert pattern[0] in pattern;
      var rest := pattern[1..];
      assert forall c | c in rest :: c in pattern;
      assert Tokens(pattern) == [Literal(pattern[0])] + Tokens(rest);
      assert Tokens(pattern)[1..] == Tokens(rest);
      if s != [] {
        PlainMatchesItself(member, rest, s[1..]);
        assert s == [s[0]] + s[1..] && pattern == [pattern[0]] + rest;
      }
    }
  }

  /** The path is the pattern, lies below it, or has a directory of that name on the way. */
  predicate NamedBy(pattern: string, parts: seq<string>)
    requires parts != []
  {
    || Relative(parts) == pattern
    || StartsWith(Relative(parts), pattern + "/")
    || pattern in parts[..|parts| - 1]
  }

  /** Such a pattern ignores a path if and only if it names the path, something above it by its path, or a
      directory on the way by its name. */
  lemma PlainCoversIff(member: ClassRule, pattern: string, parts: seq<string>)
    requires IsRelative(parts) && IsPlain(pattern)
    ensures Covers(member, pattern, Relative(parts)) <==> NamedBy(pattern, parts)
  {
    hide Fnmatch, Split;
    SplitOfJoin(parts, '/');
    PlainMatchesItself(member, pattern, Relative(parts));
    if Fnmatch(member, Relative(parts), pattern + "/*") {
      var x, y := MatchBelow(member, pattern, Relative(parts));
      PlainMatchesItself(member, pattern, x);
      assert Relative(parts) == (pattern + "/") + y;
    }
    if SomeAncestorMatches(member, Relative(parts), pattern) {
      var part :| part in parts[..|parts| - 1] && Fnmatch(member, part, pattern);
      PlainMatchesItself(member, pattern, part);
    }
    PlainMatchesItself(member, pattern, pattern);
  }

  // ---- the ignore file --------------------------------------------------------------------------------

  function StripSlashes(s: string): string {
    if s != [] && s[|s| - 1] == '/' then StripSlashes(s[..|s| - 1]) else s
  }

  /** Exactly the slashes at the end are taken off. */
  lemma {:induction false} StripSlashesIs(s: string) returns (slashes: string)
    ensures s == StripSlashes(s) + slashes && forall c | c in slashes :: c == '/'
    ensures StripSlashes(s) != [] ==> StripSlashes(s)[|StripSlashes(s)| - 1] != '/'
  {
    var n := |s| - 1;
    if s != [] && s[n] == '/' {
      var rest := StripSlashesIs(s[..n]);
      slashes := rest + [s[n]];
      assert s == s[..n] + [s[n]];
    } else {
      slashes := [];
    }
  }

  /** Blank lines, comments and re-inclusions exclude nothing. */
  predicate Excludes(line: string) {
    var text := Strip(line);
    text != [] && text[0] != '#' && text[0] != '!'
  }

  /** The patterns are those of the lines that exclude something, each without its slashes at the end. */
  method IgnorePatterns(lines: seq<string>) returns (patterns: seq<string>)
    ensures forall p :: p in patterns <==>
              exists line | line in lines :: Excludes(line) && p == StripSlashes(Strip(line))
    ensures |patterns| <= |lines|
  {
    patterns := [];
    for i := 0 to |lines|
      invariant |patterns| <= i
      invariant forall p :: p in patterns <==>
        exists line | line in lines[..i] :: Excludes(line) && p == StripSlashes(Strip(line))
    {
      OneLineMore(lines, i);
      var line := Strip(lines[i]);
      if line == "" || line[0] == '#' || line[0] == '!' {
        continue;
      }
      patterns := patterns + [StripSlashes(line)];
    }
    assert lines[..|lines|] == lines;
  }

  lemma OneLineMore(lines: seq<string>, i: nat)
    requires i < |lines|
    ensures forall line :: line in lines[..i + 1] <==> line in lines[..i] || line == lines[i]
  {
    assert lines[..i + 1] == lines[..i] + [lines[i]];
  }

  /** A line of slashes alone is a pattern that ignores no path. */
  lemma SlashesIgnoreNothing(member: ClassRule, relative: string)
    requires forall part | part in Split(relative, '/') :: part != ""
    ensures StripSlashes("/") == "" && !Covers(member, "", relative)
  {
    var parts := Split(relative, '/');
    assert StripSlashes("") == "";
    assert parts[0] in parts && parts[0] != "";
    assert relative != "" && relative[0] != '/';
    TokensOfSlashStar();
    assert "" + "/*" == "/*";
    assert !Match(member, [Literal('/'), Star], relative);
    forall part | part in parts[..|parts| - 1]
      ensures !Fnmatch(member, part, "")
    {
      assert part in parts;
    }
  }
}
