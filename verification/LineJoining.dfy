/** How a Dockerfile's physical lines become the logical lines that are parsed. */
module LineJoining {
  import opened Sequences
  import opened Text

  predicate Continues(line: string) {
    var s := StripRight(line);
    s != [] && s[|s| - 1] == '\\'
  }

  /** What a continued line contributes: itself without the backslash, and a blank. */
  function Piece(line: string): string
    requires Continues(line)
  {
    var s := StripRight(line);
    s[..|s| - 1] + " "
  }

  // ---- the reference: blocks of consecutive lines -----------------------------------------------------

  /** `cuts` are the positions where blocks begin, and the end: every line of a block but its last
      continues, and its last does not unless the file ends there. */
  ghost predicate IsBlocks(lines: seq<string>, cuts: seq<nat>) {
    && cuts != [] && cuts[0] == 0 && cuts[|cuts| - 1] == |lines|
    && (forall b | 0 <= b < |cuts| - 1 :: BlockAt(lines, cuts, b))
  }

  ghost predicate BlockAt(lines: seq<string>, cuts: seq<nat>, b: nat)
    requires b + 1 < |cuts|
  {
    IsBlock(lines, cuts[b], cuts[b + 1])
  }

  ghost predicate IsBlock(lines: seq<string>, from: nat, to: nat) {
    IsRun(lines, from, to) && (Continues(lines[to - 1]) ==> to == |lines|)
  }

  /** Every line but the last continues. */
  predicate IsRun(lines: seq<string>, from: nat, to: nat) {
    from < to <= |lines| && forall i | from <= i < to - 1 :: Continues(lines[i])
  }

  function Pieces(lines: seq<string>, from: nat, to: nat): string
    requires from <= to <= |lines| && forall i | from <= i < to :: Continues(lines[i])
  {
    if from == to then [] else Pieces(lines, from, to - 1) + Piece(lines[to - 1])
  }

  /** The text of a block. */
  function BlockText(lines: seq<string>, from: nat, to: nat): string
    requires IsRun(lines, from, to)
  {
    if Continues(lines[to - 1]) then Strip(Pieces(lines, from, to))
    else if from == to - 1 then Strip(lines[from])
    else Strip(Pieces(lines, from, to - 1) + StripLeft(lines[to - 1]))
  }

  datatype Logical = Logical(text: string, line: nat)

  /** A line that is blank or a comment is skipped. */
  function Parsed(text: string, line: nat): seq<Logical> {
    if text == [] || text[0] == '#' then [] else [Logical(text, line)]
  }

  /** What a block hands to the parser: its text with the number of its first line, unless it is blank
      or a comment.  A block the file ends in is not looked at for a comment. */
  function Emitted(lines: seq<string>, from: nat, to: nat): seq<Logical>
    requires IsRun(lines, from, to)
  {
    var text := BlockText(lines, from, to);
    if Continues(lines[to - 1]) && text != [] then [Logical(text, from + 1)] else Parsed(text, from + 1)
  }

  predicate RunAt(lines: seq<string>, cuts: seq<nat>, b: nat)
    requires b + 1 < |cuts|
  {
    IsRun(lines, cuts[b], cuts[b + 1])
  }

  predicate AreRuns(lines: seq<string>, cuts: seq<nat>) {
    cuts != [] && forall b | 0 <= b < |cuts| - 1 :: RunAt(lines, cuts, b)
  }

  function AllEmitted(lines: seq<string>, cuts: seq<nat>): seq<Logical>
    requires AreRuns(lines, cuts)
  {
    if |cuts| == 1 then []
    else
      var n := |cuts| - 2;
      var before := cuts[..n + 1];
      assert AreRuns(lines, before) by {
        forall b | 0 <= b < n
          ensures RunAt(lines, before, b)
        {
          assert RunAt(lines, cuts, b);
        }
      }
      assert RunAt(lines, cuts, n);
      AllEmitted(lines, before) + Emitted(lines, cuts[n], cuts[n + 1])
  }

  lemma OneMoreBlock(lines: seq<string>, cuts: seq<nat>, to: nat)
    requires AreRuns(lines, cuts) && IsRun(lines, cuts[|cuts| - 1], to)
    ensures AreRuns(lines, cuts + [to])
    ensures AllEmitted(lines, cuts + [to]) == AllEmitted(lines, cuts) + Emitted(lines, cuts[|cuts| - 1], to)
  {
    var longer := cuts + [to];
    forall b | 0 <= b < |longer| - 1
      ensures RunAt(lines, longer, b)
    {
      if b < |cuts| - 1 {
        assert RunAt(lines, cuts, b);
      }
    }
    assert longer[..|cuts|] == cuts;
  }

  lemma {:induction false} CutsAgree(lines: seq<string>, a: seq<nat>, b: seq<nat>, k: nat)
    requires IsBlocks(lines, a) && IsBlocks(lines, b) && k < |a|
    ensures k < |b| && a[k] == b[k]
  {
    if k > 0 {
      CutsAgree(lines, a, b, k - 1);
      assert BlockAt(lines, a, k - 1);
      assert k < |b|;
      assert BlockAt(lines, b, k - 1);
    }
  }

  /** There is only one way to cut a file into blocks. */
  lemma {:induction false} BlocksAreUnique(lines: seq<string>, a: seq<nat>, b: seq<nat>)
    requires IsBlocks(lines, a) && IsBlocks(lines, b)
    ensures a == b
  {
    CutsAgree(lines, a, b, |a| - 1);
    CutsAgree(lines, b, a, |b| - 1);
    forall k: nat | k < |a|
      ensures a[k] == b[k]
    {
      CutsAgree(lines, a, b, k);
    }
  }

  /** Every physical line lies in exactly one block. */
  lemma {:induction false} LineIsInOneBlock(lines: seq<string>, cuts: seq<nat>, i: nat) returns (b: nat)
    requires IsBlocks(lines, cuts) && i < |lines|
    ensures b + 1 < |cuts| && cuts[b] <= i < cuts[b + 1]
    ensures forall d | 0 <= d < |cuts| - 1 && cuts[d] <= i < cuts[d + 1] :: d == b
  {
    b := 0;
    while cuts[b + 1] <= i
      invariant b + 1 < |cuts| && cuts[b] <= i
      decreases |cuts| - b
    {
      b := b + 1;
    }
    forall d | 0 <= d < |cuts| - 1 && cuts[d] <= i < cuts[d + 1]
      ensures d == b
    {
      if d < b {
        CutsIncrease(lines, cuts, d + 1, b);
      } else if b < d {
        CutsIncrease(lines, cuts, b + 1, d);
      }
    }
  }

  lemma {:induction false} CutsIncrease(lines: seq<string>, cuts: seq<nat>, a: nat, b: nat)
    requires IsBlocks(lines, cuts) && a <= b < |cuts|
    ensures cuts[a] <= cuts[b]
  {
    if a < b {
      CutsIncrease(lines, cuts, a, b - 1);
      assert BlockAt(lines, cuts, b - 1);
    }
  }

  // ---- the loop ---------------------------------------------------------------------------------------

  /** The blocks before `from` are complete, and the lines from there to `i` all continue. */
  ghost predicate Joined(lines: seq<string>, cuts: seq<nat>, i: nat) {
    && AreRuns(lines, cuts) && cuts[0] == 0 && cuts[|cuts| - 1] <= i <= |lines|
    && (forall b | 0 <= b < |cuts| - 1 :: BlockAt(lines, cuts, b))
    && (forall k | cuts[|cuts| - 1] <= k < i :: Continues(lines[k]))
  }

  lemma Cut(lines: seq<string>, cuts: seq<nat>, i: nat, to: nat)
    requires Joined(lines, cuts, i) && cuts[|cuts| - 1] < to
    requires (to == i + 1 <= |lines| && !Continues(lines[i])) || to == i == |lines|
    ensures Joined(lines, cuts + [to], to)
    ensures AllEmitted(lines, cuts + [to]) == AllEmitted(lines, cuts) + Emitted(lines, cuts[|cuts| - 1], to)
  {
    hide Emitted, AllEmitted, Continues;
    OneMoreBlock(lines, cuts, to);
    var longer := cuts + [to];
    forall b | 0 <= b < |longer| - 1
      ensures BlockAt(lines, longer, b)
    {
      if b < |cuts| - 1 {
        assert BlockAt(lines, cuts, b);
      }
    }
  }

  lemma JoinedMore(lines: seq<string>, cuts: seq<nat>, i: nat)
    requires Joined(lines, cuts, i) && i < |lines| && Continues(lines[i])
    ensures Joined(lines, cuts, i + 1)
    ensures Pieces(lines, cuts[|cuts| - 1], i + 1) == Pieces(lines, cuts[|cuts| - 1], i) + Piece(lines[i])
    ensures Pieces(lines, cuts[|cuts| - 1], i + 1) != []
  {
  }

  /** The pending text, with the number of its first line, against the blocks closed so far. */
  ghost predicate Pending(lines: seq<string>, cuts: seq<nat>, i: nat, text: string, start: nat, logical: seq<Logical>) {
    && Joined(lines, cuts, i)
    && text == Pieces(lines, cuts[|cuts| - 1], i)
    && (text == [] <==> cuts[|cuts| - 1] == i)
    && (text != [] ==> start == cuts[|cuts| - 1] + 1)
    && logical == AllEmitted(lines, cuts)
  }

  lemma Continued(lines: seq<string>, cuts: seq<nat>, i: nat, text: string, start: nat, logical: seq<Logical>)
    requires Pending(lines, cuts, i, text, start, logical) && i < |lines| && Continues(lines[i])
    ensures
      Pending(lines, cuts, i + 1, text + Piece(lines[i]), if text == [] then i + 1 else start, logical)
  {
    JoinedMore(lines, cuts, i);
  }

  lemma ClosedEmits(lines: seq<string>, from: nat, i: nat, text: string, start: nat, whole: string, number: nat)
    requires from <= i < |lines| && IsRun(lines, from, i + 1) && !Continues(lines[i])
    requires text == Pieces(lines, from, i) && (text == [] <==> from == i)
    requires text != [] ==> start == from + 1
    requires whole == Strip(if text == [] then lines[i] else text + StripLeft(lines[i]))
    requires number == if text == [] then i + 1 else start
    ensures Emitted(lines, from, i + 1) == Parsed(whole, number)
  {
    hide Strip, StripLeft, Continues, Pieces, Parsed;
    assert whole == BlockText(lines, from, i + 1);
  }

  lemma Closed(lines: seq<string>, cuts: seq<nat>, i: nat, text: string, start: nat, logical: seq<Logical>,
               whole: string, number: nat)
    requires Pending(lines, cuts, i, text, start, logical) && i < |lines| && !Continues(lines[i])
    requires whole == Strip(if text == [] then lines[i] else text + StripLeft(lines[i]))
    requires number == if text == [] then i + 1 else start
    ensures Pending(lines, cuts + [i + 1], i + 1, [], start, logical + Parsed(whole, number))
  {
    hide Strip, StripLeft, Continues, Parsed, Emitted, AllEmitted, BlockAt, RunAt;
    Cut(lines, cuts, i, i + 1);
    ClosedEmits(lines, cuts[|cuts| - 1], i, text, start, whole, number);
  }

  lemma Ended(lines: seq<string>, cuts: seq<nat>, text: string, start: nat, logical: seq<Logical>)
    requires Pending(lines, cuts, |lines|, text, start, logical) && text != []
    ensures IsBlocks(lines, cuts + [|lines|]) && AreRuns(lines, cuts + [|lines|])
    ensures
      AllEmitted(lines, cuts + [|lines|])
      == if Strip(text) != [] then logical + [Logical(Strip(text), start)] else logical
  {
    Cut(lines, cuts, |lines|, |lines|);
    assert Strip(text) == BlockText(lines, cuts[|cuts| - 1], |lines|);
  }

  lemma NothingPending(lines: seq<string>)
    ensures Pending(lines, [0], 0, [], 0, [])
  {
  }

  lemma AllClosed(lines: seq<string>, cuts: seq<nat>, start: nat, logical: seq<Logical>)
    requires Pending(lines, cuts, |lines|, [], start, logical)
    ensures IsBlocks(lines, cuts) && AreRuns(lines, cuts) && logical == AllEmitted(lines, cuts)
    ensures Strip([]) == []
  {
  }

  /** A line that does not continue, behind whatever was pending. */
  method Finish(continuation: string, line: string, start: nat, number: nat) returns (text: string, first: nat)
    ensures text == Strip(if continuation == [] then line else continuation + StripLeft(line))
    ensures first == if continuation == [] then number else start
  {
    text, first := line, number;
    if continuation != "" {
      text, first := continuation + StripLeft(line), start;
    }
    text := Strip(text);
  }

  /** Joins continued lines: what the blocks of the file hand to the parser, and there are such blocks. */
  method Join(lines: seq<string>) returns (logical: seq<Logical>)
    ensures forall cuts | IsBlocks(lines, cuts) :: AreRuns(lines, cuts) && logical == AllEmitted(lines, cuts)
    ensures exists cuts :: IsBlocks(lines, cuts)
  {
    ghost var cuts: seq<nat>;
    logical, cuts := JoinBlocks(lines);
    forall other | IsBlocks(lines, other)
      ensures AreRuns(lines, other) && logical == AllEmitted(lines, other)
    {
      BlocksAreUnique(lines, cuts, other);
    }
  }

  /** The loop, with the partition it follows: the last line of the file is never lost. */
  method JoinBlocks(lines: seq<string>) returns (logical: seq<Logical>, ghost cuts: seq<nat>)
    ensures IsBlocks(lines, cuts) && AreRuns(lines, cuts)
    ensures logical == AllEmitted(lines, cuts)
  {
    hide Pending, IsBlocks, AreRuns, AllEmitted, Continues, Piece, Parsed, Strip, StripLeft;
    logical, cuts := [], [0];
    var continuation, start := "", 0;
    var i := 0;
    NothingPending(lines);
    while i < |lines|
      invariant i <= |lines| && Pending(lines, cuts, i, continuation, start, logical)
    {
      var line, number := lines[i], i + 1;
      if Continues(line) {
        Continued(lines, cuts, i, continuation, start, logical);
        if continuation == "" {
          start := number;
        }
        continuation := continuation + Piece(line);
      } else {
        line, number := Finish(continuation, line, start, number);
        Closed(lines, cuts, i, continuation, start, logical, line, number);
        continuation := "";
        cuts, logical := cuts + [i + 1], logical + Parsed(line, number);
      }
      i := i + 1;
    }
    if continuation != "" {
      Ended(lines, cuts, continuation, start, logical);
      cuts := cuts + [|lines|];
    } else {
      AllClosed(lines, cuts, start, logical);
    }
    if Strip(continuation) != "" {
      logical := logical + [Logical(Strip(continuation), start)];
    }
  }

  // ---- nothing is lost in joining ---------------------------------------------------------------------

  /** The characters that are not blank, in order. */
  function Content(s: string): string {
    if s == [] then [] else Content(s[..|s| - 1]) + if IsSpace(s[|s| - 1]) then [] else [s[|s| - 1]]
  }

  lemma {:induction false} ContentAppend(a: string, b: string)
    ensures Content(a + b) == Content(a) + Content(b)
  {
    if b == [] {
      assert a + b == a;
    } else {
      var n := |b| - 1;
      ContentAppend(a, b[..n]);
      assert (a + b)[..|a + b| - 1] == a + b[..n];
      Associates(Content(a), Content(b[..n]), if IsSpace(b[n]) then [] else [b[n]]);
    }
  }

  lemma {:induction false} BlankHasNoContent(s: string)
    requires AllSpace(s)
    ensures Content(s) == []
  {
    if s != [] {
      BlankHasNoContent(s[..|s| - 1]);
    }
  }

  lemma StrippingKeepsContent(s: string)
    ensures Content(Strip(s)) == Content(s) && Content(StripLeft(s)) == Content(s)
    ensures Content(StripRight(s)) == Content(s)
  {
    var left := StripLeftIs(s);
    var right := StripRightIs(s);
    var after := StripRightIs(StripLeft(s));
    BlankHasNoContent(left);
    BlankHasNoContent(right);
    BlankHasNoContent(after);
    ContentAppend(left, StripLeft(s));
    ContentAppend(StripRight(s), right);
    ContentAppend(Strip(s), after);
  }

  /** What a line says: its content, without the backslash at the end if it continues. */
  function Says(line: string): string {
    var all := Content(line);
    if Continues(line) && all != [] then all[..|all| - 1] else all
  }

  function AllSaid(lines: seq<string>, from: nat, to: nat): string
    requires from <= to <= |lines|
  {
    if from == to then [] else AllSaid(lines, from, to - 1) + Says(lines[to - 1])
  }

  lemma ContinuedLineSays(line: string)
    requires Continues(line)
    ensures Content(line) == Says(line) + ['\\'] && Content(Piece(line)) == Says(line)
  {
    var s := StripRight(line);
    var body := s[..|s| - 1];
    StrippingKeepsContent(line);
    assert Content(s) == Content(body) + ['\\'];
    ContentAppend(body, " ");
    assert Content(" ") == [] by {
      BlankHasNoContent(" ");
    }
    assert (Content(body) + ['\\'])[..|Content(body)|] == Content(body);
  }

  lemma {:induction false} PiecesSay(lines: seq<string>, from: nat, to: nat)
    requires from <= to <= |lines| && forall i | from <= i < to :: Continues(lines[i])
    ensures Content(Pieces(lines, from, to)) == AllSaid(lines, from, to)
  {
    if from < to {
      PiecesSay(lines, from, to - 1);
      ContinuedLineSays(lines[to - 1]);
      ContentAppend(Pieces(lines, from, to - 1), Piece(lines[to - 1]));
    }
  }

  /** A block says what its lines say, one after the other: joining drops the backslashes and otherwise only
      blanks. */
  lemma BlockSaysItsLines(lines: seq<string>, from: nat, to: nat)
    requires IsRun(lines, from, to)
    ensures Content(BlockText(lines, from, to)) == AllSaid(lines, from, to)
  {
    hide Content, Strip, StripLeft;
    if Continues(lines[to - 1]) {
      PiecesSay(lines, from, to);
      StrippingKeepsContent(Pieces(lines, from, to));
    } else {
      PiecesSay(lines, from, to - 1);
      StrippingKeepsContent(lines[to - 1]);
      if from == to - 1 {
        assert AllSaid(lines, from, from) + Says(lines[from]) == Says(lines[from]);
      } else {
        var pieces, last := Pieces(lines, from, to - 1), StripLeft(lines[to - 1]);
        StrippingKeepsContent(pieces + last);
        ContentAppend(pieces, last);
      }
    }
  }

  /** Where two lines of a block meet there is a blank: nothing said by different lines runs together. */
  lemma LinesStayApart(lines: seq<string>, from: nat, mid: nat, to: nat) returns (before: string, after: string)
    requires IsRun(lines, from, to) && from < mid < to
    ensures BlockText(lines, from, to) == Strip(before + " " + after)
    ensures Content(before) == AllSaid(lines, from, mid)
  {
    hide Content, Strip, StripLeft;
    var pieces := Pieces(lines, from, mid);
    PiecesSay(lines, from, mid);
    before := Pieces(lines, from, mid - 1) + StripRight(lines[mid - 1])[..|StripRight(lines[mid - 1])| - 1];
    assert pieces == before + " ";
    BlankKeepsContent(before);
    if Continues(lines[to - 1]) {
      after := PiecesGoOn(lines, from, mid, to);
      SameText(pieces + after, before + " ", after, "");
    } else {
      var rest := PiecesGoOn(lines, from, mid, to - 1);
      after := rest + StripLeft(lines[to - 1]);
      SameText(Pieces(lines, from, to - 1), pieces, rest, StripLeft(lines[to - 1]));
    }
  }

  lemma BlankKeepsContent(s: string)
    ensures Content(s + " ") == Content(s)
  {
    assert (s + " ")[..|s|] == s;
  }

  lemma {:induction false} PiecesGoOn(lines: seq<string>, from: nat, mid: nat, to: nat) returns (rest: string)
    requires from <= mid <= to <= |lines| && forall i | from <= i < to :: Continues(lines[i])
    ensures Pieces(lines, from, to) == Pieces(lines, from, mid) + rest
  {
    if mid == to {
      rest := [];
    } else {
      var front := PiecesGoOn(lines, from, mid, to - 1);
      rest := front + Piece(lines[to - 1]);
      Associates(Pieces(lines, from, mid), front, Piece(lines[to - 1]));
    }
  }

  // ---- comments that swallow what follows -------------------------------------------------------------

  lemma {:induction false} StripLeftKeepsRest(x: string, y: string)
    requires StripLeft(x) != []
    ensures StripLeft(x + y) == StripLeft(x) + y
  {
    if IsSpace(x[0]) {
      assert (x + y)[1..] == x[1..] + y;
      StripLeftKeepsRest(x[1..], y);
    } else {
      assert StripLeft(x) == x;
    }
  }

  lemma {:induction false} StripLeftStartsWithContent(s: string)
    ensures StripLeft(s) != [] ==> !IsSpace(StripLeft(s)[0])
  {
    if s != [] && IsSpace(s[0]) {
      StripLeftStartsWithContent(s[1..]);
    }
  }

  lemma {:induction false} StripRightKeepsHead(s: string)
    requires s != [] && !IsSpace(s[0])
    ensures StripRight(s) != [] && StripRight(s)[0] == s[0]
  {
    if IsSpace(s[|s| - 1]) {
      StripRightKeepsHead(s[..|s| - 1]);
    }
  }

  /** The first character that is not blank survives joining. */
  lemma HeadSurvives(x: string, y: string)
    requires StripLeft(x) != []
    ensures Strip(x + y) != [] && Strip(x + y)[0] == StripLeft(x)[0]
  {
    StripLeftKeepsRest(x, y);
    StripLeftStartsWithContent(x);
    StripRightKeepsHead(StripLeft(x) + y);
  }

  /** What a block's first line says: its content apart from the continuation. */
  function FirstContent(lines: seq<string>, from: nat): string
    requires from < |lines|
  {
    StripLeft(if Continues(lines[from]) then Piece(lines[from]) else lines[from])
  }

  lemma {:induction false} PiecesStart(lines: seq<string>, from: nat, to: nat) returns (rest: string)
    requires from < to <= |lines| && forall i | from <= i < to :: Continues(lines[i])
    ensures Pieces(lines, from, to) == Piece(lines[from]) + rest
  {
    if to == from + 1 {
      rest := "";
      assert Pieces(lines, from, from) == [];
    } else {
      var front := PiecesStart(lines, from, to - 1);
      rest := front + Piece(lines[to - 1]);
      Associates(Piece(lines[from]), front, Piece(lines[to - 1]));
    }
  }

  /** What a finished block of several lines starts with. */
  lemma BlockStart(lines: seq<string>, from: nat, to: nat) returns (rest: string)
    requires IsRun(lines, from, to) && !Continues(lines[to - 1]) && from < to - 1
    ensures BlockText(lines, from, to) == Strip(Piece(lines[from]) + rest)
  {
    var front := PiecesStart(lines, from, to - 1);
    var last := StripLeft(lines[to - 1]);
    rest := front + last;
    SameText(Pieces(lines, from, to - 1), Piece(lines[from]), front, last);
  }

  lemma SameText(pieces: string, a: string, b: string, c: string)
    requires pieces == a + b
    ensures Strip(pieces + c) == Strip(a + (b + c))
  {
    Associates(a, b, c);
  }

  /** A finished block whose first line has any content is parsed exactly when that line is not a
      comment: a comment that ends in a backslash takes the whole block with it. */
  lemma CommentSwallowsBlock(lines: seq<string>, from: nat, to: nat)
    requires IsRun(lines, from, to) && !Continues(lines[to - 1]) && FirstContent(lines, from) != []
    ensures Emitted(lines, from, to) == [] <==> FirstContent(lines, from)[0] == '#'
  {
    var text := BlockText(lines, from, to);
    if from == to - 1 {
      HeadSurvives(lines[from], "");
      assert lines[from] + "" == lines[from];
    } else {
      var rest := BlockStart(lines, from, to);
      HeadSurvives(Piece(lines[from]), rest);
    }
    assert text != [] && text[0] == FirstContent(lines, from)[0];
  }

  /** A `USER` directive the parser never sees. */
  lemma {:induction false} DirectiveLostBehindComment()
    ensures
      var lines := ["# \\", "USER app"];
      IsBlocks(lines, [0, 2]) && AreRuns(lines, [0, 2]) && AllEmitted(lines, [0, 2]) == []
  {
    var lines := ["# \\", "USER app"];
    assert StripRight("# \\") == "# \\" && StripRight("USER app") == "USER app";
    assert Continues(lines[0]) && !Continues(lines[1]);
    assert IsBlock(lines, 0, 2);
    assert FirstContent(lines, 0)[0] == '#';
    CommentSwallowsBlock(lines, 0, 2);
    OneMoreBlock(lines, [0], 2);
    assert [0] + [2] == [0, 2];
  }
}
