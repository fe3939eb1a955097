/** What automatic remediation does to a Dockerfile, over any number of rounds. */
module Remediation {
  import opened Text

  // ---- text and lines ---------------------------------------------------------------------------------

  /** Lines end at newlines; a final newline ends the last line and starts none. */
  function SplitLines(content: string): seq<string> {
    var parts := Split(content, '\n');
    if parts[|parts| - 1] == [] then parts[..|parts| - 1] else parts
  }

  function JoinLines(lines: seq<string>): string {
    Join(lines, '\n') + ['\n']
  }

  predicate OneLine(s: string) {
    s != [] && '\n' !in s
  }

  lemma {:induction false} PartsHoldNoSeparator(s: string, sep: char)
    ensures forall p | p in Split(s, sep) :: sep !in p
  {
    if s != [] {
      PartsHoldNoSeparator(s[1..], sep);
    }
  }

  lemma LinesHoldNoNewline(content: string)
    ensures forall line | line in SplitLines(content) :: '\n' !in line
  {
    PartsHoldNoSeparator(content, '\n');
  }

  lemma LinesOfJoined(lines: seq<string>)
    requires lines != [] && forall line | line in lines :: '\n' !in line
    ensures SplitLines(JoinLines(lines)) == lines
  {
    SplitOfJoin(lines, '\n');
    SplitAppend(Join(lines, '\n'), "", '\n');
    assert Join(lines, '\n') + ['\n'] + "" == JoinLines(lines);
    assert Split("", '\n') == [""];
    assert (lines + [""])[..|lines|] == lines;
  }

  /** `needle in content.lower()` */
  predicate Mentions(content: string, needle: string) {
    Contains(Lower(content), needle)
  }

  lemma LowerAcross(a: string, b: string)
    ensures Lower(a + ['\n'] + b) == Lower(a) + ['\n'] + Lower(b)
  {
  }

  lemma OccursInOneSide(a: string, b: string, sep: char, needle: string, i: nat)
    requires needle != [] && sep !in needle && OccursAt(a + [sep] + b, needle, i)
    ensures OccursAt(a, needle, i) || (i > |a| && OccursAt(b, needle, i - |a| - 1))
  {
    var whole := a + [sep] + b;
    assert whole[|a|] == sep;
    forall k | i <= k < i + |needle|
      ensures whole[k] != sep
    {
      assert whole[k] == needle[k - i];
    }
    if i + |needle| <= |a| {
      assert whole[i..i + |needle|] == a[i..i + |needle|];
    } else {
      var j := i - |a| - 1;
      assert whole[i..i + |needle|] == b[j..j + |needle|];
    }
  }

  lemma SliceOfFirst(a: string, rest: string, i: nat, n: nat)
    requires i + n <= |a|
    ensures (a + rest)[i..i + n] == a[i..i + n]
  {
  }

  lemma SliceOfSecond(front: string, b: string, i: nat, n: nat)
    requires i + n <= |b|
    ensures (front + b)[|front| + i..|front| + i + n] == b[i..i + n]
  {
  }

  lemma OccursAcross(a: string, b: string, sep: char, needle: string)
    requires needle != [] && sep !in needle
    ensures Contains(a + [sep] + b, needle) <==> Contains(a, needle) || Contains(b, needle)
  {
    var whole := a + [sep] + b;
    if Contains(whole, needle) {
      var i: nat :| i <= |whole| && OccursAt(whole, needle, i);
      OccursInOneSide(a, b, sep, needle, i);
    }
    if Contains(a, needle) {
      var i: nat :| i <= |a| && OccursAt(a, needle, i);
      SliceOfFirst(a, [sep] + b, i, |needle|);
      assert a + ([sep] + b) == whole;
      assert OccursAt(whole, needle, i);
    }
    if Contains(b, needle) {
      var i: nat :| i <= |b| && OccursAt(b, needle, i);
      SliceOfSecond(a + [sep], b, i, |needle|);
      assert OccursAt(whole, needle, |a| + 1 + i);
    }
  }

  ghost predicate LineMentions(lines: seq<string>, needle: string) {
    exists line | line in lines :: Mentions(line, needle)
  }

  lemma OneLineMore(line: string, lines: seq<string>, needle: string)
    ensures LineMentions([line] + lines, needle) <==> Mentions(line, needle) || LineMentions(lines, needle)
  {
    var all := [line] + lines;
    assert all[0] in all;
    assert forall l | l in lines :: l in all;
  }

  lemma {:induction false} MentionedByAPart(parts: seq<string>, needle: string)
    requires parts != [] && needle != [] && '\n' !in needle
    ensures Mentions(Join(parts, '\n'), needle) <==> LineMentions(parts, needle)
  {
    OneLineMore(parts[0], parts[1..], needle);
    assert parts == [parts[0]] + parts[1..];
    if |parts| > 1 {
      MentionedByAPart(parts[1..], needle);
      LowerAcross(parts[0], Join(parts[1..], '\n'));
      OccursAcross(Lower(parts[0]), Lower(Join(parts[1..], '\n')), '\n', needle);
    }
  }

  lemma NothingMentions(needle: string)
    requires needle != []
    ensures !Mentions([], needle)
  {
  }

  /** A text without newlines occurs in a file exactly when it occurs in one of its lines. */
  lemma MentionedByALine(content: string, needle: string)
    requires needle != [] && '\n' !in needle
    ensures Mentions(content, needle) <==> LineMentions(SplitLines(content), needle)
  {
    hide Mentions, Split, Join;
    var parts := Split(content, '\n');
    JoinOfSplit(content, '\n');
    MentionedByAPart(parts, needle);
    var last := |parts| - 1;
    if parts[last] == [] {
      NothingMentions(needle);
      assert parts == parts[..last] + [parts[last]];
    }
  }

  // ---- where an instruction goes ----------------------------------------------------------------------

  predicate IsUser(line: string) {
    StartsWith(Upper(Strip(line)), "USER ")
  }

  predicate IsFrom(line: string) {
    StartsWith(Upper(Strip(line)), "FROM ")
  }

  /** The first USER line, or the number of lines. */
  function FirstUser(lines: seq<string>): (i: nat)
    ensures i <= |lines| && (i < |lines| ==> IsUser(lines[i]))
    ensures forall k | 0 <= k < i :: !IsUser(lines[k])
  {
    if lines == [] || IsUser(lines[0]) then 0 else 1 + FirstUser(lines[1..])
  }

  /** The last FROM line, or 0. */
  function LastFrom(lines: seq<string>): (i: nat)
    ensures i == 0 || (i < |lines| && IsFrom(lines[i]))
    ensures forall k | i < k < |lines| :: !IsFrom(lines[k])
  {
    if lines == [] then 0
    else if IsFrom(lines[|lines| - 1]) then |lines| - 1
    else LastFrom(lines[..|lines| - 1])
  }

  function InsertAt(lines: seq<string>): (i: nat)
    ensures i <= |lines|
  {
    if FirstUser(lines) < |lines| then FirstUser(lines)
    else if LastFrom(lines) + 1 <= |lines| then LastFrom(lines) + 1
    else |lines|
  }

  /** The instruction goes right before the first USER; in a file without one right behind the last FROM, and
      without that behind the first line. */
  lemma PlaceIs(lines: seq<string>)
    ensures
      var at := InsertAt(lines);
      if exists line | line in lines :: IsUser(line) then
        at < |lines| && IsUser(lines[at]) && forall k | 0 <= k < at :: !IsUser(lines[k])
      else if exists line | line in lines :: IsFrom(line) then
        at > 0 && IsFrom(lines[at - 1]) && forall k | at <= k < |lines| :: !IsFrom(lines[k])
      else
        at == if lines == [] then 0 else 1
  {
    hide IsUser, IsFrom, FirstUser, LastFrom;
    if line :| line in lines && IsUser(line) {
      var k :| 0 <= k < |lines| && lines[k] == line;
      assert FirstUser(lines) < |lines|;
    } else if line :| line in lines && IsFrom(line) {
      var k :| 0 <= k < |lines| && lines[k] == line;
      assert k <= LastFrom(lines);
    }
  }

  lemma UpperOfWord(word: string, rest: string)
    ensures Upper(word + rest)[..|word|] == Upper(word)
  {
  }

  lemma {:induction false} NothingToStrip(s: string)
    requires s != [] && !IsSpace(s[0]) && !IsSpace(s[|s| - 1])
    ensures Strip(s) == s
  {
  }

  lemma DirectiveIs(word: string, rest: string, directive: string)
    requires word != [] && !IsSpace(word[0]) && rest != [] && !IsSpace(rest[|rest| - 1])
    requires |word| == |directive|
    ensures StartsWith(Upper(Strip(word + rest)), directive) <==> Upper(word) == directive
  {
    NothingToStrip(word + rest);
    UpperOfWord(word, rest);
    assert directive <= Upper(word + rest) <==> Upper(word + rest)[..|word|] == directive;
  }

  /** The word in any case and a blank behind it make the directive; a longer word does not. */
  lemma DirectivesAre(rest: string)
    requires rest != [] && !IsSpace(rest[|rest| - 1])
    ensures IsUser("USER " + rest) && IsUser("user " + rest) && !IsUser("USERS" + rest)
    ensures IsFrom("FROM " + rest) && IsFrom("from " + rest) && !IsFrom("FROMS" + rest)
  {
    hide Strip;
    WordsInCapitals();
    DirectiveIs("USER ", rest, "USER ");
    DirectiveIs("user ", rest, "USER ");
    DirectiveIs("USERS", rest, "USER ");
    DirectiveIs("FROM ", rest, "FROM ");
    DirectiveIs("from ", rest, "FROM ");
    DirectiveIs("FROMS", rest, "FROM ");
  }

  lemma WordsInCapitals()
    ensures Upper("USER ") == "USER " == Upper("user ") && Upper("USERS") == "USERS" && "USERS"[4] != "USER "[4]
    ensures Upper("FROM ") == "FROM " == Upper("from ") && Upper("FROMS") == "FROMS" && "FROMS"[4] != "FROM "[4]
  {
  }

  /** The instruction reaches the final stage exactly when no USER comes before the last FROM. */
  lemma ReachesFinalStage(lines: seq<string>, from: nat)
    requires from < |lines| && IsFrom(lines[from]) && forall k | from < k < |lines| :: !IsFrom(lines[k])
    ensures InsertAt(lines) > from <==> forall k | 0 <= k < from :: !IsUser(lines[k])
  {
    assert LastFrom(lines) == from;
    FromIsNotUser(lines[from]);
  }

  lemma FromIsNotUser(line: string)
    ensures !(IsFrom(line) && IsUser(line))
  {
    var s := Upper(Strip(line));
    if "FROM " <= s {
      assert s[0] == "FROM "[0];
      assert "USER "[0] != 'F';
    }
  }

  function Put(lines: seq<string>, i: nat, line: string): seq<string>
    requires i <= |lines|
  {
    lines[..i] + [line] + lines[i..]
  }

  function Inserted(content: string, instruction: string): string {
    var lines := SplitLines(content);
    JoinLines(Put(lines, InsertAt(lines), instruction))
  }

  /** The lines of the new file are the lines of the old with one more among them. */
  lemma InsertionAddsOneLine(content: string, instruction: string)
    requires OneLine(instruction)
    ensures
      var lines := SplitLines(content);
      SplitLines(Inserted(content, instruction)) == Put(lines, InsertAt(lines), instruction)
  {
    var lines := SplitLines(content);
    LinesHoldNoNewline(content);
    LinesOfJoined(Put(lines, InsertAt(lines), instruction));
  }

  method FindPlace(lines: seq<string>) returns (at: nat)
    ensures at == InsertAt(lines)
  {
    for i := 0 to |lines|
      invariant forall k | 0 <= k < i :: !IsUser(lines[k])
    {
      if IsUser(lines[i]) {
        return i;
      }
    }
    var last := 0;
    for i := 0 to |lines|
      invariant last == 0 || (last < i && IsFrom(lines[last]))
      invariant forall k | last < k < i :: !IsFrom(lines[k])
    {
      if IsFrom(lines[i]) {
        last := i;
      }
    }
    at := if last + 1 <= |lines| then last + 1 else |lines|;
  }

  method InsertInstruction(content: string, instruction: string) returns (result: string)
    ensures result == Inserted(content, instruction)
  {
    var lines := SplitLines(content);
    var at := FindPlace(lines);
    lines := Put(lines, at, instruction);
    result := JoinLines(lines);
  }

  // ---- the patches ------------------------------------------------------------------------------------

  datatype Vuln = Vuln(package: string, fixedVersion: string)

  /** A line to insert, for files that do not mention the guard yet. */
  datatype Patch = Patch(command: string, guard: string)

  predicate OneLiners(fixes: seq<Patch>) {
    forall fix | fix in fixes :: OneLine(fix.command)
  }

  const APK_COMMAND := "RUN apk upgrade --no-cache" + " && rm -rf /var/cache/apk/*"
  const APT_COMMAND := "RUN apt-get update" + (" && apt-get upgrade -y" + " && rm -rf /var/lib/apt/lists/*")
  const NPM_COMMAND := "RUN npm install -g npm@latest" + " && npm cache clean --force"
  const PIP_COMMAND := "RUN pip install --no-cache-dir" + " --upgrade pip setuptools wheel"

  const APK_GUARD := "apk upgrade"
  const APT_GUARD := "apt-get upgrade"
  const NPM_GUARD := "npm install -g npm"
  const PIP_GUARD := "pip install --upgrade pip"

  const APK := Patch(APK_COMMAND, APK_GUARD)
  const APT := Patch(APT_COMMAND, APT_GUARD)
  const NPM := Patch(NPM_COMMAND, NPM_GUARD)
  const PIP := Patch(PIP_COMMAND, PIP_GUARD)

  predicate IsOsVuln(v: Vuln) {
    && v.fixedVersion != ""
    && !Mentions(v.package, "npm") && !Mentions(v.package, "pip") && !Mentions(v.package, "node_modules")
  }

  predicate HasOsVulns(vulns: seq<Vuln>) {
    exists v | v in vulns :: IsOsVuln(v)
  }

  predicate HasNpmVulns(vulns: seq<Vuln>) {
    exists v | v in vulns :: Mentions(v.package, "npm")
  }

  predicate IsPipVuln(v: Vuln) {
    Lower(v.package) == "pip" || Lower(v.package) == "setuptools" || Lower(v.package) == "wheel"
  }

  predicate HasPipVulns(vulns: seq<Vuln>) {
    exists v | v in vulns :: IsPipVuln(v)
  }

  predicate IsAlpine(content: string) {
    Mentions(content, "alpine")
  }

  predicate IsDebian(content: string) {
    Mentions(content, "debian") || Mentions(content, "ubuntu") || Mentions(content, "slim")
  }

  /** The patches one round applies, in order.  All guards look at the file as the round found it. */
  function Fixes(content: string, vulns: seq<Vuln>): seq<Patch> {
    (OsFixes(content, vulns) + Unless(content, HasNpmVulns(vulns), NPM)) + Unless(content, HasPipVulns(vulns), PIP)
  }

  function OsFixes(content: string, vulns: seq<Vuln>): seq<Patch> {
    if !HasOsVulns(vulns) then []
    else if IsAlpine(content) && !Mentions(content, APK.guard) then [APK]
    else Unless(content, IsDebian(content), APT)
  }

  function Unless(content: string, called: bool, fix: Patch): seq<Patch> {
    if called && !Mentions(content, fix.guard) then [fix] else []
  }

  function InsertAll(content: string, fixes: seq<Patch>): string {
    if fixes == [] then content
    else Inserted(InsertAll(content, fixes[..|fixes| - 1]), fixes[|fixes| - 1].command)
  }

  lemma InsertOneMore(content: string, fixes: seq<Patch>, fix: Patch)
    ensures InsertAll(content, fixes + [fix]) == Inserted(InsertAll(content, fixes), fix.command)
  {
    assert (fixes + [fix])[..|fixes|] == fixes;
  }

  method Derive(original: string, vulns: seq<Vuln>) returns (content: string, applied: seq<Patch>)
    ensures applied == Fixes(original, vulns) && content == InsertAll(original, applied)
  {
    content, applied := original, [];
    if HasOsVulns(vulns) {
      if IsAlpine(original) && !Mentions(original, APK.guard) {
        content, applied := Apply(original, content, applied, APK);
      } else {
        content, applied := ApplyUnless(original, content, applied, IsDebian(original), APT);
      }
    }
    assert applied == OsFixes(original, vulns);
    content, applied := ApplyUnless(original, content, applied, HasNpmVulns(vulns), NPM);
    content, applied := ApplyUnless(original, content, applied, HasPipVulns(vulns), PIP);
  }

  method ApplyUnless(original: string, content: string, applied: seq<Patch>, called: bool, fix: Patch)
    returns (patched: string, now: seq<Patch>)
    requires content == InsertAll(original, applied)
    ensures now == applied + Unless(original, called, fix) && patched == InsertAll(original, now)
  {
    patched, now := content, applied;
    if called && !Mentions(original, fix.guard) {
      patched, now := Apply(original, content, applied, fix);
    }
  }

  method Apply(ghost original: string, content: string, applied: seq<Patch>, fix: Patch)
    returns (patched: string, now: seq<Patch>)
    requires content == InsertAll(original, applied)
    ensures now == applied + [fix] && patched == InsertAll(original, now)
  {
    patched := InsertInstruction(content, fix.command);
    now := applied + [fix];
    InsertOneMore(original, applied, fix);
  }

  // ---- rounds -----------------------------------------------------------------------------------------

  /** What patches to apply to a file, given a report. */
  type Remedy = (string, seq<Vuln>) -> seq<Patch>

  /** The file after a round for each report; a round that applies nothing leaves it alone. */
  function After(remedy: Remedy, content: string, reports: seq<seq<Vuln>>): string {
    if reports == [] then content
    else
      var before := After(remedy, content, reports[..|reports| - 1]);
      InsertAll(before, remedy(before, reports[|reports| - 1]))
  }

  function Applied(remedy: Remedy, content: string, reports: seq<seq<Vuln>>): seq<Patch> {
    if reports == [] then []
    else
      var front := reports[..|reports| - 1];
      Applied(remedy, content, front) + remedy(After(remedy, content, front), reports[|reports| - 1])
  }

  function Kept(lines: seq<string>, added: seq<bool>): seq<string>
    requires |lines| == |added|
  {
    if lines == [] then []
    else Kept(lines[..|lines| - 1], added[..|added| - 1]) + if added[|added| - 1] then [] else [lines[|lines| - 1]]
  }

  function Added(lines: seq<string>, added: seq<bool>): multiset<string>
    requires |lines| == |added|
  {
    if lines == [] then multiset{}
    else
      Added(lines[..|lines| - 1], added[..|added| - 1])
      + if added[|added| - 1] then multiset{lines[|lines| - 1]} else multiset{}
  }

  function Commands(fixes: seq<Patch>): multiset<string> {
    if fixes == [] then multiset{}
    else Commands(fixes[..|fixes| - 1]) + multiset{fixes[|fixes| - 1].command}
  }

  function Mark(added: seq<bool>, i: nat): seq<bool>
    requires i <= |added|
  {
    added[..i] + [true] + added[i..]
  }

  /** Without the marked lines it is the original, and the marked lines are the patches' commands. */
  predicate Extends(original: seq<string>, lines: seq<string>, added: seq<bool>, fixes: seq<Patch>) {
    && |lines| == |added|
    && Kept(lines, added) == original
    && Added(lines, added) == Commands(fixes)
  }

  lemma KeptAtEnd(lines: seq<string>, added: seq<bool>, line: string, mark: bool)
    requires |lines| == |added| > 0 && lines[|lines| - 1] == line && added[|added| - 1] == mark
    ensures
      var l, a := lines[..|lines| - 1], added[..|lines| - 1];
      && Kept(lines, added) == Kept(l, a) + (if mark then [] else [line])
      && Added(lines, added) == Added(l, a) + (if mark then multiset{line} else multiset{})
  {
  }

  lemma {:induction false} KeptOfPut(lines: seq<string>, added: seq<bool>, i: nat, line: string)
    requires |lines| == |added| && i <= |lines|
    ensures Kept(Put(lines, i, line), Mark(added, i)) == Kept(lines, added)
    ensures Added(Put(lines, i, line), Mark(added, i)) == Added(lines, added) + multiset{line}
  {
    hide Kept, Added;
    var n := |lines|;
    KeptAtEnd(Put(lines, i, line), Mark(added, i), Put(lines, i, line)[n], Mark(added, i)[n]);
    if i == n {
      assert Put(lines, i, line)[..n] == lines;
      assert Mark(added, i)[..n] == added;
    } else {
      KeptOfPut(lines[..n - 1], added[..n - 1], i, line);
      FrontOfPut(lines, i, line);
      FrontOfMark(added, i);
      KeptAtEnd(lines, added, lines[n - 1], added[n - 1]);
    }
  }

  lemma FrontOfPut(lines: seq<string>, i: nat, line: string)
    requires i < |lines|
    ensures Put(lines, i, line)[..|lines|] == Put(lines[..|lines| - 1], i, line)
    ensures Put(lines, i, line)[|lines|] == lines[|lines| - 1]
  {
  }

  lemma FrontOfMark(added: seq<bool>, i: nat)
    requires i < |added|
    ensures Mark(added, i)[..|added|] == Mark(added[..|added| - 1], i)
    ensures Mark(added, i)[|added|] == added[|added| - 1]
  {
  }

  lemma {:induction false} NothingMarked(lines: seq<string>) returns (added: seq<bool>)
    ensures Extends(lines, lines, added, [])
  {
    if lines == [] {
      added := [];
    } else {
      var front := NothingMarked(lines[..|lines| - 1]);
      added := front + [false];
      assert added[..|added| - 1] == front;
      assert lines == lines[..|lines| - 1] + [lines[|lines| - 1]];
    }
  }

  lemma {:induction false} PatchesAreOneLine()
    ensures OneLine(APK.guard) && OneLine(APT.guard) && OneLine(NPM.guard) && OneLine(PIP.guard)
    ensures OneLine(APK.command) && OneLine(APT.command) && OneLine(NPM.command) && OneLine(PIP.command)
  {
    ApkIsOneLine();
    AptIsOneLine();
    NpmIsOneLine();
    PipIsOneLine();
  }

  lemma ApkIsOneLine()
    ensures OneLine(APK_COMMAND)
  {
  }

  lemma AptIsOneLine()
    ensures OneLine(APT_COMMAND)
  {
  }

  lemma NpmIsOneLine()
    ensures OneLine(NPM_COMMAND)
  {
  }

  lemma PipIsOneLine()
    ensures OneLine(PIP_COMMAND)
  {
  }

  lemma {:induction false} FixesAreOneLine(content: string, vulns: seq<Vuln>)
    ensures OneLiners(Fixes(content, vulns))
  {
    PatchesAreOneLine();
  }

  ghost predicate WritesOneLiners(remedy: Remedy) {
    forall content, vulns :: OneLiners(remedy(content, vulns))
  }

  lemma FixesWriteOneLiners()
    ensures WritesOneLiners(Fixes)
  {
    forall content, vulns
      ensures OneLiners(Fixes(content, vulns))
    {
      FixesAreOneLine(content, vulns);
    }
  }

  lemma CommandsAppend(before: seq<Patch>, fix: Patch)
    ensures Commands(before + [fix]) == Commands(before) + multiset{fix.command}
  {
    assert (before + [fix])[..|before|] == before;
  }

  lemma LastApart(before: seq<Patch>, fixes: seq<Patch>)
    requires fixes != []
    ensures before + fixes == (before + fixes[..|fixes| - 1]) + [fixes[|fixes| - 1]]
    ensures fixes == fixes[..|fixes| - 1] + [fixes[|fixes| - 1]]
  {
  }

  lemma {:induction false} PatchesOnlyAdd(original: seq<string>, content: string, added: seq<bool>,
                                          before: seq<Patch>, fixes: seq<Patch>) returns (now: seq<bool>)
    requires Extends(original, SplitLines(content), added, before) && OneLiners(fixes)
    ensures Extends(original, SplitLines(InsertAll(content, fixes)), now, before + fixes)
  {
    if fixes == [] {
      now := added;
      assert before + fixes == before;
    } else {
      var front, last := fixes[..|fixes| - 1], fixes[|fixes| - 1];
      var marks := PatchesOnlyAdd(original, content, added, before, front);
      now := OnePatchOnlyAdds(original, InsertAll(content, front), marks, before + front, last);
      LastApart(before, fixes);
    }
  }

  lemma OnePatchOnlyAdds(original: seq<string>, content: string, added: seq<bool>, before: seq<Patch>, fix: Patch)
    returns (now: seq<bool>)
    requires Extends(original, SplitLines(content), added, before) && OneLine(fix.command)
    ensures Extends(original, SplitLines(Inserted(content, fix.command)), now, before + [fix])
  {
    var lines := SplitLines(content);
    var at := InsertAt(lines);
    now := Mark(added, at);
    KeptOfPut(lines, added, at, fix.command);
    InsertionAddsOneLine(content, fix.command);
    CommandsAppend(before, fix);
  }

  /** After any rounds, striking the patches' lines gives back the original lines in order, and what is
      struck is one line for each patch applied. */
  lemma {:induction false} RemediationOnlyAdds(remedy: Remedy, content: string, reports: seq<seq<Vuln>>)
    returns (added: seq<bool>)
    requires WritesOneLiners(remedy)
    ensures
      var lines := SplitLines(After(remedy, content, reports));
      Extends(SplitLines(content), lines, added, Applied(remedy, content, reports))
  {
    if reports == [] {
      added := NothingMarked(SplitLines(content));
    } else {
      var front := reports[..|reports| - 1];
      var marks := RemediationOnlyAdds(remedy, content, front);
      var before := After(remedy, content, front);
      added := PatchesOnlyAdd(SplitLines(content), before, marks, Applied(remedy, content, front),
                              remedy(before, reports[|reports| - 1]));
    }
  }

  // ---- which round applies which patch ----------------------------------------------------------------

  lemma PutMentions(lines: seq<string>, i: nat, line: string, needle: string)
    requires i <= |lines|
    ensures LineMentions(Put(lines, i, line), needle) <==> LineMentions(lines, needle) || Mentions(line, needle)
  {
    var all := Put(lines, i, line);
    assert all[i] == line;
    assert forall l :: l in all <==> l in lines || l == line by {
      assert lines == lines[..i] + lines[i..];
    }
  }

  lemma InsertedMentions(content: string, instruction: string, needle: string)
    requires OneLine(instruction) && OneLine(needle)
    ensures
      Mentions(Inserted(content, instruction), needle) <==> Mentions(content, needle) || Mentions(instruction, needle)
  {
    var lines := SplitLines(content);
    InsertionAddsOneLine(content, instruction);
    MentionedByALine(Inserted(content, instruction), needle);
    MentionedByALine(content, needle);
    PutMentions(lines, InsertAt(lines), instruction, needle);
  }

  ghost predicate Brings(fixes: seq<Patch>, guard: string) {
    exists fix | fix in fixes :: Mentions(fix.command, guard)
  }

  lemma BringsAppend(fixes: seq<Patch>, more: seq<Patch>, guard: string)
    ensures Brings(fixes + more, guard) <==> Brings(fixes, guard) || Brings(more, guard)
  {
    assert forall fix :: fix in fixes + more <==> fix in fixes || fix in more;
  }

  lemma BringsOne(fix: Patch, guard: string)
    ensures Brings([fix], guard) <==> Mentions(fix.command, guard)
  {
    assert fix in [fix];
  }

  lemma {:induction false} InsertAllMentions(content: string, fixes: seq<Patch>, guard: string)
    requires OneLiners(fixes) && OneLine(guard)
    ensures Mentions(InsertAll(content, fixes), guard) <==> Mentions(content, guard) || Brings(fixes, guard)
  {
    if fixes != [] {
      var front, last := fixes[..|fixes| - 1], fixes[|fixes| - 1];
      InsertAllMentions(content, front, guard);
      InsertedMentions(InsertAll(content, front), last.command, guard);
      BringsOne(last, guard);
      BringsAppend(front, [last], guard);
      LastApart([], fixes);
    }
  }

  lemma {:induction false} AfterMentions(remedy: Remedy, content: string, reports: seq<seq<Vuln>>, guard: string)
    requires WritesOneLiners(remedy) && OneLine(guard)
    ensures
      Mentions(After(remedy, content, reports), guard)
      <==> Mentions(content, guard) || Brings(Applied(remedy, content, reports), guard)
  {
    if reports != [] {
      var front := reports[..|reports| - 1];
      AfterMentions(remedy, content, front, guard);
      var fixes := remedy(After(remedy, content, front), reports[|reports| - 1]);
      InsertAllMentions(After(remedy, content, front), fixes, guard);
      BringsAppend(Applied(remedy, content, front), fixes, guard);
    }
  }

  // ---- which command brings which guard ---------------------------------------------------------------

  lemma BringsItsOwn(command: string, guard: string, at: nat)
    requires at + |guard| <= |command|
    requires forall k | 0 <= k < |guard| :: LowerChar(command[at + k]) == guard[k]
    ensures Mentions(command, guard)
  {
    assert Lower(command)[at..at + |guard|] == guard;
    assert OccursAt(Lower(command), guard, at);
  }

  lemma ApkBringsApk()
    ensures Mentions(APK_COMMAND, APK_GUARD)
  {
    BringsItsOwn(APK_COMMAND, APK_GUARD, 4);
  }

  lemma AptBringsApt()
    ensures Mentions(APT_COMMAND, APT_GUARD)
  {
    BringsItsOwn(APT_COMMAND, APT_GUARD, 22);
  }

  lemma NpmBringsNpm()
    ensures Mentions(NPM_COMMAND, NPM_GUARD)
  {
    BringsItsOwn(NPM_COMMAND, NPM_GUARD, 4);
  }

  /** Wherever the command has character `q` of the guard, it does not have character `p` as far before. */
  ghost predicate Apart(command: string, guard: string, p: nat, q: nat)
    requires p <= q < |guard|
  {
    forall k | q - p <= k < |command| ::
      LowerChar(command[k]) == guard[q] ==> LowerChar(command[k - (q - p)]) != guard[p]
  }

  lemma DoesNotBring(command: string, guard: string, p: nat, q: nat)
    requires p < q < |guard| && Apart(command, guard, p, q)
    ensures !Mentions(command, guard)
  {
    var low := Lower(command);
    forall i: nat | i <= |low|
      ensures !OccursAt(low, guard, i)
    {
      if i + |guard| <= |low| {
        var window := low[i..i + |guard|];
        assert window[p] == low[i + p] && window[q] == LowerChar(command[i + q]);
      }
    }
  }

  lemma LacksLetter(command: string, guard: string, q: nat)
    requires q < |guard| && forall c | c in command :: LowerChar(c) != guard[q]
    ensures !Mentions(command, guard)
  {
    var low := Lower(command);
    forall i: nat | i <= |low|
      ensures !OccursAt(low, guard, i)
    {
      if i + |guard| <= |low| {
        var window := low[i..i + |guard|];
        assert window[q] == LowerChar(command[i + q]);
      }
    }
  }

  lemma PipDoesNotBringPip()
    ensures !Mentions(PIP_COMMAND, PIP_GUARD)
  {
    UInPip();
    assert PIP_COMMAND[29] == 'r' && PIP_COMMAND[44] == ' ' && PIP_GUARD[10] == 'l' && PIP_GUARD[14] == 'u';
    assert Apart(PIP_COMMAND, PIP_GUARD, 10, 14);
    DoesNotBring(PIP_COMMAND, PIP_GUARD, 10, 14);
  }

  lemma UInPip()
    ensures forall k | 0 <= k < |PIP_COMMAND| && LowerChar(PIP_COMMAND[k]) == 'u' :: k == 1 || k == 33 || k == 48
  {
  }

  lemma AptDoesNotBringPip()
    ensures !Mentions(APT_COMMAND, PIP_GUARD)
  {
    NInApt();
    assert APT_COMMAND[1] == 'U' && PIP_GUARD[4] == 'i' && PIP_GUARD[5] == 'n';
    assert Apart(APT_COMMAND, PIP_GUARD, 4, 5);
    DoesNotBring(APT_COMMAND, PIP_GUARD, 4, 5);
  }

  lemma NInApt()
    ensures forall k | 0 <= k < |APT_COMMAND| && LowerChar(APT_COMMAND[k]) == 'n' :: k == 2
  {
  }

  lemma ApkDoesNotBringPip()
    ensures !Mentions(APK_COMMAND, PIP_GUARD)
  {
    assert PIP_GUARD[1] == 'i';
    LacksLetter(APK_COMMAND, PIP_GUARD, 1);
  }

  lemma NpmDoesNotBringPip()
    ensures !Mentions(NPM_COMMAND, PIP_GUARD)
  {
    assert PIP_GUARD[19] == 'd';
    LacksLetter(NPM_COMMAND, PIP_GUARD, 19);
  }

  predicate IsPatch(fix: Patch) {
    fix == APK || fix == APT || fix == NPM || fix == PIP
  }

  lemma PatchesDiffer()
    ensures APK != APT && APK != NPM && APK != PIP && APT != NPM && APT != PIP && NPM != PIP
  {
    assert |APK.guard| == 11 && |APT.guard| == 15 && |NPM.guard| == 18 && |PIP.guard| == 25;
  }

  /** A round applies no patch twice, and none whose guard the file already mentions. */
  lemma {:induction false} OneRound(content: string, vulns: seq<Vuln>, fix: Patch)
    ensures multiset(Fixes(content, vulns))[fix] <= 1
    ensures fix in Fixes(content, vulns) ==> IsPatch(fix) && !Mentions(content, fix.guard)
    ensures PIP in Fixes(content, vulns) <==> HasPipVulns(vulns) && !Mentions(content, PIP_GUARD)
  {
    hide Mentions, Fixes, HasNpmVulns, HasPipVulns;
    PatchesDiffer();
    FixesAreParts(content, vulns, fix);
    if fix in OsFixes(content, vulns) {
      OsFixesAreUnguarded(content, vulns, fix);
    }
  }

  lemma OsFixesAreUnguarded(content: string, vulns: seq<Vuln>, fix: Patch)
    requires fix in OsFixes(content, vulns)
    ensures (fix == APK || fix == APT) && !Mentions(content, fix.guard)
  {
  }

  lemma FixesAreParts(content: string, vulns: seq<Vuln>, fix: Patch)
    ensures multiset(Fixes(content, vulns))[fix] <= 1
    ensures fix in Fixes(content, vulns) <==>
            || fix in OsFixes(content, vulns)
            || fix in Unless(content, HasNpmVulns(vulns), NPM)
            || fix in Unless(content, HasPipVulns(vulns), PIP)
    ensures PIP in Fixes(content, vulns) <==> Unless(content, HasPipVulns(vulns), PIP) != []
  {
    hide Mentions, HasOsVulns, HasNpmVulns, HasPipVulns, IsAlpine, IsDebian;
    var os, npm, pip := OsFixes(content, vulns), Unless(content, HasNpmVulns(vulns), NPM),
                        Unless(content, HasPipVulns(vulns), PIP);
    OneRoundParts(os, npm, pip, fix);
  }

  lemma OneRoundParts(os: seq<Patch>, npm: seq<Patch>, pip: seq<Patch>, fix: Patch)
    requires os == [] || os == [APK] || os == [APT]
    requires npm == [] || npm == [NPM]
    requires pip == [] || pip == [PIP]
    ensures multiset((os + npm) + pip)[fix] <= 1
    ensures fix in (os + npm) + pip <==> fix in os || fix in npm || fix in pip
    ensures PIP in (os + npm) + pip <==> pip != []
  {
    PatchesDiffer();
    assert multiset((os + npm) + pip) == multiset(os) + multiset(npm) + multiset(pip);
  }

  /** A fixable finding in a package of the system. */
  ghost predicate CallsForSystem(vulns: seq<Vuln>) {
    exists v | v in vulns ::
      && v.fixedVersion != ""
      && !Mentions(v.package, "npm") && !Mentions(v.package, "pip") && !Mentions(v.package, "node_modules")
  }

  /** Which patches a round applies: apk on an Alpine base, apt on a Debian or Ubuntu one unless apk was due,
      each for a fixable finding in the system's packages; npm and pip for findings in theirs. */
  lemma PatchesAreApplied(content: string, vulns: seq<Vuln>)
    ensures
      var apk := Mentions(content, "alpine") && !Mentions(content, "apk upgrade");
      var apt := && (Mentions(content, "debian") || Mentions(content, "ubuntu") || Mentions(content, "slim"))
                 && !Mentions(content, "apt-get upgrade");
      && (APK in Fixes(content, vulns) <==> CallsForSystem(vulns) && apk)
      && (APT in Fixes(content, vulns) <==> CallsForSystem(vulns) && !apk && apt)
    ensures NPM in Fixes(content, vulns) <==>
            (exists v | v in vulns :: Mentions(v.package, "npm")) && !Mentions(content, "npm install -g npm")
    ensures PIP in Fixes(content, vulns) <==>
            && (exists v | v in vulns :: Lower(v.package) in {"pip", "setuptools", "wheel"})
            && !Mentions(content, "pip install --upgrade pip")
  {
    hide Mentions, Fixes;
    PatchesDiffer();
    FixesAreParts(content, vulns, APK);
    FixesAreParts(content, vulns, APT);
    FixesAreParts(content, vulns, NPM);
  }

  // ---- on some base images ----------------------------------------------------------------------------

  lemma OpensslIsOfTheSystem(v: Vuln)
    requires v.package == "openssl" && v.fixedVersion != ""
    ensures IsOsVuln(v) && !Mentions(v.package, "npm") && !IsPipVuln(v)
  {
    LacksLetter("openssl", "npm", 2);
    LacksLetter("openssl", "pip", 1);
    LacksLetter("openssl", "node_modules", 5);
    assert |Lower("openssl")| == 7 && |"setuptools"| == 10 && |"wheel"| == 5;
  }

  lemma OnlyTheSystem(content: string, v: Vuln)
    requires v.package == "openssl" && v.fixedVersion != ""
    ensures HasOsVulns([v]) && Fixes(content, [v]) == OsFixes(content, [v])
  {
    hide Mentions, OsFixes;
    OpensslIsOfTheSystem(v);
    assert v in [v];
    assert !HasNpmVulns([v]) && !HasPipVulns([v]);
    assert (OsFixes(content, [v]) + []) + [] == OsFixes(content, [v]);
  }

  /** A fixable finding in openssl is answered by the distribution's own tool. */
  lemma OpensslOnItsBase(v: Vuln)
    requires v.package == "openssl" && v.fixedVersion != ""
    ensures Fixes("FROM alpine", [v]) == [APK]
    ensures Fixes("FROM debian", [v]) == [APT] && Fixes("FROM ubuntu", [v]) == [APT]
    ensures Fixes("FROM x:slim", [v]) == [APT]
    ensures Fixes("FROM scratch", [v]) == []
  {
    OnAlpine(v);
    OnDebian(v);
    OnUbuntu(v);
    OnSlim(v);
    OnScratch(v);
  }

  lemma OnAlpine(v: Vuln)
    requires v.package == "openssl" && v.fixedVersion != ""
    ensures Fixes("FROM alpine", [v]) == [APK]
  {
    OnlyTheSystem("FROM alpine", v);
    BringsItsOwn("FROM alpine", "alpine", 5);
    LacksLetter("FROM alpine", "apk upgrade", 4);
  }

  lemma OnDebian(v: Vuln)
    requires v.package == "openssl" && v.fixedVersion != ""
    ensures Fixes("FROM debian", [v]) == [APT]
  {
    OnlyTheSystem("FROM debian", v);
    BringsItsOwn("FROM debian", "debian", 5);
    LacksLetter("FROM debian", "alpine", 1);
    LacksLetter("FROM debian", "apt-get upgrade", 4);
  }

  lemma OnUbuntu(v: Vuln)
    requires v.package == "openssl" && v.fixedVersion != ""
    ensures Fixes("FROM ubuntu", [v]) == [APT]
  {
    OnlyTheSystem("FROM ubuntu", v);
    BringsItsOwn("FROM ubuntu", "ubuntu", 5);
    LacksLetter("FROM ubuntu", "alpine", 1);
    LacksLetter("FROM ubuntu", "apt-get upgrade", 4);
  }

  lemma OnSlim(v: Vuln)
    requires v.package == "openssl" && v.fixedVersion != ""
    ensures Fixes("FROM x:slim", [v]) == [APT]
  {
    OnlyTheSystem("FROM x:slim", v);
    BringsItsOwn("FROM x:slim", "slim", 7);
    LacksLetter("FROM x:slim", "alpine", 5);
    LacksLetter("FROM x:slim", "apt-get upgrade", 4);
  }

  lemma OnScratch(v: Vuln)
    requires v.package == "openssl" && v.fixedVersion != ""
    ensures Fixes("FROM scratch", [v]) == []
  {
    hide IsAlpine, IsDebian, Mentions;
    OnlyTheSystem("FROM scratch", v);
    ScratchIsNotAlpine();
    ScratchIsNotDebian();
  }

  lemma ScratchIsNotAlpine()
    ensures !IsAlpine("FROM scratch")
  {
    LacksLetter("FROM scratch", "alpine", 1);
  }

  lemma ScratchIsNotDebian()
    ensures !IsDebian("FROM scratch")
  {
    LacksLetter("FROM scratch", "debian", 1);
    LacksLetter("FROM scratch", "ubuntu", 0);
    LacksLetter("FROM scratch", "slim", 1);
  }

  ghost predicate AppliesOnce(remedy: Remedy, content: string, vulns: seq<Vuln>, fix: Patch) {
    && multiset(remedy(content, vulns))[fix] <= 1
    && (fix in remedy(content, vulns) ==> !Mentions(content, fix.guard))
  }

  /** No patch twice in a round, and none whose guard the file already mentions. */
  ghost predicate RespectsGuards(remedy: Remedy) {
    forall content, vulns, fix :: AppliesOnce(remedy, content, vulns, fix)
  }

  lemma FixesRespectGuards()
    ensures RespectsGuards(Fixes)
  {
    forall content, vulns, fix
      ensures AppliesOnce(Fixes, content, vulns, fix)
    {
      OneRound(content, vulns, fix);
    }
  }

  /** A patch whose command mentions its own guard is applied at most once, however many rounds there are. */
  lemma {:induction false} SelfGuardedPatchesAreAppliedOnce(remedy: Remedy, content: string,
                                                            reports: seq<seq<Vuln>>, fix: Patch)
    requires WritesOneLiners(remedy) && RespectsGuards(remedy) && OneLine(fix.guard) && Mentions(fix.command, fix.guard)
    ensures multiset(Applied(remedy, content, reports))[fix] <= 1
  {
    if reports != [] {
      var front, last := reports[..|reports| - 1], reports[|reports| - 1];
      var before := After(remedy, content, front);
      SelfGuardedPatchesAreAppliedOnce(remedy, content, front, fix);
      assert AppliesOnce(remedy, before, last, fix);
      AfterMentions(remedy, content, front, fix.guard);
      CountApart(Applied(remedy, content, front), remedy(before, last), fix);
      if fix in Applied(remedy, content, front) {
        assert Brings(Applied(remedy, content, front), fix.guard);
      }
    }
  }

  lemma CountApart(a: seq<Patch>, b: seq<Patch>, fix: Patch)
    ensures multiset(a + b)[fix] == multiset(a)[fix] + multiset(b)[fix]
    ensures fix !in a ==> multiset(a)[fix] == 0
    ensures fix !in b ==> multiset(b)[fix] == 0
  {
  }

  lemma {:induction false} SystemPatchesAreAppliedOnce(content: string, reports: seq<seq<Vuln>>)
    ensures multiset(Applied(Fixes, content, reports))[APK] <= 1
    ensures multiset(Applied(Fixes, content, reports))[APT] <= 1
    ensures multiset(Applied(Fixes, content, reports))[NPM] <= 1
  {
    PatchesAreOneLine();
    ApkBringsApk();
    AptBringsApt();
    NpmBringsNpm();
    FixesRespectGuards();
    FixesWriteOneLiners();
    SelfGuardedPatchesAreAppliedOnce(Fixes, content, reports, APK);
    SelfGuardedPatchesAreAppliedOnce(Fixes, content, reports, APT);
    SelfGuardedPatchesAreAppliedOnce(Fixes, content, reports, NPM);
  }

  lemma {:induction false} OnlyPatchesAreApplied(content: string, reports: seq<seq<Vuln>>)
    ensures forall fix | fix in Applied(Fixes, content, reports) :: IsPatch(fix)
  {
    if reports != [] {
      var front, last := reports[..|reports| - 1], reports[|reports| - 1];
      OnlyPatchesAreApplied(content, front);
      forall fix | fix in Fixes(After(Fixes, content, front), last)
        ensures IsPatch(fix)
      {
        OneRound(After(Fixes, content, front), last, fix);
      }
    }
  }

  lemma NoPatchBringsPip(fix: Patch)
    requires IsPatch(fix)
    ensures !Mentions(fix.command, PIP_GUARD)
  {
    ApkDoesNotBringPip();
    AptDoesNotBringPip();
    NpmDoesNotBringPip();
    PipDoesNotBringPip();
  }

  /** The pip patch does not contain its guard: unless the original file did, every round that reports pip,
      setuptools or wheel inserts it again. */
  lemma {:induction false} PipIsPatchedEveryTime(content: string, reports: seq<seq<Vuln>>, round: nat)
    requires round < |reports|
    ensures
      PIP in Fixes(After(Fixes, content, reports[..round]), reports[round])
      <==> HasPipVulns(reports[round]) && !Mentions(content, PIP_GUARD)
  {
    var front := reports[..round];
    PatchesAreOneLine();
    FixesWriteOneLiners();
    AfterMentions(Fixes, content, front, PIP_GUARD);
    OnlyPatchesAreApplied(content, front);
    forall fix | fix in Applied(Fixes, content, front)
      ensures !Mentions(fix.command, PIP_GUARD)
    {
      NoPatchBringsPip(fix);
    }
    OneRound(After(Fixes, content, front), reports[round], PIP);
  }
}
