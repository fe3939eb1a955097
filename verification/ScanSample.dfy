/** Scanner output as counts by severity and a bounded sample, worst findings first. */
module ScanSample {
  import opened Options
  import opened RankedSample
  import opened Sorting
  import opened Text

  const MAX_RETAINED: nat := 100

  datatype Finding = Finding(id: string, package: string, severity: string, fixedVersion: Option<string>)

  datatype ScanResult = ScanResult(critical: nat, high: nat, medium: nat, low: nat, unknown: nat,
                                   total: nat, fixable: nat, sample: seq<Finding>)

  /** 0 is the worst; whatever is not a known level comes last. */
  function SeverityRank(severity: string): (r: nat)
    ensures r <= 4
  {
    match severity
    case "CRITICAL" => 0
    case "HIGH" => 1
    case "MEDIUM" => 2
    case "LOW" => 3
    case _ => 4
  }

  function Rank(f: Finding): nat {
    SeverityRank(Upper(f.severity))
  }

  predicate Worse(x: Finding, y: Finding) {
    Rank(x) <= Rank(y)
  }

  /** The report's sample. */
  function WorstFirst(found: seq<Finding>): seq<Finding> {
    Prefix(Sort(Worse, found), MAX_RETAINED)
  }

  lemma WorstFirstIsByLevel(found: seq<Finding>)
    ensures Sort(Worse, found) == Levels(Rank, found, 0, 5)
    ensures ByRank(Worse, Rank)
  {
    SortIsByLevel(Worse, Rank, found, 5);
  }

  /** Each severity keeps its first findings, as many as the worse ones leave room for. */
  lemma {:induction false} SampleKeepsWhatFits(found: seq<Finding>, r: nat)
    requires r <= 4
    ensures
      At(Rank, WorstFirst(found), r)
      == At(Rank, found, r)[..Fitting(|At(Rank, found, r)|, |Levels(Rank, found, 0, r)|, 100)]
  {
    WorstFirstIsByLevel(found);
    EachLevelKeepsWhatFits(Rank, found, r, 5, MAX_RETAINED);
  }

  /** Whenever something is at least that bad, the sample shows something that is. */
  lemma SampleShowsTheWorst(found: seq<Finding>, r: nat)
    ensures (exists f | f in found :: Rank(f) <= r) <==> (exists f | f in WorstFirst(found) :: Rank(f) <= r)
  {
    var sorted := Sort(Worse, found);
    SortPermutes(Worse, found);
    SameMembers(sorted, found);
    SortSorts(Worse, found);
    if f :| f in found && Rank(f) <= r {
      var k :| 0 <= k < |sorted| && sorted[k] == f;
      assert k == 0 || Worse(sorted[0], sorted[k]);
      assert sorted[0] == WorstFirst(found)[0];
    }
  }

  // ---- counting ---------------------------------------------------------------------------------------

  /** The counts are those of the findings, level by level; whatever is not a known level is UNKNOWN. */
  ghost predicate Tallied(counts: map<string, nat>, found: seq<Finding>) {
    && counts.Keys == {"CRITICAL", "HIGH", "MEDIUM", "LOW", "UNKNOWN"}
    && counts["CRITICAL"] == |At(Rank, found, 0)|
    && counts["HIGH"] == |At(Rank, found, 1)|
    && counts["MEDIUM"] == |At(Rank, found, 2)|
    && counts["LOW"] == |At(Rank, found, 3)|
    && counts["UNKNOWN"] == |At(Rank, found, 4)|
  }

  function Key(counts: map<string, nat>, severity: string): string {
    if severity in counts then severity else "UNKNOWN"
  }

  lemma OneMoreAt(found: seq<Finding>, f: Finding, r: nat)
    ensures |At(Rank, found + [f], r)| == |At(Rank, found, r)| + if Rank(f) == r then 1 else 0
  {
    AtAppend(Rank, found, [f], r);
    assert [f][1..] == [];
    assert At(Rank, [f], r) == (if Rank(f) == r then [f] else []) + At(Rank, [f][1..], r);
  }

  lemma TallyOne(counts: map<string, nat>, found: seq<Finding>, f: Finding)
    requires Tallied(counts, found) && Upper(f.severity) == f.severity
    ensures
      var key := Key(counts, f.severity);
      key in counts && Tallied(counts[key := counts[key] + 1], found + [f])
  {
    OneMoreAt(found, f, 0);
    OneMoreAt(found, f, 1);
    OneMoreAt(found, f, 2);
    OneMoreAt(found, f, 3);
    OneMoreAt(found, f, 4);
  }

  lemma AllLevels(found: seq<Finding>)
    ensures
      |At(Rank, found, 0)| + |At(Rank, found, 1)| + |At(Rank, found, 2)| + |At(Rank, found, 3)| + |At(Rank, found, 4)|
      == |found|
  {
    SortPermutes(Worse, found);
    WorstFirstIsByLevel(found);
    assert Levels(Rank, found, 0, 0) == [];
    assert Levels(Rank, found, 0, 1) == At(Rank, found, 0);
    assert |Levels(Rank, found, 0, 3)| == |At(Rank, found, 0)| + |At(Rank, found, 1)| + |At(Rank, found, 2)|;
  }

  /** The report is about these findings: exact counts, and the sample. */
  ghost predicate Reports(r: ScanResult, found: seq<Finding>) {
    && r.critical == |At(Rank, found, 0)| && r.high == |At(Rank, found, 1)| && r.medium == |At(Rank, found, 2)|
    && r.low == |At(Rank, found, 3)| && r.unknown == |At(Rank, found, 4)|
    && r.total == |found| && r.sample == WorstFirst(found)
  }

  method Summarize(counts: map<string, nat>, fixable: nat, found: seq<Finding>) returns (r: ScanResult)
    requires Tallied(counts, found)
    ensures Reports(r, found) && r.fixable == fixable
  {
    AllLevels(found);
    r := ScanResult(
      counts["CRITICAL"], counts["HIGH"], counts["MEDIUM"], counts["LOW"], counts["UNKNOWN"],
      counts["CRITICAL"] + counts["HIGH"] + counts["MEDIUM"] + counts["LOW"] + counts["UNKNOWN"],
      fixable, WorstFirst(found));
  }

  /** How many findings are that bad or worse, by the counts. */
  function AtOrAbove(r: ScanResult, rank: nat): nat {
    r.critical + (if rank >= 1 then r.high else 0) + (if rank >= 2 then r.medium else 0)
    + if rank >= 3 then r.low else 0
  }

  lemma {:induction false} AtIsEmptyWithout(found: seq<Finding>, r: nat)
    ensures |At(Rank, found, r)| > 0 <==> exists f | f in found :: Rank(f) == r
  {
    if found != [] {
      AtIsEmptyWithout(found[1..], r);
      assert found == [found[0]] + found[1..];
    }
  }

  /** A severity gate reads the counts and names findings from the sample: whenever it fails it has a
      finding to name. */
  lemma WhatIsCountedIsShown(r: ScanResult, found: seq<Finding>, rank: nat)
    requires Reports(r, found) && rank <= 3
    ensures AtOrAbove(r, rank) > 0 <==> exists f | f in r.sample :: Rank(f) <= rank
  {
    AtIsEmptyWithout(found, 0);
    AtIsEmptyWithout(found, 1);
    AtIsEmptyWithout(found, 2);
    AtIsEmptyWithout(found, 3);
    SampleShowsTheWorst(found, rank);
  }

  // ---- the two scanners -------------------------------------------------------------------------------

  datatype TrivyVuln = TrivyVuln(id: string, package: string, severity: Option<string>, fixedVersion: Option<string>)

  datatype GrypeMatch = GrypeMatch(id: string, package: string, severity: Option<string>, fixes: seq<string>)

  function SeverityOf(raw: Option<string>): string {
    Upper(if raw.Some? then raw.value else "UNKNOWN")
  }

  lemma UpperIsStable(s: string)
    ensures Upper(Upper(s)) == Upper(s)
  {
  }

  function FromTrivy(v: TrivyVuln): Finding {
    Finding(v.id, v.package, SeverityOf(v.severity), v.fixedVersion)
  }

  predicate TrivyFixable(v: TrivyVuln) {
    v.fixedVersion.Some? && v.fixedVersion.value != ""
  }

  /** Grype's extra level counts as LOW. */
  function FromGrype(m: GrypeMatch): Finding {
    var severity := SeverityOf(m.severity);
    Finding(m.id, m.package, if severity == "NEGLIGIBLE" then "LOW" else severity,
            if m.fixes == [] then None else Some(m.fixes[0]))
  }

  function Mapped<S, T>(f: S -> T, s: seq<S>): (t: seq<T>)
    ensures |t| == |s|
  {
    seq(|s|, i requires 0 <= i < |s| => f(s[i]))
  }

  function Flat<T>(s: seq<seq<T>>): seq<T> {
    if s == [] then [] else Flat(s[..|s| - 1]) + s[|s| - 1]
  }

  function CountIf<T>(p: T -> bool, s: seq<T>): nat {
    if s == [] then 0 else CountIf(p, s[..|s| - 1]) + if p(s[|s| - 1]) then 1 else 0
  }

  lemma OneMore<S, T>(f: S -> T, p: S -> bool, s: seq<S>, x: S)
    ensures Mapped(f, s + [x]) == Mapped(f, s) + [f(x)]
    ensures CountIf(p, s + [x]) == CountIf(p, s) + if p(x) then 1 else 0
  {
    assert (s + [x])[..|s|] == s;
  }

  method Count(counts: map<string, nat>, ghost found: seq<Finding>, f: Finding) returns (now: map<string, nat>)
    requires Tallied(counts, found) && Upper(f.severity) == f.severity
    ensures Tallied(now, found + [f])
  {
    TallyOne(counts, found, f);
    var key := Key(counts, f.severity);
    now := counts[key := counts[key] + 1];
  }

  // ---- what the scanner said --------------------------------------------------------------------------

  /** The scanner's word is this level, in whatever mix of small and capital letters. */
  predicate Spells(raw: Option<string>, level: string) {
    && raw.Some? && |raw.value| == |level|
    && forall i | 0 <= i < |level| :: raw.value[i] == level[i] || raw.value[i] as int == level[i] as int + 32
  }

  function GrypeSays(level: string): GrypeMatch -> bool {
    (m: GrypeMatch) => Spells(m.severity, level)
  }

  function TrivySays(level: string): TrivyVuln -> bool {
    (v: TrivyVuln) => Spells(v.severity, level)
  }

  lemma SpellsIff(raw: Option<string>, level: string)
    requires forall c | c in level :: 'A' <= c <= 'Z'
    ensures SeverityOf(raw) == level <==> Spells(raw, level) || (raw.None? && Upper("UNKNOWN") == level)
  {
    if raw.Some? {
      forall i | 0 <= i < |level| && |raw.value| == |level|
        ensures Upper(raw.value)[i] == level[i] <==>
                raw.value[i] == level[i] || raw.value[i] as int == level[i] as int + 32
      {
        assert level[i] in level;
      }
    }
  }

  lemma UnknownIsUpper()
    ensures Upper("UNKNOWN") == "UNKNOWN"
  {
  }

  lemma RankIff(severity: string, raw: Option<string>)
    requires severity == SeverityOf(raw)
    ensures SeverityRank(severity) == 0 <==> Spells(raw, "CRITICAL")
    ensures SeverityRank(severity) == 1 <==> Spells(raw, "HIGH")
    ensures SeverityRank(severity) == 2 <==> Spells(raw, "MEDIUM")
    ensures SeverityRank(severity) == 3 <==> Spells(raw, "LOW")
    ensures severity == "NEGLIGIBLE" <==> Spells(raw, "NEGLIGIBLE")
  {
    hide Spells, Upper, SeverityOf;
    UnknownIsUpper();
    SpellsIff(raw, "CRITICAL");
    SpellsIff(raw, "HIGH");
    SpellsIff(raw, "MEDIUM");
    SpellsIff(raw, "LOW");
    SpellsIff(raw, "NEGLIGIBLE");
  }

  lemma TrivyRankIff(v: TrivyVuln)
    ensures Rank(FromTrivy(v)) == 0 <==> Spells(v.severity, "CRITICAL")
    ensures Rank(FromTrivy(v)) == 1 <==> Spells(v.severity, "HIGH")
    ensures Rank(FromTrivy(v)) == 2 <==> Spells(v.severity, "MEDIUM")
    ensures Rank(FromTrivy(v)) == 3 <==> Spells(v.severity, "LOW")
  {
    hide Spells, Upper, SeverityOf, SeverityRank;
    TrivyIsUpper(v);
    RankIff(FromTrivy(v).severity, v.severity);
  }

  lemma GrypeRankIff(m: GrypeMatch)
    ensures Rank(FromGrype(m)) == 0 <==> Spells(m.severity, "CRITICAL")
    ensures Rank(FromGrype(m)) == 1 <==> Spells(m.severity, "HIGH")
    ensures Rank(FromGrype(m)) == 2 <==> Spells(m.severity, "MEDIUM")
    ensures Rank(FromGrype(m)) == 3 <==> Spells(m.severity, "LOW") || Spells(m.severity, "NEGLIGIBLE")
    ensures !(Spells(m.severity, "LOW") && Spells(m.severity, "NEGLIGIBLE"))
  {
    hide Spells, Upper, SeverityOf;
    GrypeIsUpper(m);
    RankIff(SeverityOf(m.severity), m.severity);
  }

  lemma {:induction false} CountAt<S(!new)>(f: S -> Finding, p: S -> bool, s: seq<S>, r: nat)
    requires forall x: S :: p(x) <==> Rank(f(x)) == r
    ensures |At(Rank, Mapped(f, s), r)| == CountIf(p, s)
  {
    if s != [] {
      var front, last := s[..|s| - 1], s[|s| - 1];
      CountAt(f, p, front, r);
      assert s == front + [last];
      OneMore(f, p, front, last);
      OneMoreAt(Mapped(f, front), f(last), r);
    }
  }

  lemma {:induction false} CountEither<S(!new)>(p: S -> bool, q: S -> bool, either: S -> bool, s: seq<S>)
    requires forall x: S :: (either(x) <==> p(x) || q(x)) && !(p(x) && q(x))
    ensures CountIf(either, s) == CountIf(p, s) + CountIf(q, s)
  {
    if s != [] {
      CountEither(p, q, either, s[..|s| - 1]);
    }
  }

  function Level(rank: nat): string
    requires rank <= 3
  {
    if rank == 0 then "CRITICAL" else if rank == 1 then "HIGH" else if rank == 2 then "MEDIUM" else "LOW"
  }

  lemma TrivyCount(vulns: seq<TrivyVuln>, rank: nat)
    requires rank <= 3
    ensures |At(Rank, Mapped(FromTrivy, vulns), rank)| == CountIf(TrivySays(Level(rank)), vulns)
  {
    hide FromTrivy, Rank, Spells, At, Mapped, CountIf;
    forall v: TrivyVuln
      ensures TrivySays(Level(rank))(v) <==> Rank(FromTrivy(v)) == rank
    {
      TrivyRankIff(v);
    }
    CountAt(FromTrivy, TrivySays(Level(rank)), vulns, rank);
  }

  lemma GrypeCount(matches: seq<GrypeMatch>, rank: nat)
    requires rank <= 2
    ensures |At(Rank, Mapped(FromGrype, matches), rank)| == CountIf(GrypeSays(Level(rank)), matches)
  {
    hide FromGrype, Rank, Spells, At, Mapped, CountIf;
    forall m: GrypeMatch
      ensures GrypeSays(Level(rank))(m) <==> Rank(FromGrype(m)) == rank
    {
      GrypeRankIff(m);
    }
    CountAt(FromGrype, GrypeSays(Level(rank)), matches, rank);
  }

  lemma GrypeLowCount(matches: seq<GrypeMatch>)
    ensures |At(Rank, Mapped(FromGrype, matches), 3)|
         == CountIf(GrypeSays("LOW"), matches) + CountIf(GrypeSays("NEGLIGIBLE"), matches)
  {
    hide FromGrype, Rank, Spells, At, Mapped, CountIf;
    var p, q := GrypeSays("LOW"), GrypeSays("NEGLIGIBLE");
    var low := (m: GrypeMatch) => p(m) || q(m);
    forall m: GrypeMatch
      ensures low(m) <==> Rank(FromGrype(m)) == 3
      ensures !(p(m) && q(m))
    {
      GrypeRankIff(m);
    }
    CountAt(FromGrype, low, matches, 3);
    CountEither(p, q, low, matches);
  }

  lemma ReportTotals(r: ScanResult, found: seq<Finding>)
    requires Reports(r, found)
    ensures r.critical == |At(Rank, found, 0)| && r.high == |At(Rank, found, 1)|
    ensures r.medium == |At(Rank, found, 2)| && r.low == |At(Rank, found, 3)|
    ensures r.total == |found| == r.critical + r.high + r.medium + r.low + r.unknown
  {
    hide At, WorstFirst, Rank;
    AllLevels(found);
  }

  /** Each severity is counted as often as the scanner's words spell it. */
  lemma TrivyCounts(r: ScanResult, vulns: seq<TrivyVuln>)
    requires Reports(r, Mapped(FromTrivy, vulns))
    ensures r.critical == CountIf(TrivySays("CRITICAL"), vulns) && r.high == CountIf(TrivySays("HIGH"), vulns)
    ensures r.medium == CountIf(TrivySays("MEDIUM"), vulns) && r.low == CountIf(TrivySays("LOW"), vulns)
    ensures r.total == |vulns| == r.critical + r.high + r.medium + r.low + r.unknown
  {
    hide FromTrivy, Rank, TrivySays, At, Mapped, CountIf, Reports;
    TrivyCount(vulns, 0);
    TrivyCount(vulns, 1);
    TrivyCount(vulns, 2);
    TrivyCount(vulns, 3);
    ReportTotals(r, Mapped(FromTrivy, vulns));
  }

  lemma GrypeCounts(r: ScanResult, matches: seq<GrypeMatch>)
    requires Reports(r, Mapped(FromGrype, matches))
    ensures r.critical == CountIf(GrypeSays("CRITICAL"), matches) && r.high == CountIf(GrypeSays("HIGH"), matches)
    ensures r.medium == CountIf(GrypeSays("MEDIUM"), matches)
    ensures r.low == CountIf(GrypeSays("LOW"), matches) + CountIf(GrypeSays("NEGLIGIBLE"), matches)
    ensures r.total == |matches| == r.critical + r.high + r.medium + r.low + r.unknown
  {
    hide FromGrype, Rank, GrypeSays, At, Mapped, CountIf, Reports;
    GrypeCount(matches, 0);
    GrypeCount(matches, 1);
    GrypeCount(matches, 2);
    GrypeLowCount(matches);
    ReportTotals(r, Mapped(FromGrype, matches));
  }

  /** What the sample shows is what was reported. */
  lemma SampleIsReported<S>(f: S -> Finding, s: seq<S>, x: Finding)
    requires x in WorstFirst(Mapped(f, s))
    ensures exists k :: 0 <= k < |s| && x == f(s[k])
  {
    var found := Mapped(f, s);
    SortPermutes(Worse, found);
    SameMembers(Sort(Worse, found), found);
    assert x in Sort(Worse, found);
    var k :| 0 <= k < |found| && found[k] == x;
    assert x == f(s[k]);
  }

  ghost predicate ShowsMatch(x: Finding, matches: seq<GrypeMatch>) {
    exists m | m in matches ::
      && x.id == m.id && x.package == m.package
      && x.fixedVersion == if m.fixes == [] then None else Some(m.fixes[0])
  }

  ghost predicate ShowsVuln(x: Finding, vulns: seq<TrivyVuln>) {
    exists v | v in vulns :: x.id == v.id && x.package == v.package && x.fixedVersion == v.fixedVersion
  }

  // ---- parsing ----------------------------------------------------------------------------------------

  const NO_COUNTS: map<string, nat> := map["CRITICAL" := 0, "HIGH" := 0, "MEDIUM" := 0, "LOW" := 0, "UNKNOWN" := 0]

  lemma NothingYet<S>(f: S -> Finding, p: S -> bool)
    ensures Tallied(NO_COUNTS, []) && Mapped(f, []) == [] && CountIf(p, []) == 0
  {
  }

  method ParseGrype(matches: seq<GrypeMatch>) returns (r: ScanResult)
    ensures Reports(r, Mapped(FromGrype, matches))
    ensures r.fixable == CountIf((m: GrypeMatch) => m.fixes != [], matches)
    ensures r.critical == CountIf(GrypeSays("CRITICAL"), matches) && r.high == CountIf(GrypeSays("HIGH"), matches)
    ensures r.medium == CountIf(GrypeSays("MEDIUM"), matches)
    ensures r.low == CountIf(GrypeSays("LOW"), matches) + CountIf(GrypeSays("NEGLIGIBLE"), matches)
    ensures r.total == |matches| == r.critical + r.high + r.medium + r.low + r.unknown
    ensures forall x | x in r.sample :: ShowsMatch(x, matches)
  {
    hide Tallied, Mapped, CountIf, Reports, FromGrype, GrypeSays, ShowsMatch;
    var p := (m: GrypeMatch) => m.fixes != [];
    var counts, fixable, found := NO_COUNTS, 0, [];
    NothingYet(FromGrype, p);
    for i := 0 to |matches|
      invariant found == Mapped(FromGrype, matches[..i]) && fixable == CountIf(p, matches[..i])
      invariant Tallied(counts, found)
    {
      var f := FromGrype(matches[i]);
      OneMore(FromGrype, p, matches[..i], matches[i]);
      assert matches[..i] + [matches[i]] == matches[..i + 1];
      GrypeIsUpper(matches[i]);
      counts := Count(counts, found, f);
      if matches[i].fixes != [] {
        fixable := fixable + 1;
      }
      found := found + [f];
    }
    assert matches[..|matches|] == matches;
    r := Summarize(counts, fixable, found);
    GrypeCounts(r, matches);
    GrypeSample(r, matches);
  }

  lemma GrypeSample(r: ScanResult, matches: seq<GrypeMatch>)
    requires Reports(r, Mapped(FromGrype, matches))
    ensures forall x | x in r.sample :: ShowsMatch(x, matches)
  {
    forall x | x in r.sample
      ensures ShowsMatch(x, matches)
    {
      SampleIsReported(FromGrype, matches, x);
      var k :| 0 <= k < |matches| && x == FromGrype(matches[k]);
      assert matches[k] in matches;
    }
  }

  lemma TrivySample(r: ScanResult, vulns: seq<TrivyVuln>)
    requires Reports(r, Mapped(FromTrivy, vulns))
    ensures forall x | x in r.sample :: ShowsVuln(x, vulns)
  {
    forall x | x in r.sample
      ensures ShowsVuln(x, vulns)
    {
      SampleIsReported(FromTrivy, vulns, x);
      var k :| 0 <= k < |vulns| && x == FromTrivy(vulns[k]);
      assert vulns[k] in vulns;
    }
  }

  lemma GrypeIsUpper(m: GrypeMatch)
    ensures Upper(FromGrype(m).severity) == FromGrype(m).severity
  {
    assert Upper("LOW") == "LOW";
    UpperIsStable(if m.severity.Some? then m.severity.value else "UNKNOWN");
  }

  lemma TrivyIsUpper(v: TrivyVuln)
    ensures Upper(FromTrivy(v).severity) == FromTrivy(v).severity
  {
    UpperIsStable(if v.severity.Some? then v.severity.value else "UNKNOWN");
  }

  lemma {:induction false} FixableCounts(vulns: seq<TrivyVuln>)
    ensures CountIf(TrivyFixable, vulns)
         == CountIf((v: TrivyVuln) => v.fixedVersion.Some? && v.fixedVersion.value != "", vulns)
  {
    if vulns != [] {
      FixableCounts(vulns[..|vulns| - 1]);
    }
  }

  method ParseTrivy(results: seq<seq<TrivyVuln>>) returns (r: ScanResult)
    ensures Reports(r, Mapped(FromTrivy, Flat(results)))
    ensures r.fixable == CountIf(
              (v: TrivyVuln) => v.fixedVersion.Some? && v.fixedVersion.value != "", Flat(results))
    ensures
      var all := Flat(results);
      && r.critical == CountIf(TrivySays("CRITICAL"), all) && r.high == CountIf(TrivySays("HIGH"), all)
      && r.medium == CountIf(TrivySays("MEDIUM"), all) && r.low == CountIf(TrivySays("LOW"), all)
      && r.total == |all| == r.critical + r.high + r.medium + r.low + r.unknown
      && forall x | x in r.sample :: ShowsVuln(x, all)
  {
    hide Tallied, Mapped, CountIf, Reports, FromTrivy, TrivyFixable, TrivySays, ShowsVuln;
    var counts, fixable, found := NO_COUNTS, 0, [];
    NothingYet(FromTrivy, TrivyFixable);
    ghost var seen: seq<TrivyVuln> := [];
    for i := 0 to |results|
      invariant seen == Flat(results[..i])
      invariant found == Mapped(FromTrivy, seen) && fixable == CountIf(TrivyFixable, seen)
      invariant Tallied(counts, found)
    {
      ghost var before := seen;
      for j := 0 to |results[i]|
        invariant seen == before + results[i][..j]
        invariant found == Mapped(FromTrivy, seen) && fixable == CountIf(TrivyFixable, seen)
        invariant Tallied(counts, found)
      {
        var v := results[i][j];
        OneMore(FromTrivy, TrivyFixable, seen, v);
        TrivyIsUpper(v);
        counts := Count(counts, found, FromTrivy(v));
        if TrivyFixable(v) {
          fixable := fixable + 1;
        }
        found := found + [FromTrivy(v)];
        NextOf(before, results[i], j);
        seen := seen + [v];
      }
      NextFlat(results, i);
    }
    assert results[..|results|] == results;
    r := Summarize(counts, fixable, found);
    TrivyCounts(r, seen);
    TrivySample(r, seen);
    FixableCounts(seen);
  }

  lemma NextOf<T>(before: seq<T>, s: seq<T>, j: nat)
    requires j < |s|
    ensures (before + s[..j]) + [s[j]] == before + s[..j + 1]
  {
  }

  lemma NextFlat<T>(s: seq<seq<T>>, i: nat)
    requires i < |s|
    ensures Flat(s[..i + 1]) == Flat(s[..i]) + s[i]
    ensures s[i][..|s[i]|] == s[i]
  {
    assert s[..i + 1][..i] == s[..i];
  }
}
