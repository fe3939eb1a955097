/** From a validated Dockerfile to a published image: the remediation loop and the gates before a push.

    Everything asked of Docker, the scanners, the file system and the policy is an arbitrary answer.
    Image 0 is the first build; image k is the rebuild of round k.  A build that succeeds moves the tag,
    and a scan or a push is of whatever the tag names. */
module BuildPipeline {
  import opened Options
  import R = Remediation
  import S = ScanSample
  import T = Text

  datatype ExitCode = EXIT_OK | EXIT_ERROR | EXIT_POLICY

  /** Whether a round's Dockerfile could be read, its rebuild succeeded, and what the scan after it said. */
  datatype Round = Round(readable: bool, built: bool, scan: Option<S.ScanResult>)

  // ---- the remediation loop ---------------------------------------------------------------------------

  datatype Figures = Figures(critical: nat, high: nat, total: nat)

  datatype Entry = Entry(round: nat, before: Figures, after: Figures)

  /** `image` is what the tag names, built from `content`; `scan` is in force, and is of image `scanned`. */
  datatype Loop = Loop(image: nat, content: string, scan: S.ScanResult, scanned: nat, history: seq<Entry>)

  function FiguresOf(scan: S.ScanResult): Figures {
    Figures(scan.critical, scan.high, scan.total)
  }

  function VulnOf(f: S.Finding): R.Vuln {
    R.Vuln(f.package, if f.fixedVersion.Some? then f.fixedVersion.value else "")
  }

  function Report(scan: S.ScanResult): seq<R.Vuln> {
    S.Mapped(VulnOf, scan.sample)
  }

  function Patches(remedy: R.Remedy, s: Loop, a: Round): seq<R.Patch> {
    if a.readable then remedy(s.content, Report(s.scan)) else []
  }

  /** The round rebuilt the image. */
  predicate Goes(remedy: R.Remedy, s: Loop, a: Round) {
    Patches(remedy, s, a) != [] && a.built
  }

  function Rebuilt(remedy: R.Remedy, s: Loop, a: Round, round: nat): Loop
    requires Goes(remedy, s, a)
  {
    var next := s.(image := round, content := R.InsertAll(s.content, Patches(remedy, s, a)));
    match a.scan
    case None => next
    case Some(scan) =>
      next.(scan := scan, scanned := round,
            history := s.history + [Entry(round, FiguresOf(s.scan), FiguresOf(scan))])
  }

  /** The report names the package and the fixing version of everything in the sample, in its order. */
  lemma ReportIsOfSample(scan: S.ScanResult, k: nat)
    requires k < |scan.sample|
    ensures |Report(scan)| == |scan.sample|
    ensures Report(scan)[k].package == scan.sample[k].package
    ensures scan.sample[k].fixedVersion.Some? ==> Report(scan)[k].fixedVersion == scan.sample[k].fixedVersion.value
    ensures scan.sample[k].fixedVersion.None? ==> Report(scan)[k].fixedVersion == ""
  {
    assert Report(scan)[k] == VulnOf(scan.sample[k]);
  }

  predicate IsClean(a: Round) {
    a.scan.Some? && a.scan.value.total == 0
  }

  function Remediated(remedy: R.Remedy, rounds: nat -> Round, round: nat, max: int, s: Loop): Loop
    decreases max - round
  {
    if round > max || !Goes(remedy, s, rounds(round)) then s
    else
      var next := Rebuilt(remedy, s, rounds(round), round);
      if IsClean(rounds(round)) then next else Remediated(remedy, rounds, round + 1, max, next)
  }

  method Remediate(rounds: nat -> Round, max: int, first: Loop) returns (s: Loop)
    ensures s == Remediated(R.Fixes, rounds, 1, max, first)
  {
    s := first;
    var round := 1;
    while round <= max
      invariant round >= 1 && Remediated(R.Fixes, rounds, round, max, s) == Remediated(R.Fixes, rounds, 1, max, first)
    {
      var a := rounds(round);
      var content, applied := s.content, [];
      if a.readable {
        content, applied := R.Derive(s.content, Report(s.scan));
      }
      if applied == [] || !a.built {
        return;
      }
      var previous := s.scan;
      s := s.(image := round, content := content);
      if a.scan.Some? {
        s := s.(scan := a.scan.value, scanned := round,
                history := s.history + [Entry(round, FiguresOf(previous), FiguresOf(a.scan.value))]);
        if a.scan.value.total == 0 {
          return;
        }
      }
      round := round + 1;
    }
  }

  // ---- which image the scan in force is of ------------------------------------------------------------

  ghost predicate NotScanned(rounds: nat -> Round, from: nat, to: nat) {
    forall k: nat | from < k <= to :: rounds(k).scan.None?
  }

  /** The scan in force is of the last image that could be scanned. */
  ghost predicate InForce(rounds: nat -> Round, s: Loop) {
    && s.scanned <= s.image
    && NotScanned(rounds, s.scanned, s.image)
    && (s.scanned > 0 ==> rounds(s.scanned).scan == Some(s.scan))
  }

  lemma RebuildKeepsInForce(remedy: R.Remedy, rounds: nat -> Round, s: Loop, round: nat)
    requires InForce(rounds, s) && round == s.image + 1 && Goes(remedy, s, rounds(round))
    ensures InForce(rounds, Rebuilt(remedy, s, rounds(round), round))
    ensures Rebuilt(remedy, s, rounds(round), round).image == round
  {
    hide Goes, Patches, R.InsertAll;
  }

  lemma {:induction false} LoopKeepsInForce(remedy: R.Remedy, rounds: nat -> Round, round: nat, max: int, s: Loop)
    requires InForce(rounds, s) && round == s.image + 1
    ensures InForce(rounds, Remediated(remedy, rounds, round, max, s))
    ensures s.image <= Remediated(remedy, rounds, round, max, s).image
    ensures Remediated(remedy, rounds, round, max, s).image <= if max >= s.image then max else s.image
    decreases max - round
  {
    hide Goes, Rebuilt;
    if round <= max && Goes(remedy, s, rounds(round)) {
      var next := Rebuilt(remedy, s, rounds(round), round);
      RebuildKeepsInForce(remedy, rounds, s, round);
      if !IsClean(rounds(round)) {
        LoopKeepsInForce(remedy, rounds, round + 1, max, next);
      }
    }
  }

  function Start(content: string, scan: S.ScanResult): Loop {
    Loop(0, content, scan, 0, [])
  }

  /** After the loop the scan in force is of the image under the tag exactly when nothing was rebuilt or
      the scan after the last rebuild succeeded. */
  lemma {:induction false} ScanIsOfLastImage(remedy: R.Remedy, rounds: nat -> Round, max: int, content: string,
                                             scan: S.ScanResult)
    ensures
      var f := Remediated(remedy, rounds, 1, max, Start(content, scan));
      && InForce(rounds, f)
      && (f.scanned == f.image <==> f.image == 0 || rounds(f.image).scan.Some?)
      && f.image <= if max >= 0 then max else 0
  {
    LoopKeepsInForce(remedy, rounds, 1, max, Start(content, scan));
  }

  // ---- the history ------------------------------------------------------------------------------------

  /** From the figures before the first entry to those after the last, each entry takes up where the one
      before it ended. */
  predicate Chained(history: seq<Entry>, first: Figures, last: Figures) {
    if history == [] then first == last
    else
      var e := history[|history| - 1];
      e.after == last && Chained(history[..|history| - 1], first, e.before)
  }

  /** The rounds up to `n` whose scan answered. */
  function ScannedRounds(rounds: nat -> Round, n: nat): seq<nat> {
    if n == 0 then []
    else ScannedRounds(rounds, n - 1) + if rounds(n).scan.Some? then [n] else []
  }

  function RoundsOf(history: seq<Entry>): seq<nat> {
    if history == [] then [] else RoundsOf(history[..|history| - 1]) + [history[|history| - 1].round]
  }

  /** An entry shows what the scan of its round counted. */
  predicate ShowsItsScan(rounds: nat -> Round, e: Entry) {
    && rounds(e.round).scan.Some?
    && var scan := rounds(e.round).scan.value;
       e.after.critical == scan.critical && e.after.high == scan.high && e.after.total == scan.total
  }

  /** One entry for each rebuild that could be scanned, and the figures hang together. */
  predicate GoodHistory(rounds: nat -> Round, s: Loop, first: Figures) {
    && (forall e | e in s.history :: ShowsItsScan(rounds, e))
    && RoundsOf(s.history) == ScannedRounds(rounds, s.image)
    && Chained(s.history, first, FiguresOf(s.scan))
  }

  lemma RebuildKeepsHistory(remedy: R.Remedy, rounds: nat -> Round, s: Loop, round: nat, first: Figures)
    requires GoodHistory(rounds, s, first) && round == s.image + 1 && Goes(remedy, s, rounds(round))
    ensures GoodHistory(rounds, Rebuilt(remedy, s, rounds(round), round), first)
  {
    hide Goes, Patches, R.InsertAll;
    if rounds(round).scan.Some? {
      var e := Entry(round, FiguresOf(s.scan), FiguresOf(rounds(round).scan.value));
      assert (s.history + [e])[..|s.history|] == s.history;
    }
  }

  lemma {:induction false} LoopKeepsHistory(remedy: R.Remedy, rounds: nat -> Round, round: nat, max: int, s: Loop,
                                            first: Figures)
    requires GoodHistory(rounds, s, first) && round == s.image + 1
    ensures GoodHistory(rounds, Remediated(remedy, rounds, round, max, s), first)
    decreases max - round
  {
    hide Goes, Rebuilt, GoodHistory, Patches, R.InsertAll, R.Fixes;
    if round <= max && Goes(remedy, s, rounds(round)) {
      RebuildKeepsHistory(remedy, rounds, s, round, first);
      RebuildMovesTag(remedy, s, rounds(round), round);
      if !IsClean(rounds(round)) {
        LoopKeepsHistory(remedy, rounds, round + 1, max, Rebuilt(remedy, s, rounds(round), round), first);
      }
    }
  }

  lemma RebuildMovesTag(remedy: R.Remedy, s: Loop, a: Round, round: nat)
    requires Goes(remedy, s, a)
    ensures Rebuilt(remedy, s, a, round).image == round
    ensures Rebuilt(remedy, s, a, round).content == R.InsertAll(s.content, remedy(s.content, Report(s.scan)))
    ensures remedy(s.content, Report(s.scan)) != []
  {
    hide R.InsertAll;
  }

  lemma {:induction false} HistoryIsOfTheRun(remedy: R.Remedy, rounds: nat -> Round, max: int, content: string,
                                             scan: S.ScanResult)
    ensures GoodHistory(rounds, Remediated(remedy, rounds, 1, max, Start(content, scan)),
                        Figures(scan.critical, scan.high, scan.total))
  {
    LoopKeepsHistory(remedy, rounds, 1, max, Start(content, scan), FiguresOf(scan));
  }

  // ---- when the loop stops ----------------------------------------------------------------------------

  /** A round after which the scan found nothing at all. */
  predicate FoundNothing(rounds: nat -> Round, round: nat) {
    round > 0 && rounds(round).scan.Some? && rounds(round).scan.value.total == 0
  }

  ghost predicate NothingFoundBefore(rounds: nat -> Round, from: nat, image: nat) {
    forall k: nat | from < k < image :: !FoundNothing(rounds, k)
  }

  /** From image `from` on the loop went on as long as something was found, and it stopped only for want of
      rounds, of findings, or of anything to go on with. */
  ghost predicate StoppedRightly(remedy: R.Remedy, rounds: nat -> Round, max: int, from: nat, f: Loop) {
    && f.image >= from
    && NothingFoundBefore(rounds, from, f.image)
    && (f.image >= max || FoundNothing(rounds, f.image) || !Goes(remedy, f, rounds(f.image + 1)))
  }

  lemma CleanFoundNothing(rounds: nat -> Round, round: nat)
    requires round > 0
    ensures IsClean(rounds(round)) <==> FoundNothing(rounds, round)
  {
  }

  lemma StoppedRightlyFrom(remedy: R.Remedy, rounds: nat -> Round, max: int, from: nat, f: Loop)
    requires StoppedRightly(remedy, rounds, max, from + 1, f) && !FoundNothing(rounds, from + 1)
    ensures StoppedRightly(remedy, rounds, max, from, f)
  {
    hide FoundNothing, Goes;
  }

  lemma StoppedHere(remedy: R.Remedy, rounds: nat -> Round, max: int, f: Loop)
    requires f.image >= max || !Goes(remedy, f, rounds(f.image + 1))
    ensures StoppedRightly(remedy, rounds, max, f.image, f)
  {
    hide Goes;
  }

  lemma StoppedClean(remedy: R.Remedy, rounds: nat -> Round, max: int, from: nat, f: Loop)
    requires f.image == from + 1 && IsClean(rounds(f.image))
    ensures StoppedRightly(remedy, rounds, max, from, f)
  {
    hide Goes;
  }

  lemma {:induction false} LoopStops(remedy: R.Remedy, rounds: nat -> Round, round: nat, max: int, s: Loop)
    requires round == s.image + 1
    ensures StoppedRightly(remedy, rounds, max, s.image, Remediated(remedy, rounds, round, max, s))
    decreases max - round
  {
    hide Goes, Rebuilt, FoundNothing, IsClean, StoppedRightly, Patches, R.InsertAll;
    if round > max || !Goes(remedy, s, rounds(round)) {
      StoppedHere(remedy, rounds, max, s);
    } else {
      var next := Rebuilt(remedy, s, rounds(round), round);
      RebuildMovesTag(remedy, s, rounds(round), round);
      if IsClean(rounds(round)) {
        StoppedClean(remedy, rounds, max, s.image, next);
      } else {
        CleanFoundNothing(rounds, round);
        LoopStops(remedy, rounds, round + 1, max, next);
        StoppedRightlyFrom(remedy, rounds, max, s.image, Remediated(remedy, rounds, round + 1, max, next));
      }
    }
  }

  /** From the first build: every rebuild but the last still found something. */
  lemma {:induction false} RunStops(remedy: R.Remedy, rounds: nat -> Round, max: int, content: string,
                                    scan: S.ScanResult)
    ensures
      var f := Remediated(remedy, rounds, 1, max, Start(content, scan));
      && (forall k: nat | 0 < k < f.image :: !FoundNothing(rounds, k))
      && (f.image >= max || FoundNothing(rounds, f.image) || !Goes(remedy, f, rounds(f.image + 1)))
  {
    hide Goes, Remediated;
    LoopStops(remedy, rounds, 1, max, Start(content, scan));
  }

  // ---- what the last image was built from -------------------------------------------------------------

  /** The content is the original after a round of remediation for each rebuild, none without a patch. */
  ghost predicate Derived(original: string, s: Loop, reports: seq<seq<R.Vuln>>) {
    && |reports| == s.image && s.content == R.After(R.Fixes, original, reports)
    && |R.Applied(R.Fixes, original, reports)| >= s.image
  }

  lemma RebuildIsDerived(original: string, s: Loop, reports: seq<seq<R.Vuln>>, a: Round)
    requires Derived(original, s, reports) && Goes(R.Fixes, s, a)
    ensures Derived(original, Rebuilt(R.Fixes, s, a, s.image + 1), reports + [Report(s.scan)])
  {
    hide Goes, Rebuilt, R.InsertAll, R.Fixes;
    RebuildMovesTag(R.Fixes, s, a, s.image + 1);
    assert (reports + [Report(s.scan)])[..|reports|] == reports;
  }

  lemma {:induction false} LoopIsDerived(rounds: nat -> Round, round: nat, max: int, s: Loop, original: string,
                                         reports: seq<seq<R.Vuln>>) returns (all: seq<seq<R.Vuln>>)
    requires Derived(original, s, reports) && round == s.image + 1
    ensures Derived(original, Remediated(R.Fixes, rounds, round, max, s), all)
    decreases max - round
  {
    hide Goes, Rebuilt, Derived, Patches, Report, R.InsertAll, R.Fixes;
    all := reports;
    if round <= max && Goes(R.Fixes, s, rounds(round)) {
      all := reports + [Report(s.scan)];
      RebuildIsDerived(original, s, reports, rounds(round));
      RebuildMovesTag(R.Fixes, s, rounds(round), round);
      if !IsClean(rounds(round)) {
        all := LoopIsDerived(rounds, round + 1, max, Rebuilt(R.Fixes, s, rounds(round), round), original, all);
      }
    }
  }

  lemma {:induction false} KeptAndAdded(lines: seq<string>, added: seq<bool>)
    requires |lines| == |added|
    ensures |lines| == |R.Kept(lines, added)| + |R.Added(lines, added)|
  {
    if lines != [] {
      KeptAndAdded(lines[..|lines| - 1], added[..|added| - 1]);
    }
  }

  lemma {:induction false} OneCommandEach(fixes: seq<R.Patch>)
    ensures |R.Commands(fixes)| == |fixes|
  {
    if fixes != [] {
      OneCommandEach(fixes[..|fixes| - 1]);
    }
  }

  /** The image under the tag comes from the original Dockerfile with patch lines added, at least one for
      each rebuild. */
  lemma {:induction false} LastImageOnlyAdds(rounds: nat -> Round, max: int, original: string, scan: S.ScanResult)
    returns (added: seq<bool>, fixes: seq<R.Patch>)
    ensures
      var f := Remediated(R.Fixes, rounds, 1, max, Start(original, scan));
      && R.Extends(R.SplitLines(original), R.SplitLines(f.content), added, fixes)
      && |R.SplitLines(f.content)| == |R.SplitLines(original)| + |fixes|
      && |fixes| >= f.image
  {
    hide Remediated, R.SplitLines;
    var f := Remediated(R.Fixes, rounds, 1, max, Start(original, scan));
    var reports := LoopIsDerived(rounds, 1, max, Start(original, scan), original, []);
    R.FixesWriteOneLiners();
    added := R.RemediationOnlyAdds(R.Fixes, original, reports);
    fixes := R.Applied(R.Fixes, original, reports);
    KeptAndAdded(R.SplitLines(f.content), added);
    OneCommandEach(fixes);
  }

  /** Nothing is rebuilt exactly when the first round has no patch, no file or no build to go on with. */
  lemma {:induction false} NothingRebuiltIff(remedy: R.Remedy, rounds: nat -> Round, max: int, original: string,
                                             scan: S.ScanResult)
    ensures Remediated(remedy, rounds, 1, max, Start(original, scan)).image == 0
       <==> max < 1 || !Goes(remedy, Start(original, scan), rounds(1))
  {
    hide Goes, Rebuilt;
    var start := Start(original, scan);
    if max >= 1 && Goes(remedy, start, rounds(1)) {
      RebuildKeepsInForce(remedy, rounds, start, 1);
      if !IsClean(rounds(1)) {
        LoopKeepsInForce(remedy, rounds, 2, max, Rebuilt(remedy, start, rounds(1), 1));
      }
    }
  }

  /** The digests are of the original: the image under the tag comes from it exactly when the first round
      did not rebuild, which can be told before it runs but for the build itself. */
  lemma {:induction false} RebuiltImageIsNotWhatWasDigested(rounds: nat -> Round, max: int, original: string,
                                                            scan: S.ScanResult)
    ensures Remediated(R.Fixes, rounds, 1, max, Start(original, scan)).content == original
       <==> max < 1 || !Goes(R.Fixes, Start(original, scan), rounds(1))
  {
    hide Remediated, Goes;
    var f := Remediated(R.Fixes, rounds, 1, max, Start(original, scan));
    var added, fixes := LastImageOnlyAdds(rounds, max, original, scan);
    NothingRebuiltIff(R.Fixes, rounds, max, original, scan);
    if f.image == 0 {
      var reports := LoopIsDerived(rounds, 1, max, Start(original, scan), original, []);
      assert reports == [];
    }
  }

  // ---- the whole command ------------------------------------------------------------------------------

  datatype Digest = Digest(dockerfile: string, context: string)

  /** `threshold` is the stricter of the policy's and the command line's, empty for none. */
  datatype Request = Request(validateOnly: bool, suggestOnly: bool, force: bool, scan: bool, push: bool,
                             autoRemediate: bool, targetZero: bool, maxRounds: int, threshold: string)

  /** Where the run can be cut short by an error raised below it.  Building, scanning and pushing answer
      with a failure instead. */
  datatype Place = Validating | Formatting | Digesting | Remediating | Gating | Attributing | Checking | Closing

  /** `errors` is None when the validation ran and produced no result.  The gate and the policy are
      arbitrary functions of what they are given; `raises` says where an error comes up. */
  datatype World = World(validated: bool, errors: Option<nat>, preflight: nat, content: string,
                         before: Digest, built: bool, after: Digest, scan: Option<S.ScanResult>,
                         rounds: nat -> Round, gateFails: (S.ScanResult, string) -> bool,
                         policy: Option<(Option<S.ScanResult>, Digest, Digest, nat) -> nat>, pushed: bool,
                         raises: Place -> bool)

  datatype Response = Response(success: bool, exit: ExitCode)

  /** What the gates look at: the image under the tag, and the scan in force with the image it is of. */
  datatype Measured = Measured(image: nat, content: string, scan: Option<S.ScanResult>, scanned: nat)

  predicate Remediates(q: Request, w: World) {
    && (q.autoRemediate || q.targetZero) && q.scan
    && w.scan.Some? && w.scan.value.total > 0
  }

  function FinalLoop(q: Request, w: World): Loop
    requires Remediates(q, w)
  {
    Remediated(R.Fixes, w.rounds, 1, q.maxRounds, Start(w.content, w.scan.value))
  }

  function AtTheGates(q: Request, w: World): Measured {
    if Remediates(q, w) then
      var f := FinalLoop(q, w);
      Measured(f.image, f.content, Some(f.scan), f.scanned)
    else Measured(0, w.content, if q.scan then w.scan else None, 0)
  }

  predicate HasErrors(w: World) {
    w.errors.Some? && w.errors.value > 0
  }

  /** The command gets as far as an image and what was measured of it. */
  predicate Builds(q: Request, w: World) {
    && w.validated && !q.validateOnly && !q.suggestOnly
    && (HasErrors(w) ==> q.force)
    && w.built
    && !w.raises(Validating) && !w.raises(Digesting) && !w.raises(Remediating)
  }

  predicate PassesGate(q: Request, w: World, m: Measured) {
    q.threshold == "" || (m.scan.Some? && !w.raises(Gating) && !w.gateFails(m.scan.value, q.threshold))
  }

  predicate MeetsPolicy(w: World, m: Measured) {
    && !w.raises(Attributing)
    && (w.policy.None? || (!w.raises(Checking) && w.policy.value(m.scan, w.before, w.after, m.image) == 0))
  }

  /** Without a digest of the Dockerfile there is nothing to compare. */
  predicate SourceHeld(w: World) {
    w.before.dockerfile == "" || w.before == w.after
  }

  /** A rule was looked at and not met.  A scan that could not be run, a failed build, a failed push and an
      error raised on the way are errors instead. */
  predicate RuleIsBroken(q: Request, w: World) {
    w.validated && !w.raises(Validating)
    && if q.validateOnly then !w.raises(Formatting) && (HasErrors(w) || (w.errors.Some? && w.preflight > 0))
       else
         && !q.suggestOnly
         && if HasErrors(w) && !q.force then !w.raises(Formatting)
            else Builds(q, w) && GateIsBroken(q, w, AtTheGates(q, w))
  }

  predicate GateIsBroken(q: Request, w: World, m: Measured) {
    RuleStops(q, w, m) || (PassesGate(q, w, m) && MeetsPolicy(w, m) && q.push && !SourceHeld(w))
  }

  /** The threshold, or behind it the policy, is not met; either way the findings are attributed first. */
  predicate RuleStops(q: Request, w: World, m: Measured) {
    && !w.raises(Attributing)
    && if q.threshold != "" && !PassesGate(q, w, m) then m.scan.Some? && !w.raises(Gating)
       else !w.raises(Checking) && !MeetsPolicy(w, m)
  }

  /** `published` is the image handed to the registry, if it came to that.  An error raised after that turns
      the exit code into an error, and the image stays published. */
  method Execute(q: Request, w: World) returns (r: Response, published: Option<nat>)
    ensures
      var m := AtTheGates(q, w);
      && (published.Some? <==> q.push && Builds(q, w) && PassesGate(q, w, m) && MeetsPolicy(w, m) && SourceHeld(w))
      && (published.Some? ==> published.value == m.image)
    ensures r.success <==> r.exit == EXIT_OK
    ensures q.push && !q.validateOnly && !q.suggestOnly ==>
              (r.success <==> published.Some? && w.pushed && !w.raises(Closing))
    ensures r.exit == EXIT_POLICY <==> RuleIsBroken(q, w)
  {
    published := None;
    if w.raises(Validating) || !w.validated {
      return Response(false, EXIT_ERROR), None;
    }
    if q.validateOnly || q.suggestOnly || (HasErrors(w) && !q.force) {
      r := WithoutBuilding(q, w);
      return;
    }
    if w.raises(Digesting) || !w.built || w.raises(Remediating) {
      return Response(false, EXIT_ERROR), None;
    }
    var m := Measure(q, w);
    var stop := Gates(q, w, m);
    if stop.Some? {
      return Response(false, stop.value), None;
    }
    if q.push {
      if w.before.dockerfile != "" && w.before != w.after {
        return Response(false, EXIT_POLICY), None;
      }
      published := Some(m.image);
      if !w.pushed {
        r := Response(false, EXIT_ERROR);
        return;
      }
    }
    r := if w.raises(Closing) then Response(false, EXIT_ERROR) else Response(true, EXIT_OK);
  }

  /** A run that ends without building. */
  method WithoutBuilding(q: Request, w: World) returns (r: Response)
    requires q.validateOnly || q.suggestOnly || (HasErrors(w) && !q.force)
    ensures r.success <==> r.exit == EXIT_OK
    ensures r.exit == EXIT_POLICY <==>
            && !w.raises(Formatting)
            && if q.validateOnly then HasErrors(w) || (w.errors.Some? && w.preflight > 0)
               else !q.suggestOnly
    ensures !q.validateOnly ==> (r.success <==> q.suggestOnly && !w.raises(Formatting))
  {
    if w.raises(Formatting) {
      return Response(false, EXIT_ERROR);
    }
    if q.validateOnly {
      r := FormatValidation(w);
      if w.preflight > 0 && r.exit == EXIT_OK {
        r := Response(false, EXIT_POLICY);
      }
      return;
    }
    if q.suggestOnly {
      return Response(true, EXIT_OK);
    }
    r := FormatValidation(w);
  }

  /** The threshold, then the policy: the exit code of the one that stops the run. */
  method Gates(q: Request, w: World, m: Measured) returns (stop: Option<ExitCode>)
    ensures stop.None? <==> PassesGate(q, w, m) && MeetsPolicy(w, m)
    ensures stop.Some? ==> stop.value != EXIT_OK
    ensures stop == Some(EXIT_POLICY) <==> RuleStops(q, w, m)
  {
    if q.threshold != "" {
      if m.scan.None? || w.raises(Gating) {
        return Some(EXIT_ERROR);
      }
      if w.gateFails(m.scan.value, q.threshold) {
        // The findings are attributed for the message as well.
        return Some(if w.raises(Attributing) then EXIT_ERROR else EXIT_POLICY);
      }
    }
    if w.raises(Attributing) {
      return Some(EXIT_ERROR);
    }
    if w.policy.Some? {
      if w.raises(Checking) {
        return Some(EXIT_ERROR);
      }
      if w.policy.value(m.scan, w.before, w.after, m.image) > 0 {
        return Some(EXIT_POLICY);
      }
    }
    stop := None;
  }

  method FormatValidation(w: World) returns (r: Response)
    ensures r == if w.errors.None? then Response(false, EXIT_ERROR)
                 else if w.errors.value > 0 then Response(false, EXIT_POLICY)
                 else Response(true, EXIT_OK)
  {
    if w.errors.None? {
      return Response(false, EXIT_ERROR);
    }
    var failed := w.errors.value > 0;
    r := Response(!failed, if failed then EXIT_POLICY else EXIT_OK);
  }

  method Measure(q: Request, w: World) returns (m: Measured)
    ensures m == AtTheGates(q, w)
  {
    m := Measured(0, w.content, None, 0);
    if q.scan {
      m := m.(scan := w.scan);
    }
    if (q.autoRemediate || q.targetZero) && q.scan && m.scan.Some? && m.scan.value.total > 0 {
      var f := Remediate(w.rounds, q.maxRounds, Start(w.content, m.scan.value));
      m := Measured(f.image, f.content, Some(f.scan), f.scanned);
    }
  }

  /** The image is rebuilt exactly when remediation was asked for along with a scan, that scan found something,
      there is a round to spare, and the first one goes through. */
  lemma {:induction false} RebuiltIff(q: Request, w: World)
    ensures AtTheGates(q, w).image > 0 <==>
            && (q.autoRemediate || q.targetZero) && q.scan
            && w.scan.Some? && w.scan.value.total > 0
            && q.maxRounds >= 1 && Goes(R.Fixes, Start(w.content, w.scan.value), w.rounds(1))
  {
    hide Goes, Remediated;
    if Remediates(q, w) {
      NothingRebuiltIff(R.Fixes, w.rounds, q.maxRounds, w.content, w.scan.value);
    }
  }

  /** What an image that may be published has been through, condition by condition. */
  lemma PublishedMeans(q: Request, w: World)
    requires Builds(q, w) && PassesGate(q, w, AtTheGates(q, w)) && MeetsPolicy(w, AtTheGates(q, w)) && SourceHeld(w)
    ensures w.validated && w.built && !q.validateOnly && !q.suggestOnly
    ensures w.errors.Some? && w.errors.value > 0 ==> q.force
    ensures q.threshold != "" ==>
              var scan := AtTheGates(q, w).scan;
              q.scan && scan.Some? && !w.gateFails(scan.value, q.threshold)
    ensures w.policy.Some? ==>
              w.policy.value(AtTheGates(q, w).scan, w.before, w.after, AtTheGates(q, w).image) == 0
    ensures w.before.dockerfile != "" ==> w.before.dockerfile == w.after.dockerfile && w.before.context == w.after.context
    ensures forall p: Place | p.Validating? || p.Digesting? || p.Remediating? || p.Attributing? :: !w.raises(p)
    ensures q.threshold != "" ==> !w.raises(Gating)
    ensures w.policy.Some? ==> !w.raises(Checking)
  {
    hide Remediated;
  }

  /** Nothing else stands in the way. */
  lemma NothingElseStops(q: Request, w: World)
    requires w.validated && w.built && !q.validateOnly && !q.suggestOnly
    requires w.errors.Some? && w.errors.value > 0 ==> q.force
    requires q.threshold != "" ==>
               var scan := AtTheGates(q, w).scan;
               scan.Some? && !w.gateFails(scan.value, q.threshold)
    requires w.policy.Some? ==>
               w.policy.value(AtTheGates(q, w).scan, w.before, w.after, AtTheGates(q, w).image) == 0
    requires w.before.dockerfile == "" || w.before == w.after
    requires forall p: Place :: !w.raises(p)
    ensures Builds(q, w) && PassesGate(q, w, AtTheGates(q, w)) && MeetsPolicy(w, AtTheGates(q, w)) && SourceHeld(w)
  {
    hide AtTheGates;
  }

  /** With a threshold, the published image is the one the gate saw a scan of exactly when the scan after
      the last rebuild succeeded. */
  lemma {:induction false} PublishedImageWasScanned(q: Request, w: World)
    requires Builds(q, w) && q.threshold != "" && PassesGate(q, w, AtTheGates(q, w))
    ensures
      var m := AtTheGates(q, w);
      m.scanned == m.image <==> m.image == 0 || w.rounds(m.image).scan.Some?
  {
    hide Remediated;
    if Remediates(q, w) {
      ScanIsOfLastImage(R.Fixes, w.rounds, q.maxRounds, w.content, w.scan.value);
    }
  }

  /** A run that publishes a rebuild nobody scanned, on the strength of the scan of the first build. */
  lemma StaleScanIsTrusted()
    returns (q: Request, w: World)
    ensures q.push && q.threshold != "" && Builds(q, w) && MeetsPolicy(w, AtTheGates(q, w)) && SourceHeld(w)
    ensures PassesGate(q, w, AtTheGates(q, w))
    ensures AtTheGates(q, w).image == 1 && AtTheGates(q, w).scanned == 0
  {
    var found := S.Finding("CVE-1", "pip", "LOW", None);
    var scan := S.ScanResult(0, 0, 0, 1, 0, 1, 0, [found]);
    q := Request(false, false, false, true, true, true, false, 1, "critical");
    w := World(true, Some(0), 0, "FROM a", Digest("d", "c"), true, Digest("d", "c"), Some(scan),
               (n: nat) => Round(true, true, None), (s: S.ScanResult, t: string) => s.critical > 0, None, true,
               (p: Place) => false);
    var start := Start("FROM a", scan);
    PipIsCalledFor(found, scan);
    assert Goes(R.Fixes, start, w.rounds(1));
    var rebuilt := Rebuilt(R.Fixes, start, w.rounds(1), 1);
    assert Remediated(R.Fixes, w.rounds, 2, 1, rebuilt) == rebuilt;
    assert AtTheGates(q, w).image == 1;
  }

  lemma PipIsCalledFor(found: S.Finding, scan: S.ScanResult)
    requires scan.sample == [found] && found.package == "pip"
    ensures R.Fixes("FROM a", Report(scan)) != []
  {
    var vulns := Report(scan);
    assert vulns[0] == VulnOf(found) && vulns[0] in vulns;
    assert T.Lower("pip") == "pip";
    assert R.IsPipVuln(vulns[0]);
    assert |R.PIP_GUARD| > 6;
    assert !R.Mentions("FROM a", R.PIP_GUARD);
    R.OneRound("FROM a", vulns, R.PIP);
  }
}
