/** The fleet scan's descent: Dockerfiles under a root, with a file cap, a depth cap, and a flag that
    says when either cap was met. */
module FleetWalk {
  import opened Sequences
  import opened Text
  import opened FileTree
  import opened Sorting

  type Path = seq<string>

  /** Which directories are never entered and which names count; the results hold for any choice. */
  datatype Rules = Rules(skipped: set<string>, named: string -> bool)

  // ---- the reference ----------------------------------------------------------------------------------

  /** Every Dockerfile-named entry not under a skipped or symlinked directory, whatever could be read. */
  function AllDockerfiles(rules: Rules, at: Path, kids: seq<Child>): seq<Path>
    decreases kids
  {
    if kids == [] then []
    else DockerfilesOf(rules, at, kids[0]) + AllDockerfiles(rules, at, kids[1..])
  }

  function DockerfilesOf(rules: Rules, at: Path, child: Child): seq<Path>
    decreases child
  {
    match child.entry
    case Symlink => []
    case Dir(_, children) =>
      if child.name in rules.skipped then [] else AllDockerfiles(rules, at + [child.name], children)
    case _ => if rules.named(child.name) then [at + [child.name]] else []
  }

  // ---- the order in which the walk meets things -------------------------------------------------------

  /** What the walk can meet: a Dockerfile, a directory it cannot list, one that lies too deep. */
  datatype Sighting = Dockerfile(at: Path) | Unlisted(at: Path) | TooDeep(at: Path)

  predicate LeqName(a: Child, b: Child) {
    LeqString(a.name, b.name)
  }

  lemma ChildrenAreInOrder(kids: seq<Child>)
    ensures forall i, j | 0 <= i < j < |Sort(LeqName, kids)| ::
              LeqString(Sort(LeqName, kids)[i].name, Sort(LeqName, kids)[j].name)
  {
    forall x: Child, y: Child ensures LeqName(x, y) || LeqName(y, x) { LeqStringTotal(x.name, y.name); }
    forall x: Child, y: Child, z: Child | LeqName(x, y) && LeqName(y, z) ensures LeqName(x, z) {
      LeqStringTransitive(x.name, y.name, z.name);
    }
    SortSorts(LeqName, kids);
  }

  predicate Opens(rules: Rules, child: Child) {
    child.entry.Dir? && child.name !in rules.skipped
  }

  predicate Counts(rules: Rules, child: Child) {
    !child.entry.Dir? && !child.entry.Symlink? && rules.named(child.name)
  }

  /** A directory's Dockerfiles by name, then its subdirectories from the last name to the first, each
      in full: the descent takes the directory pushed last.  `room` levels may still be opened. */
  function Order(rules: Rules, at: Path, dir: Entry, room: int): seq<Sighting>
    requires dir.Dir?
    decreases if room < 0 then 0 else room + 1, 0
  {
    if room < 0 then [TooDeep(at)]
    else if !dir.readable then [Unlisted(at)]
    else
      var kids := Sort(LeqName, dir.children);
      Here(rules, at, kids) + Below(rules, at, kids, room)
  }

  function Here(rules: Rules, at: Path, kids: seq<Child>): seq<Sighting> {
    if kids == [] then []
    else
      var last := kids[|kids| - 1];
      Here(rules, at, kids[..|kids| - 1]) + if Counts(rules, last) then [Dockerfile(at + [last.name])] else []
  }

  function Below(rules: Rules, at: Path, kids: seq<Child>, room: int): seq<Sighting>
    requires room >= 0
    decreases room, |kids| + 1
  {
    if kids == [] then []
    else
      var last := kids[|kids| - 1];
      (if Opens(rules, last) then Order(rules, at + [last.name], last.entry, room - 1) else [])
      + Below(rules, at, kids[..|kids| - 1], room)
  }

  function DockerfilesIn(log: seq<Sighting>): (r: seq<Path>)
    ensures |r| <= |log|
  {
    if log == [] then []
    else
      var last := log[|log| - 1];
      DockerfilesIn(log[..|log| - 1]) + if last.Dockerfile? then [last.at] else []
  }

  function UnlistedIn(log: seq<Sighting>): seq<Path> {
    if log == [] then []
    else
      var last := log[|log| - 1];
      UnlistedIn(log[..|log| - 1]) + if last.Unlisted? then [last.at] else []
  }

  predicate MeetsTooDeep(log: seq<Sighting>) {
    exists s | s in log :: s.TooDeep?
  }

  lemma {:induction false} DockerfilesAppend(a: seq<Sighting>, b: seq<Sighting>)
    ensures DockerfilesIn(a + b) == DockerfilesIn(a) + DockerfilesIn(b)
    ensures UnlistedIn(a + b) == UnlistedIn(a) + UnlistedIn(b)
  {
    hide DockerfilesIn, UnlistedIn;
    if b == [] {
      NothingMet();
      assert a + b == a;
    } else {
      var front, last := b[..|b| - 1], b[|b| - 1];
      DockerfilesAppend(a, front);
      assert b == front + [last] && a + b == (a + front) + [last];
      OneSightingMore(a + front, last);
      OneSightingMore(front, last);
      Associates(DockerfilesIn(a), DockerfilesIn(front), if last.Dockerfile? then [last.at] else []);
      Associates(UnlistedIn(a), UnlistedIn(front), if last.Unlisted? then [last.at] else []);
    }
  }

  lemma NothingMet()
    ensures DockerfilesIn([]) == [] && UnlistedIn([]) == []
  {
  }

  lemma OneSightingMore(log: seq<Sighting>, s: Sighting)
    ensures DockerfilesIn(log + [s]) == DockerfilesIn(log) + if s.Dockerfile? then [s.at] else []
    ensures UnlistedIn(log + [s]) == UnlistedIn(log) + if s.Unlisted? then [s.at] else []
  {
    assert (log + [s])[..|log|] == log;
  }

  // ---- nothing cut off means nothing missing ----------------------------------------------------------

  lemma Carry(x: seq<Path>, tail: seq<Path>, y: seq<Path>, rest: seq<Path>)
    requires multiset(tail) == multiset(y) + multiset(rest)
    ensures multiset(x + tail) == multiset(y) + multiset(x + rest)
  {
  }

  lemma Without<T>(s: seq<T>, i: nat)
    requires 0 < i < |s|
    ensures s[..i] + s[i + 1..] == [s[0]] + (s[1..][..i - 1] + s[1..][i..])
    ensures (s[..i] + s[i + 1..])[1..] == s[1..][..i - 1] + s[1..][i..]
    ensures s[1..][i - 1] == s[i]
  {
  }

  lemma {:induction false} PullOut(rules: Rules, at: Path, kids: seq<Child>, i: nat)
    requires i < |kids|
    ensures multiset(AllDockerfiles(rules, at, kids))
         == multiset(DockerfilesOf(rules, at, kids[i])) + multiset(AllDockerfiles(rules, at, kids[..i] + kids[i + 1..]))
    ensures Weights(kids) == Weight(kids[i].entry) + Weights(kids[..i] + kids[i + 1..])
  {
    if i == 0 {
      assert kids[..0] + kids[1..] == kids[1..];
    } else {
      PullOut(rules, at, kids[1..], i - 1);
      var rest := kids[1..][..i - 1] + kids[1..][i..];
      Without(kids, i);
      Carry(DockerfilesOf(rules, at, kids[0]), AllDockerfiles(rules, at, kids[1..]),
            DockerfilesOf(rules, at, kids[i]), AllDockerfiles(rules, at, rest));
    }
  }

  /** Listing order changes neither what there is to find nor its weight. */
  lemma {:induction false} ListingOrderIsIrrelevant(rules: Rules, at: Path, a: seq<Child>, b: seq<Child>)
    requires multiset(a) == multiset(b)
    ensures multiset(AllDockerfiles(rules, at, a)) == multiset(AllDockerfiles(rules, at, b))
    ensures Weights(a) == Weights(b)
    decreases |a|
  {
    if a == [] {
      assert |multiset(b)| == 0;
    } else {
      var i := TakeOut(a, b);
      ListingOrderIsIrrelevant(rules, at, a[1..], b[..i] + b[i + 1..]);
      PullOut(rules, at, b, i);
    }
  }

  lemma CutOffAppend(a: seq<Sighting>, b: seq<Sighting>)
    requires !MeetsTooDeep(a + b) && UnlistedIn(a + b) == []
    ensures !MeetsTooDeep(a) && !MeetsTooDeep(b) && UnlistedIn(a) == [] && UnlistedIn(b) == []
  {
    DockerfilesAppend(a, b);
    assert forall s | s in a :: s in a + b;
    assert forall s | s in b :: s in a + b;
  }

  /** A walk that was never cut off met every Dockerfile there is. */
  lemma {:induction false} OrderIsComplete(rules: Rules, at: Path, dir: Entry, room: int)
    requires dir.Dir?
    requires !MeetsTooDeep(Order(rules, at, dir, room)) && UnlistedIn(Order(rules, at, dir, room)) == []
    ensures multiset(DockerfilesIn(Order(rules, at, dir, room))) == multiset(AllDockerfiles(rules, at, dir.children))
    decreases if room < 0 then 0 else room + 1, 0
  {
    assert room >= 0;
    assert dir.readable by {
      assert [Unlisted(at)][..0] == [];
      assert UnlistedIn([Unlisted(at)]) == UnlistedIn([]) + [at];
    }
    var kids := Sort(LeqName, dir.children);
    SortPermutes(LeqName, dir.children);
    ListingOrderIsIrrelevant(rules, at, kids, dir.children);
    CutOffAppend(Here(rules, at, kids), Below(rules, at, kids, room));
    LevelIsComplete(rules, at, kids, room);
    DockerfilesAppend(Here(rules, at, kids), Below(rules, at, kids, room));
  }

  lemma {:induction false} LevelIsComplete(rules: Rules, at: Path, kids: seq<Child>, room: int)
    requires room >= 0
    requires !MeetsTooDeep(Below(rules, at, kids, room)) && UnlistedIn(Below(rules, at, kids, room)) == []
    ensures LevelIn(rules, at, kids, room) == multiset(AllDockerfiles(rules, at, kids))
    decreases room, |kids| + 1
  {
    if kids != [] {
      var n := |kids| - 1;
      var front, last := kids[..n], kids[n];
      CutOffAppend(Sub(rules, at, last, room), Below(rules, at, front, room));
      LevelIsComplete(rules, at, front, room);
      if Opens(rules, last) {
        OrderIsComplete(rules, at + [last.name], last.entry, room - 1);
      }
      LastChildMet(rules, at, kids, room);
      LastChildThere(rules, at, kids);
    }
  }

  /** Whatever the walk is cut off from, it meets no Dockerfile but the tree's, and none too often. */
  lemma {:induction false} OrderIsReal(rules: Rules, at: Path, dir: Entry, room: int)
    requires dir.Dir?
    ensures multiset(DockerfilesIn(Order(rules, at, dir, room))) <= multiset(AllDockerfiles(rules, at, dir.children))
    decreases if room < 0 then 0 else room + 1, 0
  {
    if room >= 0 && dir.readable {
      var kids := Sort(LeqName, dir.children);
      SortPermutes(LeqName, dir.children);
      ListingOrderIsIrrelevant(rules, at, kids, dir.children);
      LevelIsReal(rules, at, kids, room);
      DockerfilesAppend(Here(rules, at, kids), Below(rules, at, kids, room));
    } else {
      CutOffMeetsNothing(at);
    }
  }

  lemma CutOffMeetsNothing(at: Path)
    ensures DockerfilesIn([TooDeep(at)]) == [] && DockerfilesIn([Unlisted(at)]) == []
  {
    assert [TooDeep(at)][..0] == [] && [Unlisted(at)][..0] == [];
  }

  lemma {:induction false} LevelIsReal(rules: Rules, at: Path, kids: seq<Child>, room: int)
    requires room >= 0
    ensures LevelIn(rules, at, kids, room) <= multiset(AllDockerfiles(rules, at, kids))
    decreases room, |kids| + 1
  {
    if kids != [] {
      var n := |kids| - 1;
      var front, last := kids[..n], kids[n];
      LevelIsReal(rules, at, front, room);
      if Opens(rules, last) {
        OrderIsReal(rules, at + [last.name], last.entry, room - 1);
      }
      LastChildMet(rules, at, kids, room);
      LastChildThere(rules, at, kids);
    }
  }

  function LevelIn(rules: Rules, at: Path, kids: seq<Child>, room: int): multiset<Path>
    requires room >= 0
  {
    multiset(DockerfilesIn(Here(rules, at, kids))) + multiset(DockerfilesIn(Below(rules, at, kids, room)))
  }

  function Sub(rules: Rules, at: Path, child: Child, room: int): seq<Sighting>
    requires room >= 0
  {
    if Opens(rules, child) then Order(rules, at + [child.name], child.entry, room - 1) else []
  }

  /** What the last child adds to what is met. */
  lemma LastChildMet(rules: Rules, at: Path, kids: seq<Child>, room: int)
    requires room >= 0 && kids != []
    ensures
      var front, last := kids[..|kids| - 1], kids[|kids| - 1];
      LevelIn(rules, at, kids, room)
      == (multiset(DockerfilesIn(Sub(rules, at, last, room))) + HereOf(rules, at, last))
         + LevelIn(rules, at, front, room)
  {
    hide DockerfilesIn;
    var n := |kids| - 1;
    var front, last := kids[..n], kids[n];
    var mine, later := Sub(rules, at, last, room), Below(rules, at, front, room);
    var here := if Counts(rules, last) then [at + [last.name]] else [];
    assert Below(rules, at, kids, room) == mine + later;
    DockerfilesAppend(mine, later);
    HereLast(rules, at, kids);
    Regroup(DockerfilesIn(Here(rules, at, front)), here, DockerfilesIn(mine), DockerfilesIn(later));
  }

  function HereOf(rules: Rules, at: Path, child: Child): multiset<Path> {
    multiset(if Counts(rules, child) then [at + [child.name]] else [])
  }

  /** And to what there is. */
  lemma LastChildThere(rules: Rules, at: Path, kids: seq<Child>)
    requires kids != []
    ensures
      var front, last := kids[..|kids| - 1], kids[|kids| - 1];
      var under := if Opens(rules, last) then AllDockerfiles(rules, at + [last.name], last.entry.children) else [];
      multiset(AllDockerfiles(rules, at, kids))
      == (multiset(under) + HereOf(rules, at, last)) + multiset(AllDockerfiles(rules, at, front))
  {
    var n := |kids| - 1;
    PullOut(rules, at, kids, n);
    assert kids[..n] + kids[n + 1..] == kids[..n];
  }

  lemma Regroup(a: seq<Path>, h: seq<Path>, m: seq<Path>, b: seq<Path>)
    ensures multiset(a + h) + multiset(m + b) == (multiset(m) + multiset(h)) + (multiset(a) + multiset(b))
  {
  }

  lemma HereLast(rules: Rules, at: Path, kids: seq<Child>)
    requires kids != []
    ensures
      var last := kids[|kids| - 1];
      DockerfilesIn(Here(rules, at, kids))
      == DockerfilesIn(Here(rules, at, kids[..|kids| - 1])) + if Counts(rules, last) then [at + [last.name]] else []
  {
    var last, front := kids[|kids| - 1], Here(rules, at, kids[..|kids| - 1]);
    if Counts(rules, last) {
      assert (front + [Dockerfile(at + [last.name])])[..|front|] == front;
    } else {
      assert front + [] == front;
    }
  }

  // ---- nothing is there twice -------------------------------------------------------------------------

  ghost predicate NoneTwice(found: multiset<Path>) {
    forall p: Path :: found[p] <= 1
  }

  predicate LiesUnder(at: Path, name: string, p: Path) {
    |p| > |at| && p[..|at|] == at && p[|at|] == name
  }

  lemma {:induction false} PathsLieBelow(rules: Rules, at: Path, kids: seq<Child>, p: Path)
    requires p in AllDockerfiles(rules, at, kids)
    ensures exists k :: 0 <= k < |kids| && LiesUnder(at, kids[k].name, p)
    decreases kids
  {
    if p in DockerfilesOf(rules, at, kids[0]) {
      PathLiesBelowChild(rules, at, kids[0], p);
      assert LiesUnder(at, kids[0].name, p);
    } else {
      PathsLieBelow(rules, at, kids[1..], p);
      var k :| 0 <= k < |kids[1..]| && LiesUnder(at, kids[1..][k].name, p);
      assert LiesUnder(at, kids[k + 1].name, p);
    }
  }

  lemma {:induction false} PathLiesBelowChild(rules: Rules, at: Path, child: Child, p: Path)
    requires p in DockerfilesOf(rules, at, child)
    ensures LiesUnder(at, child.name, p)
    decreases child
  {
    if child.entry.Dir? {
      var here := at + [child.name];
      PathsLieBelow(rules, here, child.entry.children, p);
      assert p[..|here|] == here;
      assert p[..|at|] == here[..|at|] && p[|at|] == here[|at|];
    }
  }

  /** With distinct names in every directory, each Dockerfile has its own path. */
  lemma {:induction false} DockerfilesAreDistinct(rules: Rules, at: Path, kids: seq<Child>)
    requires WellNamed(kids)
    ensures NoneTwice(multiset(AllDockerfiles(rules, at, kids)))
    decreases kids
  {
    if kids != [] {
      var first, rest := DockerfilesOf(rules, at, kids[0]), AllDockerfiles(rules, at, kids[1..]);
      WellNamedTail(kids);
      DockerfilesAreDistinct(rules, at, kids[1..]);
      assert kids[0] in kids;
      if kids[0].entry.Dir? {
        DockerfilesAreDistinct(rules, at + [kids[0].name], kids[0].entry.children);
      }
      assert multiset(first + rest) == multiset(first) + multiset(rest);
      forall p: Path
        ensures multiset(first + rest)[p] <= 1
      {
        if p in first {
          NotAmongTheRest(rules, at, kids, p);
        }
      }
    }
  }

  lemma NotAmongTheRest(rules: Rules, at: Path, kids: seq<Child>, p: Path)
    requires WellNamed(kids) && kids != [] && p in DockerfilesOf(rules, at, kids[0])
    ensures p !in AllDockerfiles(rules, at, kids[1..])
  {
    PathLiesBelowChild(rules, at, kids[0], p);
    if p in AllDockerfiles(rules, at, kids[1..]) {
      PathsLieBelow(rules, at, kids[1..], p);
    }
  }

  // ---- what is too deep -------------------------------------------------------------------------------

  /** From `dir` down through directories that are entered, each listed in the one before it. */
  predicate Enters(rules: Rules, dir: Entry, chain: seq<Child>) {
    chain == []
    || (dir.Dir? && dir.readable && chain[0] in dir.children && Opens(rules, chain[0])
        && Enters(rules, chain[0].entry, chain[1..]))
  }

  /** Some such chain goes more than `room` levels down. */
  ghost predicate GoesTooDeep(rules: Rules, dir: Entry, room: int) {
    exists chain: seq<Child> :: Enters(rules, dir, chain) && |chain| > room
  }

  ghost predicate LeadsTooDeep(rules: Rules, kids: seq<Child>, room: int) {
    exists k | k in kids :: Opens(rules, k) && GoesTooDeep(rules, k.entry, room)
  }

  lemma TooDeepBelow(rules: Rules, dir: Entry, room: int)
    requires dir.Dir? && room >= 0
    ensures GoesTooDeep(rules, dir, room) <==> dir.readable && LeadsTooDeep(rules, dir.children, room - 1)
  {
    if GoesTooDeep(rules, dir, room) {
      var chain: seq<Child> :| Enters(rules, dir, chain) && |chain| > room;
      assert |chain[1..]| > room - 1;
    }
    if dir.readable && LeadsTooDeep(rules, dir.children, room - 1) {
      var k :| k in dir.children && Opens(rules, k) && GoesTooDeep(rules, k.entry, room - 1);
      var chain: seq<Child> :| Enters(rules, k.entry, chain) && |chain| > room - 1;
      assert ([k] + chain)[1..] == chain;
      assert Enters(rules, dir, [k] + chain);
    }
  }

  /** The walk is cut off by its depth exactly when the tree has something too deep. */
  lemma {:induction false} TooDeepIff(rules: Rules, at: Path, dir: Entry, room: int)
    requires dir.Dir?
    ensures MeetsTooDeep(Order(rules, at, dir, room)) <==> GoesTooDeep(rules, dir, room)
    decreases if room < 0 then 0 else room + 1, 0
  {
    if room < 0 {
      assert TooDeep(at) in Order(rules, at, dir, room);
      assert Enters(rules, dir, []);
    } else {
      TooDeepBelow(rules, dir, room);
      if dir.readable {
        var kids := Sort(LeqName, dir.children);
        SortPermutes(LeqName, dir.children);
        assert forall k :: k in kids <==> k in multiset(kids);
        assert forall k :: k in dir.children <==> k in multiset(dir.children);
        HereIsPlain(rules, at, kids);
        LevelTooDeepIff(rules, at, kids, room);
      }
    }
  }

  lemma {:induction false} LevelTooDeepIff(rules: Rules, at: Path, kids: seq<Child>, room: int)
    requires room >= 0
    ensures MeetsTooDeep(Below(rules, at, kids, room)) <==> LeadsTooDeep(rules, kids, room - 1)
    decreases room, |kids| + 1
  {
    if kids != [] {
      var n := |kids| - 1;
      var front, last := kids[..n], kids[n];
      LevelTooDeepIff(rules, at, front, room);
      if Opens(rules, last) {
        TooDeepIff(rules, at + [last.name], last.entry, room - 1);
      }
      assert kids == front + [last];
      assert Below(rules, at, kids, room) == Sub(rules, at, last, room) + Below(rules, at, front, room);
    }
  }

  // ---- the walk ---------------------------------------------------------------------------------------

  datatype Pending = Pending(at: Path, dir: Entry, depth: nat)

  predicate AllDirs(stack: seq<Pending>) {
    forall p | p in stack :: p.dir.Dir?
  }

  function StackOrder(rules: Rules, stack: seq<Pending>, maxDepth: int): seq<Sighting>
    requires AllDirs(stack)
  {
    if stack == [] then []
    else
      var top := stack[|stack| - 1];
      Order(rules, top.at, top.dir, maxDepth - top.depth) + StackOrder(rules, stack[..|stack| - 1], maxDepth)
  }

  function StackWeight(stack: seq<Pending>): nat {
    if stack == [] then 0
    else StackWeight(stack[..|stack| - 1]) + Weight(stack[|stack| - 1].dir)
  }

  lemma Pushed(rules: Rules, stack: seq<Pending>, p: Pending, maxDepth: int)
    requires AllDirs(stack) && p.dir.Dir?
    ensures AllDirs(stack + [p])
    ensures StackOrder(rules, stack + [p], maxDepth)
         == Order(rules, p.at, p.dir, maxDepth - p.depth) + StackOrder(rules, stack, maxDepth)
    ensures StackWeight(stack + [p]) == StackWeight(stack) + Weight(p.dir)
  {
    assert (stack + [p])[..|stack|] == stack;
  }

  /** The text of a relative path; the root itself is `.`. */
  function RelativeText(at: Path): string {
    if at == [] then "." else Join(at, '/')
  }

  /** The text of a path tells its components, and is a dot for the root alone. */
  lemma RelativeTextIsRead(at: Path)
    requires forall name | name in at :: name != "" && '/' !in name
    ensures at == [] ==> RelativeText(at) == "."
    ensures at != [] ==> Split(RelativeText(at), '/') == at
  {
    if at != [] {
      SplitOfJoin(at, '/');
    }
  }

  function Texts(ats: seq<Path>): (r: seq<string>)
    ensures |r| == |ats|
  {
    if ats == [] then [] else [RelativeText(ats[0])] + Texts(ats[1..])
  }

  function CapOf(maxFiles: int): nat {
    if maxFiles < 0 then 0 else maxFiles
  }

  function Take<T>(s: seq<T>, n: nat): (r: seq<T>)
    ensures n >= |s| ==> r == s
  {
    if n <= |s| then s[..n] else s
  }

  lemma TakeIsWithin<T>(s: seq<T>, n: nat)
    ensures multiset(Take(s, n)) <= multiset(s)
  {
    assert s == Take(s, n) + s[|Take(s, n)|..];
  }

  lemma TakeMore<T>(s: seq<T>, x: T, n: nat)
    ensures Take(s + [x], n) == if |s| < n then Take(s, n) + [x] else Take(s, n)
  {
  }

  lemma PathsSort(paths: seq<Path>)
    ensures Sorted(LeqPath, Sort(LeqPath, paths)) && multiset(Sort(LeqPath, paths)) == multiset(paths)
    ensures |Sort(LeqPath, paths)| == |paths|
  {
    forall x: Path, y: Path ensures LeqPath(x, y) || LeqPath(y, x) { LeqPathTotal(x, y); }
    forall x: Path, y: Path, z: Path | LeqPath(x, y) && LeqPath(y, z) ensures LeqPath(x, z) {
      LeqPathTransitive(x, y, z);
    }
    SortSorts(LeqPath, paths);
    SortPermutes(LeqPath, paths);
  }

  method Walk(rules: Rules, root: Entry, maxFiles: int, maxDepth: int)
    returns (found: seq<Path>, truncated: bool, unreadable: seq<string>)
    requires root.Dir?
    ensures found == Sort(LeqPath, Take(DockerfilesIn(Order(rules, [], root, maxDepth)), CapOf(maxFiles)))
    ensures unreadable == Sort(LeqString, Texts(UnlistedIn(Order(rules, [], root, maxDepth))))
    // The cap is never exceeded; the flag is raised exactly when something was too deep or over the cap.
    ensures |found| <= CapOf(maxFiles)
    ensures truncated <==>
            || GoesTooDeep(rules, root, maxDepth)
            || |DockerfilesIn(Order(rules, [], root, maxDepth))| > CapOf(maxFiles)
    // Cut off or not, what is found is there, and nothing is found twice.
    ensures multiset(found) <= multiset(AllDockerfiles(rules, [], root.children))
    ensures WellNamed(root.children) ==> NoneTwice(multiset(found))
    // With the flag down and every directory listed, the result is every Dockerfile there is, sorted.
    ensures !truncated && unreadable == [] ==>
              multiset(found) == multiset(AllDockerfiles(rules, [], root.children)) && Sorted(LeqPath, found)
  {
    var blocked: seq<Path>;
    found, truncated, blocked := Descend(rules, root, maxFiles, maxDepth);
    TooDeepIff(rules, [], root, maxDepth);
    OrderIsReal(rules, [], root, maxDepth);
    TakeIsWithin(DockerfilesIn(Order(rules, [], root, maxDepth)), CapOf(maxFiles));
    if WellNamed(root.children) {
      DockerfilesAreDistinct(rules, [], root.children);
    }
    PathsSort(found);
    SortPermutes(LeqString, Texts(blocked));
    found := Sort(LeqPath, found);
    unreadable := Sort(LeqString, Texts(blocked));
    if !truncated && unreadable == [] {
      OrderIsComplete(rules, [], root, maxDepth);
    }
  }

  /** The descent itself, before the results are sorted. */
  method Descend(rules: Rules, root: Entry, maxFiles: int, maxDepth: int)
    returns (found: seq<Path>, truncated: bool, blocked: seq<Path>)
    requires root.Dir?
    ensures found == Take(DockerfilesIn(Order(rules, [], root, maxDepth)), CapOf(maxFiles))
    ensures blocked == UnlistedIn(Order(rules, [], root, maxDepth))
    ensures truncated <==>
            || MeetsTooDeep(Order(rules, [], root, maxDepth))
            || |DockerfilesIn(Order(rules, [], root, maxDepth))| > CapOf(maxFiles)
  {
    found, truncated, blocked := [], false, [];
    var stack := [Pending([], root, 0)];
    ghost var whole, log := Order(rules, [], root, maxDepth), [];
    ghost var order := whole;
    Pushed(rules, [], Pending([], root, 0), maxDepth);
    assert [] + [Pending([], root, 0)] == stack && whole + [] == whole;
    while stack != []
      invariant AllDirs(stack)
      invariant order == StackOrder(rules, stack, maxDepth)
      invariant log + order == whole
      invariant found == Take(DockerfilesIn(log), CapOf(maxFiles))
      invariant blocked == UnlistedIn(log)
      invariant truncated <==> MeetsTooDeep(log) || |DockerfilesIn(log)| > CapOf(maxFiles)
      decreases StackWeight(stack)
    {
      Popped(stack);
      var top := stack[|stack| - 1];
      var over, listed;
      ghost var met, rest;
      found, over, listed, stack, met, rest :=
        Open(rules, top, maxFiles, maxDepth, found, stack[..|stack| - 1], log);
      Associates(log, met, rest);
      if !listed {
        blocked := blocked + [top.at];
      }
      truncated := truncated || over;
      log, order := log + met, rest;
    }
    assert log + [] == log;
  }

  /** Opens the directory taken from the stack: `met` is what that adds to the log. */
  method Open(rules: Rules, top: Pending, maxFiles: int, maxDepth: int,
    found0: seq<Path>, stack0: seq<Pending>, ghost log: seq<Sighting>)
    returns (found: seq<Path>, over: bool, listed: bool, stack: seq<Pending>,
             ghost met: seq<Sighting>, ghost rest: seq<Sighting>)
    requires AllDirs(stack0) && top.dir.Dir?
    requires found0 == Take(DockerfilesIn(log), CapOf(maxFiles))
    ensures AllDirs(stack) && rest == StackOrder(rules, stack, maxDepth)
    ensures met + rest
         == Order(rules, top.at, top.dir, maxDepth - top.depth) + StackOrder(rules, stack0, maxDepth)
    ensures found == Take(DockerfilesIn(log + met), CapOf(maxFiles))
    ensures UnlistedIn(log + met) == UnlistedIn(log) + if listed then [] else [top.at]
    ensures over || MeetsTooDeep(log) || |DockerfilesIn(log)| > CapOf(maxFiles)
       <==> MeetsTooDeep(log + met) || |DockerfilesIn(log + met)| > CapOf(maxFiles)
    ensures StackWeight(stack) < StackWeight(stack0) + Weight(top.dir)
  {
    found, over, listed, stack := found0, false, true, stack0;
    rest := StackOrder(rules, stack0, maxDepth);
    if top.depth > maxDepth {
      met := [TooDeep(top.at)];
      MetOne(log, met[0]);
      over := true;
    } else if !top.dir.readable {
      met := [Unlisted(top.at)];
      MetOne(log, met[0]);
      listed := false;
    } else {
      found, over, stack, met, rest := List(rules, top, maxFiles, maxDepth, found, stack, log);
      assert UnlistedIn(log) + [] == UnlistedIn(log);
    }
  }

  lemma SortedWeights(rules: Rules, kids: seq<Child>)
    ensures Weights(Sort(LeqName, kids)) == Weights(kids)
  {
    SortPermutes(LeqName, kids);
    ListingOrderIsIrrelevant(rules, [], Sort(LeqName, kids), kids);
  }

  lemma {:induction false} OrderListed(rules: Rules, at: Path, dir: Entry, room: int, rest: seq<Sighting>)
    requires dir.Dir? && dir.readable && room >= 0
    ensures
      var kids := Sort(LeqName, dir.children);
      Order(rules, at, dir, room) + rest == Here(rules, at, kids) + (Below(rules, at, kids, room) + rest)
  {
    var kids := Sort(LeqName, dir.children);
    Associates(Here(rules, at, kids), Below(rules, at, kids, room), rest);
  }

  method List(rules: Rules, top: Pending, maxFiles: int, maxDepth: int,
    found0: seq<Path>, stack0: seq<Pending>, ghost log: seq<Sighting>)
    returns (found: seq<Path>, over: bool, stack: seq<Pending>,
             ghost met: seq<Sighting>, ghost rest: seq<Sighting>)
    requires AllDirs(stack0) && top.dir.Dir? && top.dir.readable && top.depth <= maxDepth
    requires found0 == Take(DockerfilesIn(log), CapOf(maxFiles))
    ensures AllDirs(stack) && rest == StackOrder(rules, stack, maxDepth)
    ensures met + rest
         == Order(rules, top.at, top.dir, maxDepth - top.depth) + StackOrder(rules, stack0, maxDepth)
    ensures found == Take(DockerfilesIn(log + met), CapOf(maxFiles))
    ensures UnlistedIn(log + met) == UnlistedIn(log)
    ensures MeetsTooDeep(log + met) <==> MeetsTooDeep(log)
    ensures over || |DockerfilesIn(log)| > CapOf(maxFiles) <==> |DockerfilesIn(log + met)| > CapOf(maxFiles)
    ensures StackWeight(stack) < StackWeight(stack0) + Weight(top.dir)
  {
    hide StackOrder, Below, Here, DockerfilesIn, UnlistedIn, MeetsTooDeep, StackWeight, Sort;
    var children := Sort(LeqName, top.dir.children);
    SortedWeights(rules, top.dir.children);
    met := Here(rules, top.at, children);
    ghost var below := Below(rules, top.at, children, maxDepth - top.depth);
    ghost var rest0 := StackOrder(rules, stack0, maxDepth);
    MetLevel(rules, log, top.at, children);
    OrderListed(rules, top.at, top.dir, maxDepth - top.depth, rest0);
    found, over, stack := ListChildren(rules, top.at, children, top.depth, maxFiles, maxDepth, found0, stack0, log);
    rest := below + rest0;
  }

  lemma Popped(stack: seq<Pending>)
    requires stack != [] && AllDirs(stack)
    ensures stack[|stack| - 1].dir.Dir? && AllDirs(stack[..|stack| - 1])
  {
    assert stack[|stack| - 1] in stack;
    assert forall p | p in stack[..|stack| - 1] :: p in stack;
  }

  lemma MetOne(log: seq<Sighting>, s: Sighting)
    ensures DockerfilesIn(log + [s]) == DockerfilesIn(log) + if s.Dockerfile? then [s.at] else []
    ensures UnlistedIn(log + [s]) == UnlistedIn(log) + if s.Unlisted? then [s.at] else []
    ensures MeetsTooDeep(log + [s]) <==> MeetsTooDeep(log) || s.TooDeep?
  {
    OneSightingMore(log, s);
    assert forall x | x in log :: x in log + [s];
    assert s in log + [s];
  }

  lemma {:induction false} HereIsPlain(rules: Rules, at: Path, kids: seq<Child>)
    ensures forall s | s in Here(rules, at, kids) :: s.Dockerfile?
    ensures UnlistedIn(Here(rules, at, kids)) == []
  {
    if kids != [] {
      var last, front := kids[|kids| - 1], Here(rules, at, kids[..|kids| - 1]);
      HereIsPlain(rules, at, kids[..|kids| - 1]);
      if Counts(rules, last) {
        assert (front + [Dockerfile(at + [last.name])])[..|front|] == front;
      } else {
        assert front + [] == front;
      }
    }
  }

  lemma MetLevel(rules: Rules, log: seq<Sighting>, at: Path, kids: seq<Child>)
    ensures UnlistedIn(log + Here(rules, at, kids)) == UnlistedIn(log)
    ensures MeetsTooDeep(log + Here(rules, at, kids)) <==> MeetsTooDeep(log)
  {
    HereIsPlain(rules, at, kids);
    DockerfilesAppend(log, Here(rules, at, kids));
    assert UnlistedIn(log) + [] == UnlistedIn(log);
    assert forall s | s in log :: s in log + Here(rules, at, kids);
  }

  /** One listed entry: skip it, push it, or take it when the cap allows. */
  method ListChild(rules: Rules, at: Path, child: Child, depth: nat, maxFiles: int, maxDepth: int,
    found0: seq<Path>, stack0: seq<Pending>, ghost taken0: seq<Path>)
    returns (found: seq<Path>, over: bool, stack: seq<Pending>)
    requires AllDirs(stack0) && depth <= maxDepth
    requires found0 == Take(taken0, CapOf(maxFiles))
    ensures AllDirs(stack)
    ensures
      var taken := taken0 + if Counts(rules, child) then [at + [child.name]] else [];
      && found == Take(taken, CapOf(maxFiles))
      && (over || |taken0| > CapOf(maxFiles) <==> |taken| > CapOf(maxFiles))
    ensures StackOrder(rules, stack, maxDepth)
         == Sub(rules, at, child, maxDepth - depth) + StackOrder(rules, stack0, maxDepth)
    ensures StackWeight(stack) <= StackWeight(stack0) + Weight(child.entry)
  {
    found, over, stack := found0, false, stack0;
    var here := at + [child.name];
    assert taken0 + [] == taken0 && [] + StackOrder(rules, stack0, maxDepth) == StackOrder(rules, stack0, maxDepth);
    if child.entry.Symlink? {
    } else if child.entry.Dir? {
      if child.name !in rules.skipped {
        Pushed(rules, stack, Pending(here, child.entry, depth + 1), maxDepth);
        stack := stack + [Pending(here, child.entry, depth + 1)];
      }
    } else if rules.named(child.name) {
      TakeMore(taken0, here, CapOf(maxFiles));
      if |found| >= maxFiles {
        over := true;
      } else {
        found := found + [here];
      }
    }
  }

  lemma NoChildren(rules: Rules, at: Path, room: nat)
    ensures Here(rules, at, []) == [] && Below(rules, at, [], room) == [] && Weights([]) == 0
  {
  }

  /** One directory's entries in order of name. */
  method ListChildren(rules: Rules, at: Path, children: seq<Child>, depth: nat, maxFiles: int, maxDepth: int,
    found0: seq<Path>, stack0: seq<Pending>, ghost log: seq<Sighting>)
    returns (found: seq<Path>, over: bool, stack: seq<Pending>)
    requires AllDirs(stack0) && depth <= maxDepth
    requires found0 == Take(DockerfilesIn(log), CapOf(maxFiles))
    ensures AllDirs(stack)
    ensures found == Take(DockerfilesIn(log + Here(rules, at, children)), CapOf(maxFiles))
    ensures over || |DockerfilesIn(log)| > CapOf(maxFiles)
       <==> |DockerfilesIn(log + Here(rules, at, children))| > CapOf(maxFiles)
    ensures StackOrder(rules, stack, maxDepth)
         == Below(rules, at, children, maxDepth - depth) + StackOrder(rules, stack0, maxDepth)
    ensures StackWeight(stack) <= StackWeight(stack0) + Weights(children)
  {
    hide Here, Below, Sub, StackOrder, StackWeight, Weights, Weight, DockerfilesIn, Counts, Take, CapOf, AllDirs;
    found, over, stack := found0, false, stack0;
    ghost var room, cap := maxDepth - depth, CapOf(maxFiles);
    ghost var rest := StackOrder(rules, stack0, maxDepth);
    ghost var taken, below, order := DockerfilesIn(log), [], rest;
    ghost var before := |taken|;
    var i := 0;
    assert log + [] == log && [] + rest == rest && children[..0] == [];
    NoChildren(rules, at, room);
    while i < |children|
      invariant 0 <= i <= |children|
      invariant AllDirs(stack)
      invariant taken == DockerfilesIn(log + Here(rules, at, children[..i]))
      invariant below == Below(rules, at, children[..i], room)
      invariant order == StackOrder(rules, stack, maxDepth)
      invariant order == below + rest
      invariant found == Take(taken, cap)
      invariant over || before > cap <==> |taken| > cap
      invariant StackWeight(stack) <= StackWeight(stack0) + Weights(children[..i])
    {
      NextChild(rules, log, at, children, i, room);
      ghost var here := if Counts(rules, children[i]) then [at + [children[i].name]] else [];
      ghost var sub := Sub(rules, at, children[i], room);
      var one;
      found, one, stack := ListChild(rules, at, children[i], depth, maxFiles, maxDepth, found, stack, taken);
      over := over || one;
      Associates(sub, below, rest);
      taken, below, order := taken + here, sub + below, sub + order;
      i := i + 1;
    }
    assert children[..i] == children;
  }

  lemma NextChild(rules: Rules, log: seq<Sighting>, at: Path, kids: seq<Child>, i: nat, room: nat)
    requires i < |kids|
    ensures DockerfilesIn(log + Here(rules, at, kids[..i + 1]))
         == DockerfilesIn(log + Here(rules, at, kids[..i]))
          + (if Counts(rules, kids[i]) then [at + [kids[i].name]] else [])
    ensures Below(rules, at, kids[..i + 1], room)
         == Sub(rules, at, kids[i], room) + Below(rules, at, kids[..i], room)
    ensures Weights(kids[..i + 1]) == Weights(kids[..i]) + Weight(kids[i].entry)
  {
    var front, more := kids[..i], kids[..i + 1];
    assert more[..i] == front && more[i] == kids[i] && |more| == i + 1 && more == front + [kids[i]];
    WeightsAppend(front, kids[i]);
    NextHere(rules, log, at, more);
  }

  lemma NextHere(rules: Rules, log: seq<Sighting>, at: Path, kids: seq<Child>)
    requires kids != []
    ensures
      var last := kids[|kids| - 1];
      DockerfilesIn(log + Here(rules, at, kids))
      == DockerfilesIn(log + Here(rules, at, kids[..|kids| - 1]))
       + (if Counts(rules, last) then [at + [last.name]] else [])
  {
    hide Here, Counts, DockerfilesIn;
    HereLast(rules, at, kids);
    DockerfilesAppend(log, Here(rules, at, kids[..|kids| - 1]));
    DockerfilesAppend(log, Here(rules, at, kids));
  }

  lemma {:induction false} WeightsAppend(kids: seq<Child>, child: Child)
    ensures Weights(kids + [child]) == Weights(kids) + Weight(child.entry)
  {
    if kids != [] {
      WeightsAppend(kids[1..], child);
      assert (kids + [child])[1..] == kids[1..] + [child];
    }
  }
}
