/** The build context's digest: a pruned walk, a sort, and a framed byte stream. */
module ContextDigest {
  import opened Options
  import opened Sequences
  import opened Text
  import opened GlobMatch
  import opened FileTree
  import opened Sorting

  const MAX_CONTEXT_FILES: nat := 50_000
  /** `sha256:` and 64 hexadecimal digits. */
  const DIGEST_WIDTH: nat := 71

  datatype FileRef = FileRef(parts: seq<string>, digest: string)

  // ---- the reference: walk everything, then filter ----------------------------------------------------

  /** Every regular file below `at`, nothing pruned. */
  function AllFiles(at: seq<string>, kids: seq<Child>): seq<FileRef>
    decreases kids
  {
    if kids == [] then []
    else FilesOf(at + [kids[0].name], kids[0].entry) + AllFiles(at, kids[1..])
  }

  function FilesOf(at: seq<string>, e: Entry): seq<FileRef>
    decreases e
  {
    match e
    case File(digest) => [FileRef(at, digest)]
    case Dir(readable, children) => if readable then AllFiles(at, children) else []
    case _ => []
  }

  function Unignored(member: ClassRule, patterns: seq<string>, files: seq<FileRef>): seq<FileRef> {
    if files == [] then []
    else
      var rest := Unignored(member, patterns, files[1..]);
      if IsIgnored(member, Relative(files[0].parts), patterns) then rest else [files[0]] + rest
  }

  function Kept(member: ClassRule, patterns: seq<string>, root: seq<Child>): seq<FileRef> {
    Unignored(member, patterns, AllFiles([], root))
  }

  lemma {:induction false} UnignoredAppend(
    member: ClassRule, patterns: seq<string>, a: seq<FileRef>, b: seq<FileRef>)
    ensures Unignored(member, patterns, a + b)
         == Unignored(member, patterns, a) + Unignored(member, patterns, b)
  {
    if a == [] {
      assert a + b == b;
    } else {
      hide IsIgnored;
      UnignoredAppend(member, patterns, a[1..], b);
      assert (a + b)[1..] == a[1..] + b;
      Associates([a[0]], Unignored(member, patterns, a[1..]), Unignored(member, patterns, b));
    }
  }

  lemma {:induction false} UnignoredMembers(
    member: ClassRule, patterns: seq<string>, files: seq<FileRef>, f: FileRef)
    ensures f in Unignored(member, patterns, files)
       <==> f in files && !IsIgnored(member, Relative(f.parts), patterns)
  {
    if files != [] {
      UnignoredMembers(member, patterns, files[1..], f);
    }
  }

  lemma {:induction false} RelativeBelow(at: seq<string>, name: string)
    requires at != []
    ensures Relative(at + [name]) == Relative(at) + "/" + name
  {
    if |at| == 1 {
      assert (at + [name])[1..] == [name];
      assert Relative(at + [name]) == at[0] + ['/'] + Relative([name]);
    } else {
      RelativeBelow(at[1..], name);
      assert (at + [name])[1..] == at[1..] + [name];
      assert at[0] + ['/'] + (Relative(at[1..]) + "/" + name) == at[0] + ['/'] + Relative(at[1..]) + "/" + name;
    }
  }

  /** Below an ignored directory the reference keeps nothing. */
  lemma {:induction false} NothingKeptBelow(
    member: ClassRule, patterns: seq<string>, at: seq<string>, kids: seq<Child>)
    requires at != [] && IsIgnored(member, Relative(at), patterns)
    ensures Unignored(member, patterns, AllFiles(at, kids)) == []
    decreases kids
  {
    if kids != [] {
      var here := at + [kids[0].name];
      RelativeBelow(at, kids[0].name);
      IgnoredBelow(member, Relative(at), patterns, kids[0].name);
      if kids[0].entry.Dir? {
        NothingKeptBelow(member, patterns, here, kids[0].entry.children);
      }
      NothingKeptBelow(member, patterns, at, kids[1..]);
      UnignoredAppend(member, patterns, FilesOf(here, kids[0].entry), AllFiles(at, kids[1..]));
    }
  }

  // ---- the pruned walk --------------------------------------------------------------------------------

  datatype Pending = Pending(at: seq<string>, dir: Entry)

  function StackKept(member: ClassRule, patterns: seq<string>, stack: seq<Pending>): multiset<FileRef> {
    if stack == [] then multiset{}
    else
      var top := stack[|stack| - 1];
      StackKept(member, patterns, stack[..|stack| - 1])
      + multiset(Unignored(member, patterns, FilesOf(top.at, top.dir)))
  }

  function StackWeight(stack: seq<Pending>): nat {
    if stack == [] then 0
    else StackWeight(stack[..|stack| - 1]) + Weight(stack[|stack| - 1].dir)
  }

  lemma Popped(member: ClassRule, patterns: seq<string>, stack: seq<Pending>)
    requires stack != [] && stack[|stack| - 1].dir.Dir?
    ensures
      var front, top := stack[..|stack| - 1], stack[|stack| - 1];
      && StackKept(member, patterns, stack)
      == StackKept(member, patterns, front)
       + (if top.dir.readable then KeptFrom(member, patterns, top.at, top.dir.children) else multiset{})
      && StackWeight(stack) == StackWeight(front) + 1 + Weights(top.dir.children)
  {
  }

  lemma NothingStacked(member: ClassRule, patterns: seq<string>)
    ensures StackKept(member, patterns, []) == multiset{}
  {
  }

  method Walk(member: ClassRule, patterns: seq<string>, root: seq<Child>) returns (files: seq<FileRef>)
    requires WellNamed(root)
    ensures files == Sort(LeqRef, Kept(member, patterns, root))
    ensures forall f: FileRef :: f in files <==> KeptAt(member, patterns, root, f.parts) == Some(f.digest)
    ensures forall i, j | 0 <= i < j < |files| :: LeqPath(files[i].parts, files[j].parts)
  {
    hide StackKept, StackWeight, Kept, KeptFrom, KeptAt;
    files := [];
    var stack := [Pending([], Dir(true, root))];
    RootIsAllKept(member, patterns, root);
    while stack != []
      invariant forall p | p in stack :: p.dir.Dir?
      invariant multiset(files) + StackKept(member, patterns, stack)
             == multiset(Kept(member, patterns, root))
      decreases StackWeight(stack)
    {
      var top := stack[|stack| - 1];
      assert top in stack;
      Popped(member, patterns, stack);
      stack := stack[..|stack| - 1];
      if !top.dir.readable {
        continue;
      }
      files, stack := WalkChildren(member, patterns, top.at, top.dir.children, files, stack);
    }
    NothingStacked(member, patterns);
    SortOfKept(member, patterns, root, files);
    KeptIsKeptAt(member, patterns, root);
    SortPermutes(LeqRef, files);
    LeqRefIsTotal();
    SortSorts(LeqRef, files);
    SameMembers(Sort(LeqRef, files), Kept(member, patterns, root));
    files := Sort(LeqRef, files);
  }

  lemma {:induction false} RootIsAllKept(member: ClassRule, patterns: seq<string>, root: seq<Child>)
    ensures StackKept(member, patterns, [Pending([], Dir(true, root))])
         == multiset(Kept(member, patterns, root))
  {
    var stack := [Pending([], Dir(true, root))];
    assert stack[..0] == [];
    assert StackKept(member, patterns, stack[..0]) == multiset{};
  }

  lemma SortOfKept(member: ClassRule, patterns: seq<string>, root: seq<Child>, found: seq<FileRef>)
    requires WellNamed(root) && multiset(found) == multiset(Kept(member, patterns, root))
    ensures Sort(LeqRef, found) == Sort(LeqRef, Kept(member, patterns, root))
  {
    var kept := Kept(member, patterns, root);
    KeptIsKeptAt(member, patterns, root);
    LeqRefIsTotal();
    SortDependsOnContents(LeqRef, kept, found);
  }

  /** What the reference keeps from one child on. */
  function KeptFrom(member: ClassRule, patterns: seq<string>, at: seq<string>, kids: seq<Child>): multiset<FileRef> {
    multiset(Unignored(member, patterns, AllFiles(at, kids)))
  }

  function KeptOf(member: ClassRule, patterns: seq<string>, at: seq<string>, e: Entry): multiset<FileRef> {
    multiset(Unignored(member, patterns, FilesOf(at, e)))
  }

  lemma KeptFromNext(member: ClassRule, patterns: seq<string>, at: seq<string>, kids: seq<Child>, i: nat)
    requires i < |kids|
    ensures KeptFrom(member, patterns, at, kids[i..])
         == KeptOf(member, patterns, at + [kids[i].name], kids[i].entry)
          + KeptFrom(member, patterns, at, kids[i + 1..])
    ensures Weights(kids[i..]) == Weight(kids[i].entry) + Weights(kids[i + 1..])
  {
    assert kids[i..][0] == kids[i] && kids[i..][1..] == kids[i + 1..];
    UnignoredAppend(member, patterns,
                    FilesOf(at + [kids[i].name], kids[i].entry), AllFiles(at, kids[i + 1..]));
  }

  lemma KeptOfFile(member: ClassRule, patterns: seq<string>, f: FileRef)
    ensures KeptOf(member, patterns, f.parts, File(f.digest))
         == if IsIgnored(member, Relative(f.parts), patterns) then multiset{} else multiset{f}
  {
    assert Unignored(member, patterns, [f][1..]) == [];
  }

  lemma KeptOfPruned(member: ClassRule, patterns: seq<string>, at: seq<string>, e: Entry)
    requires at != [] && e.Dir? && IsIgnored(member, Relative(at), patterns)
    ensures KeptOf(member, patterns, at, e) == multiset{}
  {
    NothingKeptBelow(member, patterns, at, e.children);
  }

  lemma Pushed(member: ClassRule, patterns: seq<string>, stack: seq<Pending>, p: Pending)
    ensures StackKept(member, patterns, stack + [p])
         == StackKept(member, patterns, stack) + KeptOf(member, patterns, p.at, p.dir)
    ensures StackWeight(stack + [p]) == StackWeight(stack) + Weight(p.dir)
  {
    assert (stack + [p])[..|stack|] == stack;
  }

  lemma NothingToKeep(member: ClassRule, patterns: seq<string>, at: seq<string>, e: Entry)
    requires e.Symlink? || e.Other?
    ensures KeptOf(member, patterns, at, e) == multiset{}
    ensures KeptFrom(member, patterns, at, []) == multiset{}
  {
  }

  lemma Filed(files: seq<FileRef>, f: FileRef)
    ensures multiset(files + [f]) == multiset(files) + multiset{f}
  {
  }

  lemma Balance(soFar: multiset<FileRef>, pending: multiset<FileRef>, mine: multiset<FileRef>,
                later: multiset<FileRef>, filed: multiset<FileRef>, pushed: multiset<FileRef>)
    requires mine == filed + pushed
    ensures (soFar + filed) + (pending + pushed) + later == soFar + pending + (mine + later)
  {
  }

  method WalkChildren(member: ClassRule, patterns: seq<string>, at: seq<string>, children: seq<Child>,
    files0: seq<FileRef>, stack0: seq<Pending>)
    returns (files: seq<FileRef>, stack: seq<Pending>)
    requires forall p | p in stack0 :: p.dir.Dir?
    ensures forall p | p in stack :: p.dir.Dir?
    ensures multiset(files) + StackKept(member, patterns, stack)
         == multiset(files0) + StackKept(member, patterns, stack0) + KeptFrom(member, patterns, at, children)
    ensures StackWeight(stack) <= StackWeight(stack0) + Weights(children)
  {
    hide StackKept, KeptOf, KeptFrom, IsIgnored, Relative, StackWeight;
    files, stack := files0, stack0;
    ghost var whole := multiset(files) + StackKept(member, patterns, stack) + KeptFrom(member, patterns, at, children);
    ghost var limit := StackWeight(stack0) + Weights(children);
    var i := 0;
    assert children[0..] == children;
    while i < |children|
      invariant 0 <= i <= |children|
      invariant forall p | p in stack :: p.dir.Dir?
      invariant multiset(files) + StackKept(member, patterns, stack)
              + KeptFrom(member, patterns, at, children[i..]) == whole
      invariant StackWeight(stack) + Weights(children[i..]) <= limit
    {
      var child := children[i];
      var here := at + [child.name];
      KeptFromNext(member, patterns, at, children, i);
      ghost var mine := KeptOf(member, patterns, here, child.entry);
      ghost var later := KeptFrom(member, patterns, at, children[i + 1..]);
      ghost var soFar, pending := multiset(files), StackKept(member, patterns, stack);
      ghost var filed, pushed := multiset{}, multiset{};
      match child.entry {
        case Symlink =>
          NothingToKeep(member, patterns, here, child.entry);
        case Dir(_, _) =>
          if !IsIgnored(member, Relative(here), patterns) {
            Pushed(member, patterns, stack, Pending(here, child.entry));
            stack, pushed := stack + [Pending(here, child.entry)], mine;
          } else {
            KeptOfPruned(member, patterns, here, child.entry);
          }
        case File(digest) =>
          KeptOfFile(member, patterns, FileRef(here, digest));
          if !IsIgnored(member, Relative(here), patterns) {
            Filed(files, FileRef(here, digest));
            files, filed := files + [FileRef(here, digest)], mine;
          }
        case Other =>
          NothingToKeep(member, patterns, here, child.entry);
      }
      Balance(soFar, pending, mine, later, filed, pushed);
      i := i + 1;
    }
    assert children[i..] == [];
    NothingToKeep(member, patterns, at, Symlink);
  }

  // ---- paths are distinct, and say where the file is --------------------------------------------------

  ghost predicate Distinct(files: seq<FileRef>) {
    forall i, j | 0 <= i < j < |files| :: files[i].parts != files[j].parts
  }

  /** The reference walk lists exactly the files the tree holds, each under its own path. */
  lemma {:induction false} AllFilesAreThere(at: seq<string>, kids: seq<Child>, f: FileRef)
    requires WellNamed(kids)
    ensures f in AllFiles(at, kids)
       <==> at <= f.parts && FileAt(kids, f.parts[|at|..]) == Some(f.digest)
    decreases kids
  {
    if kids != [] {
      WellNamedTail(kids);
      AllFilesAreThere(at, kids[1..], f);
      var here := at + [kids[0].name];
      if at <= f.parts && |f.parts| > |at| {
        var rest := f.parts[|at|..];
        assert here <= f.parts <==> rest[0] == kids[0].name;
        assert rest[1..] == f.parts[|here|..];
        assert rest == [rest[0]] + rest[1..];
        assert |rest| == 1 && rest[0] == kids[0].name ==> f.parts == here;
        if rest[0] == kids[0].name {
          NoSuchName(kids[1..], rest);
        }
      } else {
        assert !(here <= f.parts);
      }
      if kids[0].entry.Dir? {
        assert kids[0] in kids;
        AllFilesAreThere(here, kids[0].entry.children, f);
      }
    }
  }

  lemma {:induction false} NoSuchName(kids: seq<Child>, parts: seq<string>)
    requires parts != [] && forall k | k in kids :: k.name != parts[0]
    ensures FileAt(kids, parts) == None
  {
    if kids != [] {
      NoSuchName(kids[1..], parts);
    }
  }

  lemma {:induction false} AllFilesAreDistinct(at: seq<string>, kids: seq<Child>)
    requires WellNamed(kids)
    ensures Distinct(AllFiles(at, kids))
    decreases kids
  {
    if kids != [] {
      WellNamedTail(kids);
      AllFilesAreDistinct(at, kids[1..]);
      var here := at + [kids[0].name];
      var first, rest := FilesOf(here, kids[0].entry), AllFiles(at, kids[1..]);
      assert kids[0] in kids;
      if kids[0].entry.Dir? {
        AllFilesAreDistinct(here, kids[0].entry.children);
      }
      forall f, r | f in first && r in rest
        ensures f.parts != r.parts
      {
        if kids[0].entry.Dir? {
          AllFilesAreThere(here, kids[0].entry.children, f);
        }
        assert here <= f.parts;
        AllFilesAreThere(at, kids[1..], r);
        if f.parts == r.parts {
          NoSuchName(kids[1..], r.parts[|at|..]);
        }
      }
    }
  }

  lemma {:induction false} UnignoredIsDistinct(
    member: ClassRule, patterns: seq<string>, files: seq<FileRef>)
    requires Distinct(files)
    ensures Distinct(Unignored(member, patterns, files))
  {
    if files != [] {
      UnignoredIsDistinct(member, patterns, files[1..]);
      var rest := Unignored(member, patterns, files[1..]);
      forall k | 0 <= k < |rest|
        ensures rest[k].parts != files[0].parts
      {
        UnignoredMembers(member, patterns, files[1..], rest[k]);
      }
    }
  }

  /** What the context holds at a path once the ignore rules are applied. */
  function KeptAt(member: ClassRule, patterns: seq<string>, root: seq<Child>, parts: seq<string>): Option<string> {
    if Excluded(member, patterns, parts) then None else FileAt(root, parts)
  }

  lemma {:induction false} FileIsAtRelativePath(kids: seq<Child>, parts: seq<string>)
    requires WellNamed(kids) && FileAt(kids, parts).Some?
    ensures IsRelative(parts)
    decreases kids
  {
    assert kids[0] in kids && parts == [parts[0]] + parts[1..];
    if kids[0].name != parts[0] {
      WellNamedTail(kids);
      FileIsAtRelativePath(kids[1..], parts);
    } else if kids[0].entry.Dir? {
      FileIsAtRelativePath(kids[0].entry.children, parts[1..]);
    }
  }

  lemma KeptIsKeptAt(member: ClassRule, patterns: seq<string>, root: seq<Child>)
    requires WellNamed(root)
    ensures Distinct(Kept(member, patterns, root))
    ensures forall f: FileRef ::
              f in Kept(member, patterns, root) <==> KeptAt(member, patterns, root, f.parts) == Some(f.digest)
  {
    AllFilesAreDistinct([], root);
    UnignoredIsDistinct(member, patterns, AllFiles([], root));
    forall f: FileRef
      ensures f in Kept(member, patterns, root) <==> KeptAt(member, patterns, root, f.parts) == Some(f.digest)
    {
      hide IsIgnored, Excluded, FileAt, AllFiles;
      AllFilesAreThere([], root, f);
      UnignoredMembers(member, patterns, AllFiles([], root), f);
      if FileAt(root, f.parts).Some? {
        FileIsAtRelativePath(root, f.parts);
        IgnoredIff(member, patterns, f.parts);
      }
    }
  }

  /** Without wildcards: what is kept is what the tree holds and no pattern names. */
  lemma PlainPatternsKeep(member: ClassRule, patterns: seq<string>, root: seq<Child>, f: FileRef)
    requires WellNamed(root) && forall p | p in patterns :: IsPlain(p)
    ensures f in Kept(member, patterns, root) <==>
            && FileAt(root, f.parts) == Some(f.digest)
            && IsRelative(f.parts)
            && forall p | p in patterns :: !NamedBy(p, f.parts)
  {
    KeptIsKeptAt(member, patterns, root);
    if FileAt(root, f.parts).Some? {
      FileIsAtRelativePath(root, f.parts);
      IgnoredIff(member, patterns, f.parts);
      forall p | p in patterns
        ensures Covers(member, p, Relative(f.parts)) <==> NamedBy(p, f.parts)
      {
        PlainCoversIff(member, p, f.parts);
      }
    }
  }

  // ---- the order of files -----------------------------------------------------------------------------

  predicate LeqRef(a: FileRef, b: FileRef) {
    LeqPath(a.parts, b.parts)
  }

  lemma LeqRefIsTotal()
    ensures TotalPreorder(LeqRef)
    ensures forall s: seq<FileRef> | Distinct(s) :: AntisymmetricOn(LeqRef, s)
  {
    forall x: FileRef, y: FileRef
      ensures LeqRef(x, y) || LeqRef(y, x)
      ensures LeqRef(x, y) && LeqRef(y, x) ==> x.parts == y.parts
    {
      LeqPathTotal(x.parts, y.parts);
    }
    forall x: FileRef, y: FileRef, z: FileRef | LeqRef(x, y) && LeqRef(y, z)
      ensures LeqRef(x, z)
    {
      LeqPathTransitive(x.parts, y.parts, z.parts);
    }
  }

  // ---- the stream -------------------------------------------------------------------------------------

  /** What one file contributes: its path, NUL, its digest, newline. */
  function Frame(f: FileRef): string {
    Relative(f.parts) + ['\0'] + f.digest + ['\n']
  }

  /** A frame as it is read: the path, a NUL, the digest, and a newline at the end. */
  lemma FrameLayout(f: FileRef)
    ensures Frame(f)[..|Relative(f.parts)|] == Relative(f.parts)
    ensures Frame(f)[|Relative(f.parts)|] == '\0' && Frame(f)[|Frame(f)| - 1] == '\n'
    ensures Frame(f)[|Relative(f.parts)| + 1..|Frame(f)| - 1] == f.digest
  {
  }

  function Stream(files: seq<FileRef>): string {
    if files == [] then [] else Frame(files[0]) + Stream(files[1..])
  }

  ghost predicate Framable(f: FileRef) {
    && f.parts != []
    && |f.digest| == DIGEST_WIDTH
    && forall p | p in f.parts :: '/' !in p && '\0' !in p
  }

  lemma {:induction false} RelativeHasNoNul(parts: seq<string>)
    requires forall p | p in parts :: '\0' !in p
    ensures '\0' !in Relative(parts)
  {
    if |parts| > 1 {
      RelativeHasNoNul(parts[1..]);
    }
  }

  lemma FrameIsInjective(f: FileRef, s: string, g: FileRef, t: string)
    requires Framable(f) && Framable(g) && Frame(f) + s == Frame(g) + t
    ensures f == g && s == t
  {
    RelativeHasNoNul(f.parts);
    RelativeHasNoNul(g.parts);
    var x, y := f.digest + ['\n'] + s, g.digest + ['\n'] + t;
    assert Relative(f.parts) + ['\0'] + x == Frame(f) + s;
    assert Relative(g.parts) + ['\0'] + y == Frame(g) + t;
    FirstSeparator(Relative(f.parts), x, Relative(g.parts), y, '\0');
    assert f.digest == x[..DIGEST_WIDTH] && g.digest == y[..DIGEST_WIDTH];
    assert s == x[DIGEST_WIDTH + 1..] && t == y[DIGEST_WIDTH + 1..];
    SplitOfJoin(f.parts, '/');
    SplitOfJoin(g.parts, '/');
  }

  /** Two lists of files with the same stream are the same list. */
  lemma {:induction false} StreamIsInjective(a: seq<FileRef>, b: seq<FileRef>)
    requires forall f | f in a :: Framable(f)
    requires forall f | f in b :: Framable(f)
    requires Stream(a) == Stream(b)
    ensures a == b
  {
    if a == [] || b == [] {
      assert a == [] ==> |Stream(b)| == 0;
    } else {
      FrameIsInjective(a[0], Stream(a[1..]), b[0], Stream(b[1..]));
      StreamIsInjective(a[1..], b[1..]);
      assert a == [a[0]] + a[1..] && b == [b[0]] + b[1..];
    }
  }

  // ---- the digest -------------------------------------------------------------------------------------

  /** All that is hashed. */
  function ContextStream(member: ClassRule, patterns: seq<string>, root: seq<Child>): string {
    Stream(Sort(LeqRef, Kept(member, patterns, root)))
  }

  datatype Result<T> = Ok(value: T) | TooManyFiles

  /** Feeds the files to the hash one at a time and counts them; refuses an oversized context. */
  method HashContext(member: ClassRule, patterns: seq<string>, root: seq<Child>)
    returns (r: Result<(string, nat)>)
    requires WellNamed(root)
    ensures r.TooManyFiles? <==> |Kept(member, patterns, root)| > MAX_CONTEXT_FILES
    ensures r.Ok? ==> r.value == (ContextStream(member, patterns, root), |Kept(member, patterns, root)|)
  {
    var files := Walk(member, patterns, root);
    SortPermutes(LeqRef, Kept(member, patterns, root));
    r := Feed(files);
  }

  lemma {:induction false} StreamFrom(files: seq<FileRef>, i: nat, fed: string)
    requires i < |files|
    ensures fed + Stream(files[i..]) == (fed + Frame(files[i])) + Stream(files[i + 1..])
  {
    hide Frame;
    assert files[i..][0] == files[i] && files[i..][1..] == files[i + 1..];
    Associates(fed, Frame(files[i]), Stream(files[i + 1..]));
  }

  lemma NothingToFeed(fed: string)
    ensures fed + Stream([]) == fed
  {
  }

  method Feed(files: seq<FileRef>) returns (r: Result<(string, nat)>)
    ensures r == if |files| > MAX_CONTEXT_FILES then TooManyFiles else Ok((Stream(files), |files|))
  {
    hide Stream, Frame;
    var fed, counted := [], 0;
    assert files[0..] == files;
    while counted < |files|
      invariant counted <= |files| && counted <= MAX_CONTEXT_FILES
      invariant fed + Stream(files[counted..]) == Stream(files)
    {
      var f := files[counted];
      StreamFrom(files, counted, fed);
      counted := counted + 1;
      if counted > MAX_CONTEXT_FILES {
        return TooManyFiles;
      }
      fed := fed + Frame(f);
    }
    assert files[counted..] == [];
    NothingToFeed(fed);
    return Ok((fed, counted));
  }

  ghost predicate FixedWidth(kids: seq<Child>)
    decreases kids
  {
    forall k | k in kids ::
      match k.entry
      case File(digest) => |digest| == DIGEST_WIDTH
      case Dir(_, children) => FixedWidth(children)
      case _ => true
  }

  lemma {:induction false} FilesAreFramable(at: seq<string>, kids: seq<Child>, f: FileRef)
    requires WellNamed(kids) && FixedWidth(kids) && f in AllFiles(at, kids)
    requires forall p | p in at :: '/' !in p && '\0' !in p
    ensures Framable(f)
    decreases kids
  {
    var here := at + [kids[0].name];
    assert kids[0] in kids;
    if f in FilesOf(here, kids[0].entry) {
      if kids[0].entry.Dir? {
        FilesAreFramable(here, kids[0].entry.children, f);
      }
    } else {
      WellNamedTail(kids);
      assert forall k | k in kids[1..] :: k in kids;
      FilesAreFramable(at, kids[1..], f);
    }
  }

  lemma SortedAreFramable(member: ClassRule, patterns: seq<string>, root: seq<Child>)
    requires WellNamed(root) && FixedWidth(root)
    ensures forall f | f in Sort(LeqRef, Kept(member, patterns, root)) :: Framable(f)
  {
    SortPermutes(LeqRef, Kept(member, patterns, root));
    forall f | f in Sort(LeqRef, Kept(member, patterns, root))
      ensures Framable(f)
    {
      assert f in multiset(Kept(member, patterns, root));
      UnignoredMembers(member, patterns, AllFiles([], root), f);
      FilesAreFramable([], root, f);
    }
  }

  lemma {:induction false} SameMembersSameContents(a: seq<FileRef>, b: seq<FileRef>)
    requires Distinct(a) && Distinct(b) && forall f: FileRef :: f in a <==> f in b
    ensures multiset(a) == multiset(b)
  {
    forall f: FileRef
      ensures multiset(a)[f] == multiset(b)[f]
    {
      CountOfDistinct(a, f);
      CountOfDistinct(b, f);
    }
  }

  lemma {:induction false} CountOfDistinct(a: seq<FileRef>, f: FileRef)
    requires Distinct(a)
    ensures multiset(a)[f] == if f in a then 1 else 0
  {
    if a != [] {
      assert a == [a[0]] + a[1..];
      CountOfDistinct(a[1..], f);
    }
  }

  /** The stream depends on which file is kept at which path and on nothing else, and it determines
      that: two contexts hash the same bytes exactly when they agree at every path.  In particular
      neither listing order nor anything inside an ignored directory can change it. */
  lemma StreamIdentifiesContext(member: ClassRule,
    patterns1: seq<string>, root1: seq<Child>, patterns2: seq<string>, root2: seq<Child>)
    requires WellNamed(root1) && FixedWidth(root1) && WellNamed(root2) && FixedWidth(root2)
    ensures ContextStream(member, patterns1, root1) == ContextStream(member, patterns2, root2)
       <==> forall parts: seq<string> ::
              KeptAt(member, patterns1, root1, parts) == KeptAt(member, patterns2, root2, parts)
  {
    var kept1, kept2 := Kept(member, patterns1, root1), Kept(member, patterns2, root2);
    KeptIsKeptAt(member, patterns1, root1);
    KeptIsKeptAt(member, patterns2, root2);
    if ContextStream(member, patterns1, root1) == ContextStream(member, patterns2, root2) {
      SortedAreFramable(member, patterns1, root1);
      SortedAreFramable(member, patterns2, root2);
      StreamIsInjective(Sort(LeqRef, kept1), Sort(LeqRef, kept2));
      SortPermutes(LeqRef, kept1);
      SortPermutes(LeqRef, kept2);
      forall parts: seq<string>
        ensures KeptAt(member, patterns1, root1, parts) == KeptAt(member, patterns2, root2, parts)
      {
        if KeptAt(member, patterns1, root1, parts).Some? {
          SameAnswer(member, patterns1, root1, patterns2, root2, parts);
        } else if KeptAt(member, patterns2, root2, parts).Some? {
          SameAnswer(member, patterns2, root2, patterns1, root1, parts);
        }
      }
    }
    if forall parts: seq<string> ::
      KeptAt(member, patterns1, root1, parts) == KeptAt(member, patterns2, root2, parts)
    {
      SameMembersSameContents(kept1, kept2);
      LeqRefIsTotal();
      SortDependsOnContents(LeqRef, kept1, kept2);
    }
  }

  lemma SameAnswer(member: ClassRule, patterns1: seq<string>, root1: seq<Child>,
    patterns2: seq<string>, root2: seq<Child>, parts: seq<string>)
    requires WellNamed(root1) && WellNamed(root2)
    requires multiset(Kept(member, patterns1, root1)) == multiset(Kept(member, patterns2, root2))
    requires KeptAt(member, patterns1, root1, parts).Some?
    ensures KeptAt(member, patterns2, root2, parts) == KeptAt(member, patterns1, root1, parts)
  {
    KeptIsKeptAt(member, patterns1, root1);
    KeptIsKeptAt(member, patterns2, root2);
    var f := FileRef(parts, KeptAt(member, patterns1, root1, parts).value);
    assert f in multiset(Kept(member, patterns1, root1));
    assert f in Kept(member, patterns2, root2);
  }
}
