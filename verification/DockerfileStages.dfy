/** Build stages: which USER and which base image the final stage ends up with.

    A stage may start from an earlier one by its alias.  The parser follows aliases through one table of
    the whole file; a build resolves each `FROM` against the stages above it.  The two agree exactly
    when no stage on the way names its own alias or one declared further down. */
module DockerfileStages {
  import opened BoundedNumbers
  import L = LineJoining
  import opened Options
  import opened Sequences
  import opened Text

  datatype Stage = Stage(base: string, alias: Option<string>, user: Option<string>, uid: Option<nat>)

  // ---- collecting the stages --------------------------------------------------------------------------

  datatype Directive =
    | From(base: string, alias: Option<string>)
    | User(operand: string)
    | Other

  /** `name[:group]`, cut at the first colon. */
  function UserName(operand: string): string {
    Split(operand, ':')[0]
  }

  function UserGroup(operand: string): string {
    var name := UserName(operand);
    if |name| >= |operand| then "" else operand[|name| + 1..]
  }

  /** A group of digits is read as a number. */
  predicate HasUid(t: DigitTable, operand: string) {
    UserGroup(operand) != "" && AllDigits(t, UserGroup(operand))
  }

  function ReadUid(t: DigitTable, operand: string): Reading
    requires IsUnicode(t) && HasUid(t, operand)
  {
    UidIsShort();
    BoundedInt(t, UserGroup(operand), MAX_UID)
  }

  function UserId(t: DigitTable, operand: string): Option<nat>
    requires IsUnicode(t)
  {
    if HasUid(t, operand) && ReadUid(t, operand).Number? then Some(ReadUid(t, operand).n) else None
  }

  /** Reading this operand raises an error that nobody catches. */
  predicate Refuses(t: DigitTable, operand: string)
    requires IsUnicode(t)
  {
    HasUid(t, operand) && ReadUid(t, operand).Refused?
  }

  lemma UidIsShort()
    ensures |Decimal(MAX_UID)| <= INT_DIGITS
  {
    assert Pow10(5) == 100_000;
    assert Pow10(10) == 10_000_000_000;
    DecimalIsShort(MAX_UID, 10);
  }

  lemma OperandParts(name: string, group: string)
    requires ':' !in name
    ensures UserName(name + [':'] + group) == name && UserGroup(name + [':'] + group) == group
  {
    SplitAppend(name, group, ':');
    SplitWithout(name, ':');
  }

  /** An operand without a colon is the name and nothing else. */
  lemma PlainUserIsRead(t: DigitTable, name: string)
    requires IsUnicode(t) && ':' !in name
    ensures UserName(name) == name && UserId(t, name) == None && !Refuses(t, name)
  {
    SplitWithout(name, ':');
  }

  /** A group is read as a uid exactly when it is all decimal digits, spells a number within bounds and is
      no longer than the bound once its ASCII zeros are dropped; it is refused exactly when it is as
      short, all digits, and not all decimal. */
  lemma UserIsRead(t: DigitTable, name: string, group: string)
    requires IsUnicode(t) && ':' !in name
    ensures UserName(name + [':'] + group) == name
    ensures
      var short := group != "" && |Normalized(group)| <= |Decimal(MAX_UID)|;
      && (Refuses(t, name + [':'] + group) <==> short && AllDigits(t, group) && !AllDecimal(t, group))
      && UserId(t, name + [':'] + group)
         == if short && AllDecimal(t, group) && Value(t, group) <= MAX_UID then Some(Value(t, group)) else None
  {
    hide UserName, UserGroup, Normalized, Value, Decimal;
    OperandParts(name, group);
    DecimalsAreDigits(t, group);
  }

  lemma DecimalsAreDigits(t: DigitTable, s: string)
    requires IsUnicode(t)
    ensures AllDecimal(t, s) ==> AllDigits(t, s)
  {
  }

  /** A file can hold such an operand: `USER app:` and a superscript two. */
  lemma SuperscriptIsRefused(t: DigitTable)
    requires IsUnicode(t)
    ensures Refuses(t, "app" + [':'] + [SUPERSCRIPT_TWO])
  {
    var group := [SUPERSCRIPT_TWO];
    assert StripZeros(group) == group;
    assert SUPERSCRIPT_TWO in group;
    UserIsRead(t, "app", group);
  }

  /** One directive after another; a `USER` before the first `FROM` is dropped. */
  function Collect(t: DigitTable, stages: seq<Stage>, d: Directive): seq<Stage>
    requires IsUnicode(t)
  {
    match d
    case From(base, alias) => stages + [Stage(base, alias, None, None)]
    case User(operand) =>
      if stages == [] then stages
      else
        var last := stages[|stages| - 1];
        stages[|stages| - 1 := last.(user := Some(UserName(operand)), uid := UserId(t, operand))]
    case Other => stages
  }

  function StagesOf(t: DigitTable, directives: seq<Directive>): seq<Stage>
    requires IsUnicode(t)
  {
    if directives == [] then []
    else Collect(t, StagesOf(t, directives[..|directives| - 1]), directives[|directives| - 1])
  }

  lemma {:induction false} NoStageWithoutFrom(t: DigitTable, directives: seq<Directive>)
    requires IsUnicode(t)
    ensures StagesOf(t, directives) == [] <==> WithoutFrom(directives)
  {
    if directives != [] {
      NoStageWithoutFrom(t, directives[..|directives| - 1]);
      assert directives == directives[..|directives| - 1] + [directives[|directives| - 1]];
    }
  }

  /** The `USER` at `k` stands in a stage and is refused. */
  predicate RaisesAt(t: DigitTable, directives: seq<Directive>, k: nat)
    requires IsUnicode(t)
  {
    && k < |directives| && directives[k].User? && Refuses(t, directives[k].operand)
    && !WithoutFrom(directives[..k])
  }

  ghost predicate Raises(t: DigitTable, directives: seq<Directive>)
    requires IsUnicode(t)
  {
    exists k: nat :: RaisesAt(t, directives, k)
  }

  function Directives(read: string -> Directive, logical: seq<L.Logical>): seq<Directive> {
    seq(|logical|, i requires 0 <= i < |logical| => read(logical[i].text))
  }

  predicate WithoutFrom(directives: seq<Directive>) {
    forall d | d in directives :: !d.From?
  }

  /** The operand of the last `USER`. */
  function LastUser(directives: seq<Directive>): Option<string> {
    if directives == [] then None
    else
      var d := directives[|directives| - 1];
      if d.User? then Some(d.operand) else LastUser(directives[..|directives| - 1])
  }

  function StageWith(t: DigitTable, base: string, alias: Option<string>, user: Option<string>): Stage
    requires IsUnicode(t)
  {
    match user
    case None => Stage(base, alias, None, None)
    case Some(operand) => Stage(base, alias, Some(UserName(operand)), UserId(t, operand))
  }

  /** A stage is what its own `FROM` says and the last `USER` before the next; nothing above it is touched. */
  lemma {:induction false} StageIsItsOwnSegment(t: DigitTable, above: seq<Directive>, base: string,
                                               alias: Option<string>, segment: seq<Directive>)
    requires IsUnicode(t) && WithoutFrom(segment)
    ensures
      StagesOf(t, above + [From(base, alias)] + segment)
      == StagesOf(t, above) + [StageWith(t, base, alias, LastUser(segment))]
  {
    var whole := above + [From(base, alias)] + segment;
    if segment == [] {
      assert whole[..|whole| - 1] == above;
    } else {
      var front := segment[..|segment| - 1];
      assert whole[..|whole| - 1] == above + [From(base, alias)] + front;
      StageIsItsOwnSegment(t, above, base, alias, front);
    }
  }

  // ---- aliases ----------------------------------------------------------------------------------------

  predicate Carries(s: Stage, name: string) {
    s.alias.Some? && s.alias.value != "" && Lower(s.alias.value) == name
  }

  /** The last stage among the first `n` that carries the name. */
  function LastNamed(stages: seq<Stage>, name: string, n: nat): (r: Option<nat>)
    requires n <= |stages|
    ensures r.Some? ==> r.value < n && Carries(stages[r.value], name)
    ensures r.Some? ==> forall k | r.value < k < n :: !Carries(stages[k], name)
    ensures r.None? ==> forall k | 0 <= k < n :: !Carries(stages[k], name)
  {
    if n == 0 then None
    else if Carries(stages[n - 1], name) then Some(n - 1)
    else LastNamed(stages, name, n - 1)
  }

  /** What the parser's table says: the last stage anywhere in the file. */
  function LookUp(stages: seq<Stage>, i: nat): Option<nat>
    requires i < |stages|
  {
    LastNamed(stages, Lower(stages[i].base), |stages|)
  }

  /** What a build does: the nearest stage above. */
  function ParentOf(stages: seq<Stage>, i: nat): Option<nat>
    requires i < |stages|
  {
    LastNamed(stages, Lower(stages[i].base), i)
  }

  /** Stage `i` starts from a name that it carries itself, or a stage below it does. */
  predicate NamesOwnOrLater(stages: seq<Stage>, i: nat)
    requires i < |stages|
  {
    exists k | i <= k < |stages| :: Carries(stages[k], Lower(stages[i].base))
  }

  /** One link is resolved as a build would exactly when it names no such stage. */
  lemma {:induction false} LinkAgrees(stages: seq<Stage>, i: nat)
    requires i < |stages|
    ensures LookUp(stages, i) == ParentOf(stages, i) <==> !NamesOwnOrLater(stages, i)
    ensures NamesOwnOrLater(stages, i) ==> LookUp(stages, i).Some? && LookUp(stages, i).value >= i
  {
    var name := Lower(stages[i].base);
    var table, parent := LookUp(stages, i), ParentOf(stages, i);
    if !NamesOwnOrLater(stages, i) && table.Some? {
      assert Carries(stages[table.value], name);
      assert table.value < i;
      assert parent.Some?;
      assert Carries(stages[parent.value], name);
    }
  }

  // ---- following the aliases --------------------------------------------------------------------------

  /** The stages on the way, and the image outside the file that the way ends in, if it does. */
  datatype Resolution = Resolution(trail: seq<nat>, base: Option<string>)

  function Unvisited(stages: seq<Stage>, trail: seq<nat>): set<nat> {
    set k | 0 <= k < |stages| && k !in trail
  }

  function WalkBase(stages: seq<Stage>, i: nat, trail: seq<nat>): (r: Resolution)
    requires i < |stages|
    ensures trail <= r.trail
    decreases Unvisited(stages, trail)
  {
    if i in trail then Resolution(trail, None)
    else
      assert i in Unvisited(stages, trail) && i !in Unvisited(stages, trail + [i]);
      match LookUp(stages, i)
      case None => Resolution(trail + [i], Some(stages[i].base))
      case Some(p) => WalkBase(stages, p, trail + [i])
  }

  /** The stage whose USER counts. */
  function WalkUser(stages: seq<Stage>, at: Option<nat>, trail: seq<nat>): (r: Option<nat>)
    requires at.Some? ==> at.value < |stages|
    ensures r.Some? ==> r.value < |stages| && stages[r.value].user.Some?
    decreases Unvisited(stages, trail)
  {
    if at.None? || at.value in trail then None
    else
      assert at.value in Unvisited(stages, trail) && at.value !in Unvisited(stages, trail + [at.value]);
      if stages[at.value].user.Some? then at
      else WalkUser(stages, LookUp(stages, at.value), trail + [at.value])
  }

  // ---- the reference: resolving each link against the stages above ------------------------------------

  function Chain(stages: seq<Stage>, i: nat): (c: seq<nat>)
    requires i < |stages|
    ensures c != [] && c[0] == i
    ensures forall s | s in c :: s <= i
    ensures |c| > 1 ==> c[1] < i
  {
    match ParentOf(stages, i)
    case None => [i]
    case Some(p) => [i] + Chain(stages, p)
  }

  function ExternalBase(stages: seq<Stage>, i: nat): string
    requires i < |stages|
  {
    match ParentOf(stages, i)
    case None => stages[i].base
    case Some(p) => ExternalBase(stages, p)
  }

  /** The nearest stage with a USER, going up. */
  function NearestUser(stages: seq<Stage>, i: nat): Option<nat>
    requires i < |stages|
  {
    if stages[i].user.Some? then Some(i)
    else
      match ParentOf(stages, i)
      case None => None
      case Some(p) => NearestUser(stages, p)
  }

  predicate Clear(stages: seq<Stage>, i: nat) {
    i < |stages| && !NamesOwnOrLater(stages, i)
  }

  /** The walk takes a build's way, and ends where the build's does, exactly when no stage on that way
      names its own alias or a later one. */
  lemma {:induction false} BaseResolvesAsBuilt(stages: seq<Stage>, i: nat, trail: seq<nat>)
    requires i < |stages| && forall t | t in trail :: t > i
    ensures
      WalkBase(stages, i, trail) == Resolution(trail + Chain(stages, i), Some(ExternalBase(stages, i)))
      <==> forall s | s in Chain(stages, i) :: Clear(stages, s)
  {
    LinkAgrees(stages, i);
    assert i in Chain(stages, i);
    if NamesOwnOrLater(stages, i) {
      var p := LookUp(stages, i).value;
      StrayLink(stages, i, p, trail);
    } else {
      match ParentOf(stages, i)
      case None =>
      case Some(p) =>
        BaseResolvesAsBuilt(stages, p, trail + [i]);
        Associates(trail, [i], Chain(stages, p));
    }
  }

  /** Going to the same stage or a later one leaves the build's way for good. */
  lemma {:induction false} StrayLink(stages: seq<Stage>, i: nat, p: nat, trail: seq<nat>)
    requires i <= p < |stages| && i !in trail && LookUp(stages, i) == Some(p)
    ensures WalkBase(stages, i, trail) != Resolution(trail + Chain(stages, i), Some(ExternalBase(stages, i)))
  {
    var longer, chain := trail + [i], Chain(stages, i);
    var r := WalkBase(stages, p, longer);
    if p !in longer {
      assert longer + [p] <= r.trail by {
        WalkGoesOn(stages, p, longer);
      }
      assert r.trail[|trail| + 1] == p;
      if |chain| > 1 {
        assert (trail + chain)[|trail| + 1] == chain[1] < i;
      }
    }
  }

  lemma WalkGoesOn(stages: seq<Stage>, i: nat, trail: seq<nat>)
    requires i < |stages| && i !in trail
    ensures trail + [i] <= WalkBase(stages, i, trail).trail
  {
  }

  /** No stage up to the nearest USER names its own alias or a later one. */
  predicate ClearToUser(stages: seq<Stage>, i: nat)
    requires i < |stages|
  {
    || stages[i].user.Some?
    || (Clear(stages, i)
        && match ParentOf(stages, i)
           case None => true
           case Some(p) => ClearToUser(stages, p))
  }

  /** The USER that counts is then the nearest one going up. */
  lemma {:induction false} UserResolvesAsBuilt(stages: seq<Stage>, i: nat, trail: seq<nat>)
    requires i < |stages| && (forall t | t in trail :: t > i) && ClearToUser(stages, i)
    ensures WalkUser(stages, Some(i), trail) == NearestUser(stages, i)
  {
    if stages[i].user.None? {
      LinkAgrees(stages, i);
      match ParentOf(stages, i)
      case None =>
      case Some(p) => UserResolvesAsBuilt(stages, p, trail + [i]);
    }
  }

  lemma {:induction false} ClearChainIsClearToUser(stages: seq<Stage>, i: nat)
    requires i < |stages| && forall s | s in Chain(stages, i) :: Clear(stages, s)
    ensures ClearToUser(stages, i)
  {
    assert i in Chain(stages, i);
    match ParentOf(stages, i)
    case None =>
    case Some(p) =>
      assert forall s | s in Chain(stages, p) :: s in Chain(stages, i);
      ClearChainIsClearToUser(stages, p);
  }

  /** What the walk finds is where it starts, or the last stage of its name. */
  lemma {:induction false} FoundIsLastNamed(stages: seq<Stage>, at: Option<nat>, trail: seq<nat>, name: string,
                                            later: nat)
    requires at.Some? ==> at.value < |stages|
    requires WalkUser(stages, at, trail).Some? && WalkUser(stages, at, trail) != at
    requires WalkUser(stages, at, trail).value < later < |stages| && Carries(stages[later], name)
    ensures !Carries(stages[WalkUser(stages, at, trail).value], name)
    decreases Unvisited(stages, trail)
  {
    var i := at.value;
    assert i in Unvisited(stages, trail) && i !in Unvisited(stages, trail + [i]);
    if WalkUser(stages, at, trail) != LookUp(stages, i) {
      FoundIsLastNamed(stages, LookUp(stages, i), trail + [i], name, later);
    }
  }

  /** When the stage it starts from has a USER, a build runs as that USER unless the stage has its own; the
      walk finds the same exactly when the stage has its own, or names no stage from itself down. */
  lemma {:induction false} ParentsUserIff(stages: seq<Stage>, i: nat, trail: seq<nat>)
    requires i < |stages| && forall t | t in trail :: t > i
    requires ParentOf(stages, i).Some? && stages[ParentOf(stages, i).value].user.Some?
    ensures NearestUser(stages, i) == if stages[i].user.Some? then Some(i) else ParentOf(stages, i)
    ensures WalkUser(stages, Some(i), trail) == NearestUser(stages, i)
       <==> stages[i].user.Some? || !NamesOwnOrLater(stages, i)
  {
    var q := ParentOf(stages, i).value;
    LinkAgrees(stages, i);
    if stages[i].user.None? && NamesOwnOrLater(stages, i) {
      var k :| i <= k < |stages| && Carries(stages[k], Lower(stages[i].base));
      if WalkUser(stages, Some(i), trail) == Some(q) {
        FoundIsLastNamed(stages, Some(i), trail, Lower(stages[i].base), k);
      }
    }
  }

  /** Every link on the build's way agrees, but perhaps the one that leads to the USER. */
  predicate ClearButLast(stages: seq<Stage>, i: nat)
    requires i < |stages|
  {
    || stages[i].user.Some?
    || match ParentOf(stages, i)
       case None => false
       case Some(p) => stages[p].user.Some? || (Clear(stages, i) && ClearButLast(stages, p))
  }

  /** A wrong turn right before the USER is never made good: the walk then finds the build's USER exactly
      when that link agrees too. */
  lemma {:induction false} UserIffLastLink(stages: seq<Stage>, i: nat, trail: seq<nat>)
    requires i < |stages| && (forall t | t in trail :: t > i) && ClearButLast(stages, i)
    ensures WalkUser(stages, Some(i), trail) == NearestUser(stages, i) <==> ClearToUser(stages, i)
  {
    if stages[i].user.None? {
      var p := ParentOf(stages, i).value;
      if stages[p].user.Some? {
        ParentsUserIff(stages, i, trail);
      } else {
        LinkAgrees(stages, i);
        UserIffLastLink(stages, p, trail + [i]);
      }
    }
  }

  lemma LastNamedIs(stages: seq<Stage>, name: string, n: nat, k: nat)
    requires k < n <= |stages| && Carries(stages[k], name) && forall j | k < j < n :: !Carries(stages[j], name)
    ensures LastNamed(stages, name, n) == Some(k)
  {
  }

  const TWO_NAMED_C := [
    Stage("x", Some("a"), Some("u"), None), Stage("a", Some("c"), None, None), Stage("c", Some("b"), None, None),
    Stage("a", Some("c"), None, None), Stage("b", None, None, None)]

  lemma LinksOfTwoNamedC()
    ensures |TWO_NAMED_C| == 5
    ensures LookUp(TWO_NAMED_C, 4) == ParentOf(TWO_NAMED_C, 4) == Some(2)
    ensures LookUp(TWO_NAMED_C, 2) == Some(3) && ParentOf(TWO_NAMED_C, 2) == Some(1)
    ensures LookUp(TWO_NAMED_C, 3) == ParentOf(TWO_NAMED_C, 1) == Some(0)
    ensures NamesOwnOrLater(TWO_NAMED_C, 2)
    ensures TWO_NAMED_C[0].user == Some("u") && forall k | 0 < k < 5 :: TWO_NAMED_C[k].user.None?
  {
    var stages := TWO_NAMED_C;
    assert Lower("a") == "a" && Lower("b") == "b" && Lower("c") == "c";
    LastNamedIs(stages, "b", 5, 2);
    LastNamedIs(stages, "c", 5, 3);
    LastNamedIs(stages, "a", 5, 0);
    LastNamedIs(stages, "b", 4, 2);
    LastNamedIs(stages, "c", 2, 1);
    LastNamedIs(stages, "a", 1, 0);
    assert Carries(stages[3], Lower(stages[2].base));
  }

  /** A way that leaves the build's can still come to the build's USER by a stage further down: here the
      second of two stages named `c` starts from the same stage as the first. */
  lemma StrayWayCanAgree()
    ensures !ClearToUser(TWO_NAMED_C, 4)
    ensures WalkUser(TWO_NAMED_C, Some(4), []) == NearestUser(TWO_NAMED_C, 4) == Some(0)
  {
    var stages := TWO_NAMED_C;
    LinksOfTwoNamedC();
    hide LastNamed, TWO_NAMED_C;
    assert WalkUser(stages, Some(4), []) == Some(0) by {
      assert WalkUser(stages, Some(0), [] + [4] + [2] + [3]) == Some(0);
      assert WalkUser(stages, Some(3), [] + [4] + [2]) == Some(0);
      assert WalkUser(stages, Some(2), [] + [4]) == Some(0);
    }
    assert NearestUser(stages, 1) == Some(0);
    assert NearestUser(stages, 2) == Some(0);
    assert !ClearToUser(stages, 2);
  }

  /** The stage reached from `i` by following `n` aliases, if each leads to a stage. */
  function Follow(stages: seq<Stage>, i: nat, n: nat): (r: Option<nat>)
    requires i < |stages|
    ensures r.Some? ==> r.value < |stages|
  {
    if n == 0 then Some(i)
    else
      match Follow(stages, i, n - 1)
      case None => None
      case Some(j) => LookUp(stages, j)
  }

  /** Every alias leads to a stage: following them never ends. */
  ghost predicate NeverEnds(stages: seq<Stage>, i: nat)
    requires i < |stages|
  {
    forall n: nat :: Follow(stages, i, n).Some?
  }

  /** Once back where it was, the way goes round for ever. */
  lemma {:induction false} RoundAndRound(stages: seq<Stage>, i: nat, a: nat, b: nat, n: nat)
    requires i < |stages| && a < b && Follow(stages, i, b).Some? && Follow(stages, i, a) == Follow(stages, i, b)
    ensures Follow(stages, i, n).Some?
    ensures n >= b ==> Follow(stages, i, n) == Follow(stages, i, n - (b - a))
  {
    hide Follow;
    if n > b {
      RoundAndRound(stages, i, a, b, n - 1);
      RoundAndRound(stages, i, a, b, n - (b - a));
      SameNext(stages, i, n - 1, n - 1 - (b - a));
    } else if n < b {
      EarlierIsDefined(stages, i, n, b);
    }
  }

  lemma SameNext(stages: seq<Stage>, i: nat, m: nat, n: nat)
    requires i < |stages| && Follow(stages, i, m) == Follow(stages, i, n)
    ensures Follow(stages, i, m + 1) == Follow(stages, i, n + 1)
  {
  }

  lemma {:induction false} EarlierIsDefined(stages: seq<Stage>, i: nat, n: nat, b: nat)
    requires i < |stages| && n <= b && Follow(stages, i, b).Some?
    ensures Follow(stages, i, n).Some?
  {
    if n < b {
      EarlierIsDefined(stages, i, n, b - 1);
    }
  }

  /** The walk so far went where the aliases lead. */
  ghost predicate Followed(stages: seq<Stage>, i: nat, trail: seq<nat>)
    requires i < |stages|
  {
    forall k: nat | k < |trail| :: Follow(stages, i, k) == Some(trail[k])
  }

  lemma BackIsForEver(stages: seq<Stage>, i: nat, trail: seq<nat>)
    requires i < |stages| && Followed(stages, i, trail)
    requires Follow(stages, i, |trail|).Some? && Follow(stages, i, |trail|).value in trail
    ensures NeverEnds(stages, i)
  {
    hide Follow;
    var a: nat :| a < |trail| && trail[a] == Follow(stages, i, |trail|).value;
    forall n: nat
      ensures Follow(stages, i, n).Some?
    {
      RoundAndRound(stages, i, a, |trail|, n);
    }
  }

  lemma {:induction false} WalkEndsIff(stages: seq<Stage>, i: nat, trail: seq<nat>, at: nat)
    requires i < |stages| && at < |stages| && Followed(stages, i, trail) && Follow(stages, i, |trail|) == Some(at)
    ensures WalkBase(stages, at, trail).base.None? <==> NeverEnds(stages, i)
    decreases Unvisited(stages, trail)
  {
    if at in trail {
      BackIsForEver(stages, i, trail);
    } else {
      hide LookUp;
      assert at in Unvisited(stages, trail) && at !in Unvisited(stages, trail + [at]);
      match LookUp(stages, at)
      case None =>
        assert Follow(stages, i, |trail| + 1).None?;
      case Some(p) =>
        WalkEndsIff(stages, i, trail + [at], p);
    }
  }

  /** The base stays unset exactly when following aliases from the stage never leads out of the file. */
  lemma UnsetIffNeverEnds(stages: seq<Stage>, i: nat)
    requires i < |stages|
    ensures WalkBase(stages, i, []).base.None? <==> NeverEnds(stages, i)
  {
    WalkEndsIff(stages, i, [], i);
  }

  /** `FROM node AS node` as the last stage: a build pulls `node`, the walk finds no base at all. */
  lemma {:induction false} SelfNamedStageHasNoBase(stages: seq<Stage>, i: nat)
    requires i + 1 == |stages| && Carries(stages[i], Lower(stages[i].base))
    ensures WalkBase(stages, i, []) == Resolution([i], None)
    ensures WalkUser(stages, Some(i), []) == if stages[i].user.Some? then Some(i) else None
  {
    assert LookUp(stages, i) == Some(i);
    assert WalkBase(stages, i, [i]) == Resolution([i], None);
    assert [] + [i] == [i];
  }

  /** So the USER found for it is the build's exactly when it has one of its own or there is none above. */
  lemma {:induction false} SelfNamedUserIff(stages: seq<Stage>, i: nat)
    requires i + 1 == |stages| && Carries(stages[i], Lower(stages[i].base))
    ensures WalkUser(stages, Some(i), []) == NearestUser(stages, i)
       <==> stages[i].user.Some? || NearestUser(stages, i).None?
  {
    SelfNamedStageHasNoBase(stages, i);
  }

  lemma {:induction false} NodeAsNode()
    ensures
      var stages := [Stage("node", Some("node"), None, None)];
      WalkBase(stages, 0, []) == Resolution([0], None) && ExternalBase(stages, 0) == "node"
  {
    var stages := [Stage("node", Some("node"), None, None)];
    assert Lower("node") == "node";
    SelfNamedStageHasNoBase(stages, 0);
  }

  function TableSays(byAlias: map<string, nat>, name: string): Option<nat> {
    if name in byAlias then Some(byAlias[name]) else None
  }

  /** The table knows the last of the first `n` stages under each name. */
  ghost predicate IsTable(byAlias: map<string, nat>, stages: seq<Stage>, n: nat)
    requires n <= |stages|
  {
    forall name: string :: TableSays(byAlias, name) == LastNamed(stages, name, n)
  }

  // ---- the parser's state -----------------------------------------------------------------------------

  class DockerfileParser {
    var stages: seq<Stage>
    var userName: Option<string>
    var userUid: Option<nat>
    var finalBase: Option<string>

    constructor ()
      ensures stages == [] && userName.None? && userUid.None? && finalBase.None?
    {
      stages, userName, userUid, finalBase := [], None, None, None;
    }

    /** `read` is what the directive patterns make of one logical line.  Raises exactly when a USER in a
        stage has an operand that is refused. */
    method Parse(t: DigitTable, lines: seq<string>, read: string -> Directive) returns (raised: bool)
      requires IsUnicode(t)
      modifies this
      ensures forall cuts | L.IsBlocks(lines, cuts) ::
                && L.AreRuns(lines, cuts)
                && var directives := Directives(read, L.AllEmitted(lines, cuts));
                   && (raised <==> Raises(t, directives))
                   && (!raised ==> stages == StagesOf(t, directives))
      ensures !raised && stages == [] ==> userName.None? && userUid.None? && finalBase.None?
      ensures !raised && stages != [] ==>
        var user := WalkUser(stages, Some(|stages| - 1), []);
        && userName == (if user.Some? then stages[user.value].user else None)
        && userUid == (if user.Some? then stages[user.value].uid else None)
        && finalBase == WalkBase(stages, |stages| - 1, []).base
    {
      hide L.IsBlocks, L.AreRuns, L.AllEmitted, Raises, StagesOf, WalkUser, WalkBase, Directives;
      userName, userUid, finalBase := None, None, None;
      var logical := L.Join(lines);
      raised := ReadStages(t, Directives(read, logical));
      if !raised {
        ResolveFinalStage();
      }
    }

    method ReadStages(t: DigitTable, directives: seq<Directive>) returns (raised: bool)
      requires IsUnicode(t)
      modifies this`stages
      ensures raised <==> Raises(t, directives)
      ensures !raised ==> stages == StagesOf(t, directives)
    {
      hide Refuses, UserId, UserName;
      stages := [];
      for k := 0 to |directives|
        invariant stages == StagesOf(t, directives[..k])
        invariant forall i: nat | i < k :: !RaisesAt(t, directives, i)
      {
        assert directives[..k + 1][..k] == directives[..k];
        NoStageWithoutFrom(t, directives[..k]);
        match directives[k]
        case From(base, alias) => stages := stages + [Stage(base, alias, None, None)];
        case User(operand) =>
          if stages != [] {
            var last := |stages| - 1;
            if Refuses(t, operand) {
              assert RaisesAt(t, directives, k);
              stages := stages[last := stages[last].(user := Some(UserName(operand)))];
              return true;
            }
            var uid := UserId(t, operand);
            stages := stages[last := stages[last].(user := Some(UserName(operand)), uid := uid)];
          }
        case Other =>
      }
      assert directives[..|directives|] == directives;
      raised := false;
    }

    /** A later stage with the same alias replaces the earlier one. */
    method AliasTable() returns (byAlias: map<string, nat>)
      ensures IsTable(byAlias, stages, |stages|)
    {
      byAlias := map[];
      for k := 0 to |stages|
        invariant IsTable(byAlias, stages, k)
      {
        if stages[k].alias.Some? && stages[k].alias.value != "" {
          byAlias := byAlias[Lower(stages[k].alias.value) := k];
        }
      }
    }

    /** The final stage's USER and base; what the walk does not find keeps its value. */
    method ResolveFinalStage()
      modifies this
      ensures stages == old(stages)
      ensures stages == [] ==> unchanged(this)
      ensures stages != [] ==>
        var user := WalkUser(stages, Some(|stages| - 1), []);
        && userName == (if user.Some? then stages[user.value].user else old(userName))
        && userUid == (if user.Some? then stages[user.value].uid else old(userUid))
      ensures stages != [] ==>
        var base := WalkBase(stages, |stages| - 1, []).base;
        finalBase == if base.Some? then base else old(finalBase)
    {
      if stages == [] {
        return;
      }
      var byAlias := AliasTable();
      FindUser(byAlias);
      FindBase(byAlias);
    }

    method FindUser(byAlias: map<string, nat>)
      requires stages != [] && IsTable(byAlias, stages, |stages|)
      modifies this`userName, this`userUid
      ensures
        var user := WalkUser(stages, Some(|stages| - 1), []);
        && userName == (if user.Some? then stages[user.value].user else old(userName))
        && userUid == (if user.Some? then stages[user.value].uid else old(userUid))
    {
      var stage: Option<nat> := Some(|stages| - 1);
      var visited: set<nat> := {};
      ghost var trail: seq<nat> := [];
      while stage.Some? && stage.value !in visited
        invariant stage.Some? ==> stage.value < |stages|
        invariant forall k :: k in visited <==> k in trail
        invariant WalkUser(stages, stage, trail) == WalkUser(stages, Some(|stages| - 1), [])
        invariant userName == old(userName) && userUid == old(userUid)
        decreases Unvisited(stages, trail)
      {
        var i := stage.value;
        assert i in Unvisited(stages, trail) && i !in Unvisited(stages, trail + [i]);
        visited := visited + {i};
        if stages[i].user.Some? {
          userName, userUid := stages[i].user, stages[i].uid;
          break;
        }
        stage, trail := TableSays(byAlias, Lower(stages[i].base)), trail + [i];
      }
    }

    method FindBase(byAlias: map<string, nat>)
      requires stages != [] && IsTable(byAlias, stages, |stages|)
      modifies this`finalBase
      ensures
        var base := WalkBase(stages, |stages| - 1, []).base;
        finalBase == if base.Some? then base else old(finalBase)
    {
      var i: nat := |stages| - 1;
      var visited: set<nat> := {};
      ghost var trail: seq<nat> := [];
      while i !in visited
        invariant i < |stages|
        invariant forall k :: k in visited <==> k in trail
        invariant WalkBase(stages, i, trail) == WalkBase(stages, |stages| - 1, [])
        invariant finalBase == old(finalBase)
        decreases Unvisited(stages, trail)
      {
        assert i in Unvisited(stages, trail) && i !in Unvisited(stages, trail + [i]);
        visited := visited + {i};
        var parent := TableSays(byAlias, Lower(stages[i].base));
        if parent.None? {
          finalBase := Some(stages[i].base);
          break;
        }
        i, trail := parent.value, trail + [i];
      }
    }
  }
}
