/** The expansion meter and the nesting check that guard every YAML document read from outside.

    A composed document is a graph: an alias is one more edge to a shared node, and a node may be its
    own descendant.  The reference for "what it would expand to" is the finite tree that results from
    following every edge, if there is one. */
module YamlExpansion {
  import opened Options

  const MAX_DOCUMENT_BYTES: nat := 4 * 1024 * 1024
  const MAX_EXPANDED_NODES: nat := 1_000_000
  const MAX_DEPTH: nat := 32

  // ---- the composed graph -----------------------------------------------------------------------------

  datatype Node = Scalar | Sequence(items: seq<nat>) | Mapping(pairs: seq<(nat, nat)>)

  /** A node is named by its position, which stands for the identity of the node object. */
  type Graph = seq<Node>

  /** What a node lists, in order: a mapping both members of every pair. */
  function Flatten(pairs: seq<(nat, nat)>): (flat: seq<nat>)
    ensures |flat| == 2 * |pairs|
  {
    if pairs == [] then [] else [pairs[0].0, pairs[0].1] + Flatten(pairs[1..])
  }

  lemma {:induction false} FlattenAt(pairs: seq<(nat, nat)>, i: nat)
    requires i < |pairs|
    ensures Flatten(pairs)[2 * i] == pairs[i].0 && Flatten(pairs)[2 * i + 1] == pairs[i].1
  {
    if i > 0 {
      FlattenAt(pairs[1..], i - 1);
    }
  }

  function Children(n: Node): seq<nat> {
    match n
    case Scalar => []
    case Sequence(items) => items
    case Mapping(pairs) => Flatten(pairs)
  }

  /** How many edges leave a node. */
  function Degree(n: Node): nat {
    match n
    case Scalar => 0
    case Sequence(items) => |items|
    case Mapping(pairs) => 2 * |pairs|
  }

  /** A sequence names its items, a mapping the key and the value of every pair. */
  predicate Names(n: Node, m: nat) {
    match n
    case Scalar => false
    case Sequence(items) => m in items
    case Mapping(pairs) => exists pair | pair in pairs :: m == pair.0 || m == pair.1
  }

  lemma ChildrenAreNamed(n: Node, m: nat)
    ensures m in Children(n) <==> Names(n, m)
    ensures |Children(n)| == Degree(n)
  {
    if n.Mapping? {
      if m in Children(n) {
        var k :| 0 <= k < |Children(n)| && Children(n)[k] == m;
        FlattenAt(n.pairs, k / 2);
        assert k == 2 * (k / 2) || k == 2 * (k / 2) + 1;
        assert n.pairs[k / 2] in n.pairs;
      }
      if Names(n, m) {
        var pair :| pair in n.pairs && (m == pair.0 || m == pair.1);
        var i :| 0 <= i < |n.pairs| && n.pairs[i] == pair;
        FlattenAt(n.pairs, i);
        assert Children(n)[2 * i] == pair.0 && Children(n)[2 * i + 1] == pair.1;
      }
    }
  }

  ghost predicate WellFormed(g: Graph) {
    forall n, m: nat | 0 <= n < |g| && Names(g[n], m) :: m < |g|
  }

  lemma ChildrenAreThere(g: Graph, n: nat, i: nat)
    requires WellFormed(g) && n < |g| && i < |Children(g[n])|
    ensures Children(g[n])[i] < |g|
  {
    ChildrenAreNamed(g[n], Children(g[n])[i]);
  }

  function EdgeCount(g: Graph): nat {
    if g == [] then 0 else EdgeCount(g[..|g| - 1]) + Degree(g[|g| - 1])
  }

  // ---- the reference: a finite tree with every alias expanded -----------------------------------------

  datatype Tree = Tree(kids: seq<Tree>)

  function Size(t: Tree): nat
    decreases t
  {
    1 + Sizes(t.kids)
  }

  function Sizes(ts: seq<Tree>): nat
    decreases ts
  {
    if ts == [] then 0 else Sizes(ts[..|ts| - 1]) + Size(ts[|ts| - 1])
  }

  /** `t` is `n` with every alias replaced by a copy of what it names: an item of a sequence by one
      subtree, a pair of a mapping by two. */
  ghost predicate Unfolds(g: Graph, n: nat, t: Tree)
    decreases t
  {
    && n < |g|
    && match g[n]
       case Scalar => t.kids == []
       case Sequence(items) =>
         && |t.kids| == |items|
         && forall i | 0 <= i < |items| :: Unfolds(g, items[i], t.kids[i])
       case Mapping(pairs) =>
         && |t.kids| == 2 * |pairs|
         && forall i | 0 <= i < |pairs| ::
              Unfolds(g, pairs[i].0, t.kids[2 * i]) && Unfolds(g, pairs[i].1, t.kids[2 * i + 1])
  }

  /** The list of children is what the reference follows. */
  lemma UnfoldsByChildren(g: Graph, n: nat, t: Tree)
    ensures Unfolds(g, n, t) <==>
            && n < |g|
            && |t.kids| == |Children(g[n])|
            && forall i | 0 <= i < |t.kids| :: Unfolds(g, Children(g[n])[i], t.kids[i])
  {
    if n < |g| && g[n].Mapping? && |t.kids| == 2 * |g[n].pairs| {
      var pairs, kids := g[n].pairs, Children(g[n]);
      if Unfolds(g, n, t) {
        forall i | 0 <= i < |t.kids|
          ensures Unfolds(g, kids[i], t.kids[i])
        {
          FlattenAt(pairs, i / 2);
          assert i == 2 * (i / 2) || i == 2 * (i / 2) + 1;
          assert Unfolds(g, pairs[i / 2].0, t.kids[2 * (i / 2)]);
        }
      }
      if forall i | 0 <= i < |t.kids| :: Unfolds(g, kids[i], t.kids[i]) {
        forall i | 0 <= i < |pairs|
          ensures Unfolds(g, pairs[i].0, t.kids[2 * i]) && Unfolds(g, pairs[i].1, t.kids[2 * i + 1])
        {
          FlattenAt(pairs, i);
          assert Unfolds(g, kids[2 * i], t.kids[2 * i]) && Unfolds(g, kids[2 * i + 1], t.kids[2 * i + 1]);
        }
      }
    }
  }

  lemma {:induction false} UnfoldingIsUnique(g: Graph, n: nat, t: Tree, u: Tree)
    requires Unfolds(g, n, t) && Unfolds(g, n, u)
    ensures t == u
    decreases t
  {
    UnfoldsByChildren(g, n, t);
    UnfoldsByChildren(g, n, u);
    hide Unfolds, Children;
    forall i | 0 <= i < |t.kids|
      ensures t.kids[i] == u.kids[i]
    {
      UnfoldingIsUnique(g, Children(g[n])[i], t.kids[i], u.kids[i]);
    }
    assert t.kids == u.kids;
  }

  lemma {:induction false} PrefixPlusOne(ts: seq<Tree>, i: nat)
    requires i < |ts|
    ensures Sizes(ts[..i]) + Size(ts[i]) <= Sizes(ts)
  {
    if i + 1 == |ts| {
    } else {
      var front := ts[..|ts| - 1];
      PrefixPlusOne(front, i);
      assert front[..i] == ts[..i];
    }
  }

  /** The one complete expansion of `n`, when there is one. */
  ghost function Expansion(g: Graph, n: nat): (r: Option<Tree>)
    ensures r.Some? ==> Unfolds(g, n, r.value)
    ensures r.None? ==> forall t :: !Unfolds(g, n, t)
  {
    if exists t :: Unfolds(g, n, t) then
      var t :| Unfolds(g, n, t);
      Some(t)
    else
      None
  }

  lemma ExpansionIs(g: Graph, n: nat, t: Tree)
    requires Unfolds(g, n, t)
    ensures Expansion(g, n) == Some(t)
  {
    UnfoldingIsUnique(g, n, t, Expansion(g, n).value);
  }

  /** What a measurement of `n` has to be: the exact size when that is within the limit, and one more
      than the limit when it is larger or when no finite expansion exists. */
  ghost function ClampedSize(g: Graph, n: nat): nat {
    match Expansion(g, n)
    case Some(t) => if Size(t) <= MAX_EXPANDED_NODES then Size(t) else MAX_EXPANDED_NODES + 1
    case None => MAX_EXPANDED_NODES + 1
  }

  /** `n` lies strictly inside the expansion of `a`, if `a` has one. */
  ghost predicate Inside(g: Graph, a: nat, n: nat) {
    Expansion(g, a).Some? ==>
      Expansion(g, n).Some? && Size(Expansion(g, n).value) < Size(Expansion(g, a).value)
  }

  lemma ChildIsInside(g: Graph, n: nat, i: nat)
    requires n < |g| && i < |Children(g[n])|
    ensures Inside(g, n, Children(g[n])[i])
  {
    match Expansion(g, n)
    case None =>
    case Some(t) =>
      UnfoldsByChildren(g, n, t);
      hide Unfolds, Children;
      ExpansionIs(g, Children(g[n])[i], t.kids[i]);
      PrefixPlusOne(t.kids, i);
  }

  ghost function ChildSum(g: Graph, n: nat, i: nat): nat
    requires n < |g| && i <= |Children(g[n])|
  {
    if i == 0 then 0 else ChildSum(g, n, i - 1) + ClampedSize(g, Children(g[n])[i - 1])
  }

  lemma {:induction false} ChildSumGrows(g: Graph, n: nat, i: nat, j: nat)
    requires n < |g| && i <= j <= |Children(g[n])|
    ensures ChildSum(g, n, i) <= ChildSum(g, n, j)
  {
    if i < j {
      ChildSumGrows(g, n, i, j - 1);
    }
  }

  lemma NothingSummed(g: Graph, n: nat)
    requires n < |g|
    ensures ChildSum(g, n, 0) == 0
  {
  }

  lemma OneChildMore(g: Graph, n: nat, i: nat)
    requires n < |g| && i < |Children(g[n])|
    ensures ChildSum(g, n, i + 1) == ChildSum(g, n, i) + ClampedSize(g, Children(g[n])[i])
  {
  }

  lemma SmallHasTree(g: Graph, n: nat) returns (t: Tree)
    requires ClampedSize(g, n) <= MAX_EXPANDED_NODES
    ensures Unfolds(g, n, t) && Size(t) == ClampedSize(g, n)
  {
    t := Expansion(g, n).value;
  }

  lemma OneTreeMore(ts: seq<Tree>, t: Tree)
    ensures Sizes(ts + [t]) == Sizes(ts) + Size(t)
  {
    assert (ts + [t])[..|ts|] == ts;
  }

  /** Expansions of the first `i` children, when their clamped sizes sum to something small. */
  lemma {:induction false} SmallSumHasTrees(g: Graph, n: nat, i: nat) returns (kids: seq<Tree>)
    requires n < |g| && i <= |Children(g[n])| && ChildSum(g, n, i) <= MAX_EXPANDED_NODES
    ensures |kids| == i && Sizes(kids) == ChildSum(g, n, i)
    ensures forall j | 0 <= j < i :: Unfolds(g, Children(g[n])[j], kids[j])
  {
    hide ClampedSize, Unfolds, Size, ChildSum, Children;
    NothingSummed(g, n);
    if i == 0 {
      kids := [];
    } else {
      OneChildMore(g, n, i - 1);
      var front := SmallSumHasTrees(g, n, i - 1);
      var last := SmallHasTree(g, Children(g[n])[i - 1]);
      OneTreeMore(front, last);
      kids := front + [last];
    }
  }

  /** What the tree says of a child: its clamped size, when the tree is small. */
  lemma UnfoldsInto(g: Graph, n: nat, t: Tree, i: nat)
    requires Unfolds(g, n, t)
    ensures n < |g| && |t.kids| == |Children(g[n])| && Size(t) == 1 + Sizes(t.kids) && Sizes(t.kids[..0]) == 0
    ensures i < |t.kids| && Size(t.kids[i]) <= MAX_EXPANDED_NODES ==>
              ClampedSize(g, Children(g[n])[i]) == Size(t.kids[i])
  {
    UnfoldsByChildren(g, n, t);
    hide Unfolds, Children;
    if i < |t.kids| {
      ExpansionIs(g, Children(g[n])[i], t.kids[i]);
    }
  }

  lemma {:induction false} TreesBoundSum(g: Graph, n: nat, t: Tree, i: nat)
    requires Unfolds(g, n, t) && i <= |t.kids| && Size(t) <= MAX_EXPANDED_NODES
    ensures ChildSum(g, n, i) == Sizes(t.kids[..i]) < Size(t)
  {
    hide ClampedSize, Unfolds, Sizes;
    UnfoldsInto(g, n, t, i);
    if i > 0 {
      TreesBoundSum(g, n, t, i - 1);
      PrefixPlusOne(t.kids, i - 1);
      UnfoldsInto(g, n, t, i - 1);
      OneTreeMore(t.kids[..i - 1], t.kids[i - 1]);
      assert t.kids[..i - 1] + [t.kids[i - 1]] == t.kids[..i];
      if i < |t.kids| {
        PrefixPlusOne(t.kids, i);
      } else {
        assert t.kids[..i] == t.kids;
      }
    }
  }

  /** The clamped size of a node is one plus its children's, clamped: no unfolding needed. */
  lemma {:induction false} SumIsClampedSize(g: Graph, n: nat)
    requires n < |g|
    ensures
      var total := 1 + ChildSum(g, n, |Children(g[n])|);
      ClampedSize(g, n) == if total > MAX_EXPANDED_NODES then MAX_EXPANDED_NODES + 1 else total
  {
    hide Unfolds, Children;
    var degree := |Children(g[n])|;
    if 1 + ChildSum(g, n, degree) <= MAX_EXPANDED_NODES {
      var kids := SmallSumHasTrees(g, n, degree);
      UnfoldsByChildren(g, n, Tree(kids));
      ExpansionIs(g, n, Tree(kids));
    } else if ClampedSize(g, n) <= MAX_EXPANDED_NODES {
      var t := Expansion(g, n).value;
      UnfoldsByChildren(g, n, t);
      TreesBoundSum(g, n, t, degree);
    }
  }

  /** A node inside itself has no finite expansion. */
  lemma InsideItself(g: Graph, n: nat)
    requires Inside(g, n, n)
    ensures ClampedSize(g, n) == MAX_EXPANDED_NODES + 1
  {
  }

  /** A child lies inside its parent, and inside whatever the parent lies inside. */
  lemma Deeper(g: Graph, above: set<nat>, n: nat, i: nat)
    requires n < |g| && i < |Children(g[n])| && forall a | a in above :: Inside(g, a, n)
    ensures forall a | a in above + {n} :: Inside(g, a, Children(g[n])[i])
  {
    ChildIsInside(g, n, i);
  }

  // ---- the memoised walk ------------------------------------------------------------------------------

  predicate IsId(g: Graph, n: nat) {
    n < |g|
  }

  function Ids(g: Graph): set<nat> {
    set n: nat | n < |g| && IsId(g, n)
  }

  ghost predicate Kept(before: map<nat, nat>, after: map<nat, nat>) {
    forall m | m in before :: m in after && after[m] == before[m]
  }

  /** The edges that leave nodes among the first `k` which are not in `seen`. */
  ghost function EdgesLeft(g: Graph, seen: set<nat>, k: nat): nat
    requires k <= |g|
  {
    if k == 0 then 0
    else EdgesLeft(g, seen, k - 1) + if k - 1 in seen then 0 else Degree(g[k - 1])
  }

  lemma {:induction false} OpeningTakesItsEdges(g: Graph, seen: set<nat>, n: nat, k: nat)
    requires k <= |g| && n !in seen && n < |g|
    ensures EdgesLeft(g, seen, k) == EdgesLeft(g, seen + {n}, k) + if n < k then Degree(g[n]) else 0
  {
    if k > 0 {
      OpeningTakesItsEdges(g, seen, n, k - 1);
    }
  }

  lemma {:induction false} AllEdgesLeft(g: Graph, k: nat)
    requires k <= |g|
    ensures EdgesLeft(g, {}, k) == EdgeCount(g[..k])
  {
    if k > 0 {
      AllEdgesLeft(g, k - 1);
      assert g[..k][..k - 1] == g[..k - 1];
    }
  }

  class Meter {
    const g: Graph
    var memo: map<nat, nat>
    var active: set<nat>
    /** How many edges have been followed. */
    ghost var visits: nat

    ghost predicate Valid()
      reads this
    {
      && WellFormed(g)
      && active <= Ids(g)
      && memo.Keys <= Ids(g)
      && memo.Keys !! active
      && (forall n | n in memo :: memo[n] == ClampedSize(g, n))
    }

    /** The edges of the nodes not yet opened. */
    ghost function Left(): nat
      reads this
    {
      EdgesLeft(g, memo.Keys + active, |g|)
    }

    constructor (g: Graph)
      requires WellFormed(g)
      ensures Valid() && this.g == g
      ensures memo == map[] && active == {} && visits == 0
    {
      this.g := g;
      memo, active, visits := map[], {}, 0;
    }

    method Close(n: nat, size: nat)
      requires Valid() && n in active && size == ClampedSize(g, n)
      modifies this
      ensures Valid()
      ensures active == old(active) - {n} && memo == old(memo)[n := size]
      ensures visits == old(visits) && Left() == old(Left())
    {
      assert memo[n := size].Keys + (active - {n}) == memo.Keys + active;
      active := active - {n};
      memo := memo[n := size];
    }

    /** Measures `n`.  Every active node is an ancestor on the path that led here. */
    method ExpandedSize(n: nat) returns (r: nat)
      requires Valid() && n < |g|
      requires forall a | a in active :: Inside(g, a, n)
      modifies this
      ensures Valid()
      ensures r == ClampedSize(g, n)
      ensures active == old(active)
      ensures Kept(old(memo), memo)
      ensures visits + Left() <= old(visits + Left())
      ensures n !in old(active) ==> n in memo && memo[n] == r
      decreases Ids(g) - active
    {
      hide EdgesLeft, ClampedSize, Inside, ChildSum;
      if n in memo {
        return memo[n];
      }
      if n in active {
        InsideItself(g, n);
        return MAX_EXPANDED_NODES + 1;
      }
      OpeningTakesItsEdges(g, memo.Keys + active, n, |g|);
      assert memo.Keys + (active + {n}) == memo.Keys + active + {n};
      active := active + {n};

      SumIsClampedSize(g, n);
      NothingSummed(g, n);
      if g[n].Scalar? {
        Close(n, 1);
        return 1;
      }

      var total := 1;
      var children := Children(g[n]);
      ChildrenAreNamed(g[n], 0);
      var i := 0;
      while i < |children|
        invariant 0 <= i <= |children|
        invariant Valid()
        invariant n !in memo && active == old(active) + {n}
        invariant Kept(old(memo), memo)
        invariant visits + Left() + |children| - i <= old(visits + Left())
        invariant total == 1 + ChildSum(g, n, i) <= MAX_EXPANDED_NODES
      {
        var child := children[i];
        ChildrenAreThere(g, n, i);
        Deeper(g, active - {n}, n, i);
        OneChildMore(g, n, i);
        visits := visits + 1;
        var size := ExpandedSize(child);
        total := total + size;
        i := i + 1;
        if total > MAX_EXPANDED_NODES {
          ChildSumGrows(g, n, i, |children|);
          total := MAX_EXPANDED_NODES + 1;
          break;
        }
      }

      Close(n, total);
      return total;
    }
  }

  // ---- no finite expansion means a cycle --------------------------------------------------------------

  /** Consecutive members are parent and child. */
  ghost predicate IsPath(g: Graph, p: seq<nat>) {
    && p != []
    && (forall k | 0 <= k < |p| :: p[k] < |g|)
    && (forall k | 0 <= k < |p| - 1 :: Names(g[p[k]], p[k + 1]))
  }

  ghost predicate Repeats(p: seq<nat>) {
    exists i, j :: 0 <= i < j < |p| && p[i] == p[j]
  }

  lemma {:induction false} LaterIsInside(g: Graph, p: seq<nat>, i: nat, j: nat)
    requires IsPath(g, p) && i < j < |p|
    ensures Inside(g, p[i], p[j])
  {
    var parent := p[j - 1];
    assert Names(g[parent], p[j - 1 + 1]);
    ChildrenAreNamed(g[parent], p[j]);
    var c :| 0 <= c < |Children(g[parent])| && Children(g[parent])[c] == p[j];
    ChildIsInside(g, parent, c);
    if i < j - 1 {
      LaterIsInside(g, p, i, j - 1);
    }
  }

  lemma RepeatHasNoExpansion(g: Graph, p: seq<nat>)
    requires IsPath(g, p) && Repeats(p)
    ensures Expansion(g, p[0]).None?
  {
    var i, j :| 0 <= i < j < |p| && p[i] == p[j];
    LaterIsInside(g, p, i, j);
    if 0 < i {
      LaterIsInside(g, p, 0, i);
    }
  }

  lemma DistinctPathIsShort(g: Graph, p: seq<nat>)
    requires IsPath(g, p) && !Repeats(p)
    ensures |p| <= |g|
  {
    var visited := set k | 0 <= k < |p| :: p[k];
    DistinctCount(p);
    BoundedCount(visited, |g|);
  }

  lemma {:induction false} DistinctCount(p: seq<nat>)
    requires !Repeats(p)
    ensures |set k | 0 <= k < |p| :: p[k]| == |p|
  {
    if p == [] {
    } else {
      var front, last := p[..|p| - 1], p[|p| - 1];
      assert forall i, j :: 0 <= i < j < |front| ==> front[i] == p[i] && front[j] == p[j];
      DistinctCount(front);
      var before := set k | 0 <= k < |front| :: front[k];
      assert last !in before;
      assert (set k | 0 <= k < |p| :: p[k]) == before + {last};
    }
  }

  lemma {:induction false} BoundedCount(s: set<nat>, n: nat)
    requires forall k | k in s :: k < n
    ensures |s| <= n
  {
    if n == 0 {
      assert s == {};
    } else {
      BoundedCount(s - {n - 1}, n - 1);
      assert s <= (s - {n - 1}) + {n - 1};
      if n - 1 !in s {
        assert s == s - {n - 1};
      }
    }
  }

  lemma PathIsThere(g: Graph, p: seq<nat>)
    requires IsPath(g, p)
    ensures p != [] && p[|p| - 1] < |g|
  {
  }

  lemma OneFurther(g: Graph, p: seq<nat>, m: nat)
    requires IsPath(g, p) && m < |g| && Names(g[p[|p| - 1]], m)
    ensures IsPath(g, p + [m])
  {
    hide Names;
  }

  lemma {:induction false} NoRepeatHasExpansion(g: Graph, p: seq<nat>)
    requires WellFormed(g) && IsPath(g, p)
    requires forall q | IsPath(g, q) && p <= q :: !Repeats(q)
    ensures p != [] && p[|p| - 1] < |g| && Expansion(g, p[|p| - 1]).Some?
    decreases |g| - |p|
  {
    hide Unfolds, Children, Names, IsPath, Repeats;
    PathIsThere(g, p);
    var n := p[|p| - 1];
    var children := Children(g[n]);
    forall i | 0 <= i < |children|
      ensures Expansion(g, children[i]).Some?
    {
      var longer := p + [children[i]];
      ChildrenAreThere(g, n, i);
      ChildrenAreNamed(g[n], children[i]);
      assert children[i] in children;
      OneFurther(g, p, children[i]);
      DistinctPathIsShort(g, longer);
      NoRepeatHasExpansion(g, longer);
    }
    var kids := seq(|children|, i requires 0 <= i < |children| => Expansion(g, children[i]).value);
    UnfoldsByChildren(g, n, Tree(kids));
    ExpansionIs(g, n, Tree(kids));
  }

  /** A document has no finite expansion exactly when some path from its root meets a node twice. */
  lemma FiniteUnlessCyclic(g: Graph, root: nat)
    requires WellFormed(g) && root < |g|
    ensures Expansion(g, root).None? <==> exists p :: IsPath(g, p) && p[0] == root && Repeats(p)
  {
    forall p | IsPath(g, p) && p[0] == root && Repeats(p)
      ensures Expansion(g, root).None?
    {
      RepeatHasNoExpansion(g, p);
    }
    if forall p | IsPath(g, p) && p[0] == root :: !Repeats(p) {
      assert IsPath(g, [root]);
      NoRepeatHasExpansion(g, [root]);
    }
  }

  // ---- nesting depth of the constructed value ---------------------------------------------------------

  /** What the loader constructs; a `Dict` lists its values, the keys do not count for depth. */
  datatype Value = Plain | List(items: seq<Value>) | Dict(values: seq<Value>)

  /** The nesting depth, with no cut-off. */
  function Nesting(v: Value): nat
    decreases v, 1
  {
    match v
    case Plain => 0
    case List(items) => if items == [] then 0 else 1 + DeepestOf(items)
    case Dict(values) => if values == [] then 0 else 1 + DeepestOf(values)
  }

  function DeepestOf(vs: seq<Value>): nat
    decreases vs, 0
  {
    if vs == [] then 0
    else
      var first, rest := Nesting(vs[0]), DeepestOf(vs[1..]);
      if first >= rest then first else rest
  }

  /** From `v`, one inside the other, `k` steps down. */
  ghost predicate HasChain(v: Value, k: nat)
    decreases k
  {
    || k == 0
    || match v
       case Plain => false
       case List(items) => exists i | 0 <= i < |items| :: HasChain(items[i], k - 1)
       case Dict(values) => exists i | 0 <= i < |values| :: HasChain(values[i], k - 1)
  }

  lemma {:induction false} NestingIsLongestChain(v: Value, k: nat)
    ensures HasChain(v, k) <==> k <= Nesting(v)
    decreases v, 1
  {
    if k > 0 {
      match v
      case Plain =>
      case List(items) => DeepestHasChain(items, k - 1);
      case Dict(values) => DeepestHasChain(values, k - 1);
    }
  }

  lemma {:induction false} DeepestHasChain(vs: seq<Value>, k: nat)
    ensures (exists i | 0 <= i < |vs| :: HasChain(vs[i], k)) <==> vs != [] && k <= DeepestOf(vs)
    decreases vs, 0
  {
    if vs != [] {
      hide HasChain;
      var rest := vs[1..];
      NestingIsLongestChain(vs[0], k);
      DeepestHasChain(rest, k);
      if exists i | 0 <= i < |rest| :: HasChain(rest[i], k) {
        var i :| 0 <= i < |rest| && HasChain(rest[i], k);
        assert HasChain(vs[i + 1], k);
      }
      if i :| 0 < i < |vs| && HasChain(vs[i], k) {
        assert HasChain(rest[i - 1], k);
      }
    }
  }

  /** The walk the loader runs: it stops one level past the limit. */
  function DepthFrom(v: Value, level: nat): nat
    decreases v, 1
  {
    if level > MAX_DEPTH then level
    else
      match v
      case Plain => level
      case List(items) => MaxDepthFrom(items, level + 1, level)
      case Dict(values) => MaxDepthFrom(values, level + 1, level)
  }

  function MaxDepthFrom(vs: seq<Value>, level: nat, default: nat): nat
    decreases vs, 0
  {
    if vs == [] then default
    else if |vs| == 1 then DepthFrom(vs[0], level)
    else
      var first, rest := DepthFrom(vs[0], level), MaxDepthFrom(vs[1..], level, default);
      if first >= rest then first else rest
  }

  function Cut(depth: nat): nat {
    if depth > MAX_DEPTH then MAX_DEPTH + 1 else depth
  }

  /** The truncated walk returns the true depth cut at one past the limit. */
  lemma {:induction false} DepthIsCutNesting(v: Value, level: nat)
    requires level <= MAX_DEPTH + 1
    ensures DepthFrom(v, level) == Cut(level + Nesting(v))
    decreases v, 1
  {
    if level <= MAX_DEPTH {
      match v
      case Plain =>
      case List(items) => if items != [] { MaxDepthIsCut(items, level + 1, level); }
      case Dict(values) => if values != [] { MaxDepthIsCut(values, level + 1, level); }
    }
  }

  lemma {:induction false} MaxDepthIsCut(vs: seq<Value>, level: nat, default: nat)
    requires vs != [] && level <= MAX_DEPTH + 1
    ensures MaxDepthFrom(vs, level, default) == Cut(level + DeepestOf(vs))
    decreases vs, 0
  {
    DepthIsCutNesting(vs[0], level);
    if |vs| == 1 {
      assert vs[1..] == [];
    } else {
      MaxDepthIsCut(vs[1..], level, default);
    }
  }

  // ---- the guarded load -------------------------------------------------------------------------------

  /** What the parser composed: nothing readable, no document, or a graph and its root. */
  datatype Composed = Unreadable | NoDocument | Document(g: Graph, root: nat)

  datatype Refusal = TooManyBytes | Malformed | ExpansionBomb | TooDeep

  datatype Loaded = Nothing | Data(value: Value) | Refused(why: Refusal)

  ghost predicate FitsExpanded(g: Graph, n: nat) {
    exists t :: Unfolds(g, n, t) && Size(t) <= MAX_EXPANDED_NODES
  }

  /** The accept/refuse order.  `constructed` is the loader's answer, consulted only once the expansion
      is known to be small; `None` stands for a construction error. */
  method SafeLoad(bytes: nat, composed: Composed, constructed: Option<Value>) returns (r: Loaded)
    requires composed.Document? ==> WellFormed(composed.g) && composed.root < |composed.g|
    ensures r.Nothing? <==> bytes <= MAX_DOCUMENT_BYTES && composed.NoDocument?
    ensures r == Refused(TooManyBytes) <==> bytes > MAX_DOCUMENT_BYTES
    ensures r == Refused(ExpansionBomb) <==>
            bytes <= MAX_DOCUMENT_BYTES && composed.Document? && !FitsExpanded(composed.g, composed.root)
    ensures r.Data? <==>
            && bytes <= MAX_DOCUMENT_BYTES
            && composed.Document?
            && FitsExpanded(composed.g, composed.root)
            && constructed.Some?
            && Nesting(constructed.value) <= MAX_DEPTH
    ensures r.Data? ==> constructed == Some(r.value)
    ensures r == Refused(TooDeep) <==>
            && bytes <= MAX_DOCUMENT_BYTES
            && composed.Document?
            && FitsExpanded(composed.g, composed.root)
            && constructed.Some?
            && Nesting(constructed.value) > MAX_DEPTH
  {
    if bytes > MAX_DOCUMENT_BYTES {
      return Refused(TooManyBytes);
    }
    match composed
    case Unreadable => return Refused(Malformed);
    case NoDocument => return Nothing;
    case Document(g, root) =>
      var expanded, _ := MeasureDocument(g, root);
      if expanded > MAX_EXPANDED_NODES {
        return Refused(ExpansionBomb);
      }
      match constructed
      case None => return Refused(Malformed);
      case Some(value) =>
        DepthIsCutNesting(value, 0);
        if DepthFrom(value, 0) > MAX_DEPTH {
          return Refused(TooDeep);
        }
        return Data(value);
  }

  /** A measurement that starts with an empty memo, and the number of edges it followed. */
  method MeasureDocument(g: Graph, root: nat) returns (expanded: nat, ghost visits: nat)
    requires WellFormed(g) && root < |g|
    ensures expanded <= MAX_EXPANDED_NODES <==> FitsExpanded(g, root)
    ensures forall t | Unfolds(g, root, t) && Size(t) <= MAX_EXPANDED_NODES :: expanded == Size(t)
    ensures !FitsExpanded(g, root) ==> expanded == MAX_EXPANDED_NODES + 1
    ensures visits <= EdgeCount(g)
  {
    var meter := new Meter(g);
    assert meter.memo.Keys + meter.active == {};
    expanded := meter.ExpandedSize(root);
    visits := meter.visits;
    AllEdgesLeft(g, |g|);
    assert g[..|g|] == g;
    forall t | Unfolds(g, root, t) && Size(t) <= MAX_EXPANDED_NODES
      ensures expanded == Size(t)
    {
      ExpansionIs(g, root, t);
    }
  }
}
