/** The sort the host language provides: stable, by a given order.  Proved here once: it permutes, it
    sorts, and when no two members rank the same its result depends on the contents alone. */
module Sorting {

  ghost predicate TotalPreorder<T(!new)>(leq: (T, T) -> bool) {
    && (forall x, y :: leq(x, y) || leq(y, x))
    && (forall x, y, z :: leq(x, y) && leq(y, z) ==> leq(x, z))
  }

  /** No two different members of `s` rank the same. */
  ghost predicate AntisymmetricOn<T>(leq: (T, T) -> bool, s: seq<T>) {
    forall x, y | x in s && y in s :: leq(x, y) && leq(y, x) ==> x == y
  }

  predicate Sorted<T>(leq: (T, T) -> bool, s: seq<T>) {
    forall i, j :: 0 <= i < j < |s| ==> leq(s[i], s[j])
  }

  /** Puts `x` before the first member it may precede. */
  function Insert<T>(leq: (T, T) -> bool, x: T, s: seq<T>): seq<T> {
    if s == [] then [x]
    else if leq(x, s[0]) then [x] + s
    else [s[0]] + Insert(leq, x, s[1..])
  }

  function Sort<T>(leq: (T, T) -> bool, s: seq<T>): seq<T> {
    if s == [] then [] else Insert(leq, s[0], Sort(leq, s[1..]))
  }

  lemma SameMembers<T>(a: seq<T>, b: seq<T>)
    requires multiset(a) == multiset(b)
    ensures forall x :: x in a <==> x in b
  {
    assert forall x :: x in a <==> x in multiset(a);
  }

  lemma {:induction false} InsertAdds<T>(leq: (T, T) -> bool, x: T, s: seq<T>)
    ensures multiset(Insert(leq, x, s)) == multiset{x} + multiset(s)
  {
    if s == [] {
    } else {
      assert s == [s[0]] + s[1..];
      if !leq(x, s[0]) {
        InsertAdds(leq, x, s[1..]);
      }
    }
  }

  lemma {:induction false} InsertSorts<T(!new)>(leq: (T, T) -> bool, x: T, s: seq<T>)
    requires TotalPreorder(leq) && Sorted(leq, s)
    ensures Sorted(leq, Insert(leq, x, s))
  {
    if s == [] {
    } else if leq(x, s[0]) {
    } else {
      var rest := Insert(leq, x, s[1..]);
      InsertSorts(leq, x, s[1..]);
      InsertAdds(leq, x, s[1..]);
      forall y | y in rest
        ensures leq(s[0], y)
      {
        assert y in multiset(rest);
        assert y == x || y in multiset(s[1..]);
      }
    }
  }

  lemma {:induction false} SortPermutes<T>(leq: (T, T) -> bool, s: seq<T>)
    ensures multiset(Sort(leq, s)) == multiset(s)
    ensures |Sort(leq, s)| == |s|
  {
    if s != [] {
      SortPermutes(leq, s[1..]);
      InsertAdds(leq, s[0], Sort(leq, s[1..]));
      assert s == [s[0]] + s[1..];
    }
    assert |multiset(Sort(leq, s))| == |multiset(s)|;
  }

  lemma {:induction false} SortSorts<T(!new)>(leq: (T, T) -> bool, s: seq<T>)
    requires TotalPreorder(leq)
    ensures Sorted(leq, Sort(leq, s))
  {
    if s != [] {
      SortSorts(leq, s[1..]);
      InsertSorts(leq, s[0], Sort(leq, s[1..]));
    }
  }

  lemma HeadsAgree<T(!new)>(leq: (T, T) -> bool, s: seq<T>, t: seq<T>)
    requires (forall x :: leq(x, x)) && AntisymmetricOn(leq, s)
    requires Sorted(leq, s) && Sorted(leq, t) && s != [] && t != []
    requires t[0] in s && s[0] in t
    ensures s[0] == t[0]
  {
    var i :| 0 <= i < |s| && s[i] == t[0];
    var j :| 0 <= j < |t| && t[j] == s[0];
    assert leq(s[0], t[0]) && leq(t[0], s[0]);
    assert s[0] in s;
  }

  lemma TailContents<T>(leq: (T, T) -> bool, s: seq<T>)
    requires s != []
    ensures multiset(s[1..]) == multiset(s) - multiset{s[0]}
    ensures Sorted(leq, s) ==> Sorted(leq, s[1..])
    ensures AntisymmetricOn(leq, s) ==> AntisymmetricOn(leq, s[1..])
  {
    assert s == [s[0]] + s[1..];
    assert forall x | x in s[1..] :: x in s;
  }

  lemma SharedHeads<T>(s: seq<T>, t: seq<T>)
    requires multiset(s) == multiset(t) && s != []
    ensures t != [] && t[0] in s && s[0] in t
  {
    assert s[0] in multiset(t);
    assert t[0] in multiset(s);
  }

  lemma SameTails<T>(s: seq<T>, t: seq<T>)
    requires s != [] && t != [] && s[0] == t[0] && s[1..] == t[1..]
    ensures s == t
  {
    assert s == [s[0]] + s[1..] && t == [t[0]] + t[1..];
  }

  lemma {:induction false} SortedIsUnique<T(!new)>(leq: (T, T) -> bool, s: seq<T>, t: seq<T>)
    requires (forall x :: leq(x, x)) && AntisymmetricOn(leq, s)
    requires Sorted(leq, s) && Sorted(leq, t) && multiset(s) == multiset(t)
    ensures s == t
  {
    if s == [] {
      assert |multiset(t)| == 0;
    } else {
      SharedHeads(s, t);
      HeadsAgree(leq, s, t);
      TailContents(leq, s);
      TailContents(leq, t);
      SortedIsUnique(leq, s[1..], t[1..]);
      SameTails(s, t);
    }
  }

  /** Sorting members that all rank differently forgets where they came from. */
  lemma SortDependsOnContents<T(!new)>(leq: (T, T) -> bool, s: seq<T>, t: seq<T>)
    requires TotalPreorder(leq) && AntisymmetricOn(leq, s) && multiset(s) == multiset(t)
    ensures Sort(leq, s) == Sort(leq, t)
  {
    SortPermutes(leq, s);
    SortPermutes(leq, t);
    forall x | x in Sort(leq, s)
      ensures x in s
    {
      assert x in multiset(Sort(leq, s));
    }
    SortSorts(leq, s);
    SortSorts(leq, t);
    SortedIsUnique(leq, Sort(leq, s), Sort(leq, t));
  }

  /** A permutation of a non-empty sequence holds its first member somewhere; both go on without it. */
  lemma TakeOut<T>(a: seq<T>, b: seq<T>) returns (i: nat)
    requires multiset(a) == multiset(b) && a != []
    ensures i < |b| && b[i] == a[0]
    ensures multiset(b[..i] + b[i + 1..]) == multiset(a[1..])
  {
    assert a[0] in multiset(b);
    i :| 0 <= i < |b| && b[i] == a[0];
    assert b == b[..i] + ([b[i]] + b[i + 1..]);
    assert a == [a[0]] + a[1..];
    assert multiset(b) == multiset(b[..i]) + (multiset{b[i]} + multiset(b[i + 1..]));
    assert multiset(a) == multiset{a[0]} + multiset(a[1..]);
    assert multiset(b[..i] + b[i + 1..]) == multiset(b) - multiset{a[0]};
  }

  // ---- the order on paths: component by component, each by character ----------------------------------

  predicate LeqString(a: string, b: string) {
    a == [] || (b != [] && (a[0] < b[0] || (a[0] == b[0] && LeqString(a[1..], b[1..]))))
  }

  predicate LeqPath(a: seq<string>, b: seq<string>) {
    a == [] || (b != [] && if a[0] == b[0] then LeqPath(a[1..], b[1..]) else LeqString(a[0], b[0]))
  }

  lemma {:induction false} LeqStringTotal(a: string, b: string)
    ensures LeqString(a, b) || LeqString(b, a)
    ensures LeqString(a, b) && LeqString(b, a) ==> a == b
  {
    if a != [] && b != [] && a[0] == b[0] {
      LeqStringTotal(a[1..], b[1..]);
      assert a == [a[0]] + a[1..] && b == [b[0]] + b[1..];
    }
  }

  lemma {:induction false} LeqStringTransitive(a: string, b: string, c: string)
    requires LeqString(a, b) && LeqString(b, c)
    ensures LeqString(a, c)
  {
    if a != [] && a[0] == b[0] == c[0] {
      LeqStringTransitive(a[1..], b[1..], c[1..]);
    }
  }

  lemma {:induction false} LeqPathTotal(a: seq<string>, b: seq<string>)
    ensures LeqPath(a, b) || LeqPath(b, a)
    ensures LeqPath(a, b) && LeqPath(b, a) ==> a == b
  {
    if a != [] && b != [] {
      if a[0] == b[0] {
        LeqPathTotal(a[1..], b[1..]);
        assert a == [a[0]] + a[1..] && b == [b[0]] + b[1..];
      } else {
        LeqStringTotal(a[0], b[0]);
      }
    }
  }

  lemma {:induction false} LeqPathTransitive(a: seq<string>, b: seq<string>, c: seq<string>)
    requires LeqPath(a, b) && LeqPath(b, c)
    ensures LeqPath(a, c)
  {
    if a != [] {
      if a[0] == b[0] && b[0] == c[0] {
        LeqPathTransitive(a[1..], b[1..], c[1..]);
      } else if a[0] != b[0] && b[0] != c[0] {
        LeqStringTransitive(a[0], b[0], c[0]);
        if a[0] == c[0] {
          LeqStringTotal(a[0], b[0]);
        }
      }
    }
  }

  /** `a` comes before `b` at position `k`, the first where they differ. */
  predicate DifferAt(a: string, b: string, k: nat) {
    k < |a| && k < |b| && a[..k] == b[..k] && a[k] < b[k]
  }

  /** The order of texts: a prefix comes first, and otherwise the smaller character where they first differ. */
  lemma {:induction false} LeqStringIff(a: string, b: string)
    ensures LeqString(a, b) <==> a <= b || exists k: nat :: DifferAt(a, b, k)
  {
    if a != [] && b != [] && a[0] == b[0] {
      LeqStringIff(a[1..], b[1..]);
      assert a == [a[0]] + a[1..] && b == [b[0]] + b[1..];
      if k: nat :| DifferAt(a[1..], b[1..], k) {
        assert a[..k + 1] == [a[0]] + a[1..][..k] && b[..k + 1] == [b[0]] + b[1..][..k];
        assert DifferAt(a, b, k + 1);
      }
      if k: nat :| DifferAt(a, b, k) {
        assert k > 0 && a[1..][..k - 1] == a[..k][1..] && b[1..][..k - 1] == b[..k][1..];
        assert DifferAt(a[1..], b[1..], k - 1);
      }
    } else if a != [] && b != [] {
      if a[0] < b[0] {
        assert DifferAt(a, b, 0);
      }
      forall k: nat | 0 < k <= |a| && k <= |b|
        ensures a[..k] != b[..k]
      {
        assert a[..k][0] == a[0] && b[..k][0] == b[0];
      }
    }
  }

  predicate PathsDifferAt(a: seq<string>, b: seq<string>, k: nat) {
    k < |a| && k < |b| && a[..k] == b[..k] && a[k] != b[k] && LeqString(a[k], b[k])
  }

  /** Paths go by components: one above another comes first, and otherwise the smaller name where they first
      differ. */
  lemma {:induction false} LeqPathIff(a: seq<string>, b: seq<string>)
    ensures LeqPath(a, b) <==> a <= b || exists k: nat :: PathsDifferAt(a, b, k)
  {
    if a != [] && b != [] && a[0] == b[0] {
      LeqPathIff(a[1..], b[1..]);
      assert a == [a[0]] + a[1..] && b == [b[0]] + b[1..];
      if k: nat :| PathsDifferAt(a[1..], b[1..], k) {
        assert a[..k + 1] == [a[0]] + a[1..][..k] && b[..k + 1] == [b[0]] + b[1..][..k];
        assert PathsDifferAt(a, b, k + 1);
      }
      if k: nat :| PathsDifferAt(a, b, k) {
        assert k > 0 && a[1..][..k - 1] == a[..k][1..] && b[1..][..k - 1] == b[..k][1..];
        assert PathsDifferAt(a[1..], b[1..], k - 1);
      }
    } else if a != [] && b != [] {
      if LeqString(a[0], b[0]) {
        assert PathsDifferAt(a, b, 0);
      }
      forall k: nat | 0 < k <= |a| && k <= |b|
        ensures a[..k] != b[..k]
      {
        assert a[..k][0] == a[0] && b[..k][0] == b[0];
      }
    }
  }
}
