/** Sorting by a small rank: the result is the members of each rank in turn, in their old order, and a
    prefix of it cuts the ranks from the last one up. */
module RankedSample {
  import opened Sequences
  import opened Sorting

  /** The members of rank `r`, in order. */
  function At<T>(rank: T -> nat, s: seq<T>, r: nat): (t: seq<T>)
    ensures |t| <= |s|
  {
    if s == [] then []
    else (if rank(s[0]) == r then [s[0]] else []) + At(rank, s[1..], r)
  }

  /** The members of ranks `lo` up to `hi`, rank by rank. */
  function Levels<T>(rank: T -> nat, s: seq<T>, lo: nat, hi: nat): seq<T>
    requires lo <= hi
    decreases hi
  {
    if lo == hi then [] else Levels(rank, s, lo, hi - 1) + At(rank, s, hi - 1)
  }

  ghost predicate ByRank<T(!new)>(leq: (T, T) -> bool, rank: T -> nat) {
    forall x, y :: leq(x, y) <==> rank(x) <= rank(y)
  }

  lemma {:induction false} AtHasRank<T>(rank: T -> nat, s: seq<T>, r: nat)
    ensures forall y | y in At(rank, s, r) :: rank(y) == r && y in s
  {
    if s != [] {
      AtHasRank(rank, s[1..], r);
    }
  }

  lemma {:induction false} LevelsHaveRank<T>(rank: T -> nat, s: seq<T>, lo: nat, hi: nat)
    requires lo <= hi
    ensures forall y | y in Levels(rank, s, lo, hi) :: lo <= rank(y) < hi
    decreases hi
  {
    if lo < hi {
      LevelsHaveRank(rank, s, lo, hi - 1);
      AtHasRank(rank, s, hi - 1);
    }
  }

  lemma {:induction false} LevelsSplit<T>(rank: T -> nat, s: seq<T>, lo: nat, mid: nat, hi: nat)
    requires lo <= mid <= hi
    ensures Levels(rank, s, lo, hi) == Levels(rank, s, lo, mid) + Levels(rank, s, mid, hi)
    decreases hi
  {
    if mid < hi {
      LevelsSplit(rank, s, lo, mid, hi - 1);
      Associates(Levels(rank, s, lo, mid), Levels(rank, s, mid, hi - 1), At(rank, s, hi - 1));
    }
  }

  lemma {:induction false} InsertBetween<T>(leq: (T, T) -> bool, x: T, a: seq<T>, b: seq<T>)
    requires forall y | y in a :: !leq(x, y)
    requires forall y | y in b :: leq(x, y)
    ensures Insert(leq, x, a + b) == a + ([x] + b)
  {
    if a == [] {
      assert a + b == b;
      assert b != [] ==> b[0] in b;
    } else {
      assert a[0] in a;
      assert (a + b)[1..] == a[1..] + b;
      InsertBetween(leq, x, a[1..], b);
      assert [a[0]] + (a[1..] + ([x] + b)) == a + ([x] + b);
    }
  }

  lemma AtCons<T>(rank: T -> nat, x: T, s: seq<T>, r: nat)
    ensures At(rank, [x] + s, r) == (if rank(x) == r then [x] else []) + At(rank, s, r)
  {
    assert ([x] + s)[1..] == s;
  }

  /** Putting a member in front changes no rank but its own. */
  lemma {:induction false} LevelsConsElsewhere<T>(rank: T -> nat, x: T, s: seq<T>, lo: nat, hi: nat)
    requires lo <= hi && !(lo <= rank(x) < hi)
    ensures Levels(rank, [x] + s, lo, hi) == Levels(rank, s, lo, hi)
    decreases hi
  {
    if lo < hi {
      LevelsConsElsewhere(rank, x, s, lo, hi - 1);
      AtCons(rank, x, s, hi - 1);
      assert [] + At(rank, s, hi - 1) == At(rank, s, hi - 1);
    }
  }

  lemma OneLevel<T>(rank: T -> nat, s: seq<T>, r: nat)
    ensures Levels(rank, s, r, r + 1) == At(rank, s, r)
  {
    assert Levels(rank, s, r, r) == [];
  }

  lemma LevelsCons<T>(rank: T -> nat, x: T, s: seq<T>, n: nat)
    requires rank(x) < n
    ensures
      var r := rank(x);
      Levels(rank, [x] + s, 0, n) == Levels(rank, s, 0, r) + ([x] + Levels(rank, s, r, n))
  {
    var r := rank(x);
    var t := [x] + s;
    LevelsConsElsewhere(rank, x, s, 0, r);
    LevelsConsElsewhere(rank, x, s, r + 1, n);
    AtCons(rank, x, s, r);
    OneLevel(rank, s, r);
    OneLevel(rank, t, r);
    LevelsSplit(rank, t, 0, r, n);
    LevelsSplit(rank, t, r, r + 1, n);
    LevelsSplit(rank, s, r, r + 1, n);
    Associates([x], At(rank, s, r), Levels(rank, s, r + 1, n));
  }

  lemma {:induction false} SortIsByLevel<T(!new)>(leq: (T, T) -> bool, rank: T -> nat, s: seq<T>, n: nat)
    requires ByRank(leq, rank) && forall y | y in s :: rank(y) < n
    ensures Sort(leq, s) == Levels(rank, s, 0, n)
  {
    if s == [] {
      NoLevels(rank, s, n);
    } else {
      var x, rest := s[0], s[1..];
      var r := rank(x);
      SortIsByLevel(leq, rank, rest, n);
      LevelsSplit(rank, rest, 0, r, n);
      LevelsHaveRank(rank, rest, 0, r);
      LevelsHaveRank(rank, rest, r, n);
      InsertBetween(leq, x, Levels(rank, rest, 0, r), Levels(rank, rest, r, n));
      LevelsCons(rank, x, rest, n);
      assert s == [x] + rest;
    }
  }

  lemma {:induction false} NoLevels<T>(rank: T -> nat, s: seq<T>, n: nat)
    requires s == []
    ensures Levels(rank, s, 0, n) == []
  {
    if n > 0 {
      NoLevels(rank, s, n - 1);
    }
  }

  // ---- a prefix of the sorted sequence ----------------------------------------------------------------

  lemma {:induction false} AtAppend<T>(rank: T -> nat, a: seq<T>, b: seq<T>, r: nat)
    ensures At(rank, a + b, r) == At(rank, a, r) + At(rank, b, r)
  {
    if a == [] {
      assert a + b == b;
    } else {
      AtAppend(rank, a[1..], b, r);
      assert (a + b)[1..] == a[1..] + b;
      Associates(if rank(a[0]) == r then [a[0]] else [], At(rank, a[1..], r), At(rank, b, r));
    }
  }

  lemma {:induction false} AtElsewhere<T>(rank: T -> nat, a: seq<T>, r: nat)
    requires forall y | y in a :: rank(y) != r
    ensures At(rank, a, r) == []
  {
    if a != [] {
      assert a[0] in a;
      AtElsewhere(rank, a[1..], r);
    }
  }

  lemma {:induction false} AtEverywhere<T>(rank: T -> nat, a: seq<T>, r: nat)
    requires forall y | y in a :: rank(y) == r
    ensures At(rank, a, r) == a
  {
    if a != [] {
      assert a[0] in a;
      AtEverywhere(rank, a[1..], r);
      assert a == [a[0]] + a[1..];
    }
  }

  function Min(a: nat, b: nat): nat {
    if a <= b then a else b
  }

  /** How many of `count` fit once `before` places of `room` are gone. */
  function Fitting(count: nat, before: nat, room: nat): nat {
    if before >= room then 0 else Min(count, room - before)
  }

  function Prefix<T>(s: seq<T>, n: nat): seq<T> {
    s[..Min(n, |s|)]
  }

  lemma PrefixOfThree<T>(a: seq<T>, b: seq<T>, c: seq<T>, n: nat) returns (rest: seq<T>)
    ensures Prefix(a + (b + c), n) == Prefix(a, n) + (b[..Fitting(|b|, |a|, n)] + rest)
    ensures forall y | y in rest :: y in c
  {
    if n <= |a| + |b| {
      rest := [];
    } else {
      rest := Prefix(c, n - |a| - |b|);
    }
  }

  /** Of each rank the prefix keeps the first members, as many as the places left by better ranks allow. */
  lemma EachLevelKeepsWhatFits<T(!new)>(rank: T -> nat, s: seq<T>, r: nat, n: nat, room: nat)
    requires r < n
    ensures
      At(rank, Prefix(Levels(rank, s, 0, n), room), r)
      == At(rank, s, r)[..Fitting(|At(rank, s, r)|, |Levels(rank, s, 0, r)|, room)]
  {
    var a, b, c := Levels(rank, s, 0, r), At(rank, s, r), Levels(rank, s, r + 1, n);
    LevelsSplit(rank, s, 0, r, n);
    LevelsSplit(rank, s, r, r + 1, n);
    OneLevel(rank, s, r);
    var rest := PrefixOfThree(a, b, c, room);
    LevelsHaveRank(rank, s, 0, r);
    LevelsHaveRank(rank, s, r + 1, n);
    AtHasRank(rank, s, r);
    var kept := b[..Fitting(|b|, |a|, room)];
    AtElsewhere(rank, Prefix(a, room), r);
    AtEverywhere(rank, kept, r);
    AtElsewhere(rank, rest, r);
    AtAppend(rank, Prefix(a, room), kept + rest, r);
    AtAppend(rank, kept, rest, r);
  }
}
