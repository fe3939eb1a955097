/** Run keys, and the batch that prefills a run's results chunk by chunk. */
module Prescan {
  import opened Options
  import opened Sequences
  import opened Text

  // ---- what makes two requests the same measurement ---------------------------------------------------

  type Key = seq<string>

  datatype Identity = Confirmed(digest: string) | Unconfirmed(name: string)

  /** A confirmed manifest, else the hinted digest, else the reference that would be measured. */
  function RunKey(identity: Identity, platform: string, measured: string, hint: string): Key {
    match identity
    case Confirmed(digest) => ["confirmed", digest, platform]
    case Unconfirmed(name) =>
      if hint != "" then ["hinted", hint, platform, name] else ["unconfirmed", measured, platform]
  }

  /** Two requests are one measurement exactly when they are of one kind and agree in what identifies that
      kind: manifest and platform; hint, platform and name; or reference and platform. */
  lemma SameKeyIff(i: Identity, p: string, m: string, h: string, j: Identity, q: string, n: string, g: string)
    ensures RunKey(i, p, m, h) == RunKey(j, q, n, g) <==>
            && p == q
            && if i.Confirmed? || j.Confirmed? then i == j
               else if h != "" || g != "" then h == g && i.name == j.name
               else m == n
  {
    var a, b := RunKey(i, p, m, h), RunKey(j, q, n, g);
    assert a == b ==> a[0] == b[0] && a[0][0] == b[0][0] && |a| == |b| && a[1] == b[1] && a[2] == b[2];
  }

  function DedupOf(key: Key): string {
    Join(key, '|')
  }

  predicate Plain(key: Key) {
    key != [] && forall part | part in key :: '|' !in part
  }

  /** Joining with a bar loses nothing when no component contains one. */
  lemma DedupIsInjective(a: Key, b: Key)
    requires Plain(a) && Plain(b) && DedupOf(a) == DedupOf(b)
    ensures a == b
  {
    SplitOfJoin(a, '|');
    SplitOfJoin(b, '|');
  }

  lemma JoinedHead(key: Key)
    requires |key| >= 2
    ensures DedupOf(key) == key[0] + ['|'] + DedupOf(key[1..])
  {
  }

  /** Keys of different kinds never meet, whatever their components contain: the kind comes first. */
  lemma KindsNeverCollide(i: Identity, p: string, m: string, h: string, j: Identity, q: string, n: string, g: string)
    requires DedupOf(RunKey(i, p, m, h)) == DedupOf(RunKey(j, q, n, g))
    ensures RunKey(i, p, m, h)[0] == RunKey(j, q, n, g)[0]
  {
    var a, b := RunKey(i, p, m, h), RunKey(j, q, n, g);
    JoinedHead(a);
    JoinedHead(b);
    FirstSeparator(a[0], DedupOf(a[1..]), b[0], DedupOf(b[1..]), '|');
  }

  // ---- which texts can meet -----------------------------------------------------------------------------

  /** `os/architecture[/variant]`, each part as the platform's own check demands. */
  datatype Platform = Platform(os: string, architecture: string, variant: string)

  predicate IsStart(c: char) {
    'a' <= c <= 'z' || '0' <= c <= '9'
  }

  predicate IsPart(s: string) {
    && 1 <= |s| <= 32 && IsStart(s[0])
    && forall c | c in s :: IsStart(c) || c == '_' || c == '.' || c == '-'
  }

  predicate Legal(p: Platform) {
    IsPart(p.os) && IsPart(p.architecture) && (p.variant != "" ==> IsPart(p.variant))
  }

  function PlatformText(p: Platform): string {
    p.os + ['/'] + p.architecture + if p.variant == "" then "" else ['/'] + p.variant
  }

  lemma PlatformHasNoBar(p: Platform)
    requires Legal(p)
    ensures '|' !in PlatformText(p)
  {
  }

  lemma ThreeParts(kind: string, a: string, b: string)
    ensures DedupOf([kind, a, b]) == kind + ['|'] + (a + ['|'] + b)
  {
    assert DedupOf([b]) == b;
    assert [a, b][1..] == [b] && DedupOf([a, b]) == a + ['|'] + b;
    assert [kind, a, b][1..] == [a, b];
  }

  lemma FourParts(kind: string, a: string, b: string, c: string)
    ensures DedupOf([kind, a, b, c]) == kind + ['|'] + (a + ['|'] + (b + ['|'] + c))
  {
    ThreeParts(a, b, c);
    assert [kind, a, b, c][1..] == [a, b, c];
  }

  /** Confirmed and unconfirmed requests: the platform is legal, so it can be cut off at the end, and
      what is left is the digest or the reference, whatever that holds. */
  lemma LastPartIsPlatform(kind: string, a: string, p: Platform, b: string, q: Platform)
    requires Legal(p) && Legal(q)
    requires DedupOf([kind, a, PlatformText(p)]) == DedupOf([kind, b, PlatformText(q)])
    ensures a == b && PlatformText(p) == PlatformText(q)
  {
    ThreeParts(kind, a, PlatformText(p));
    ThreeParts(kind, b, PlatformText(q));
    PlatformHasNoBar(p);
    PlatformHasNoBar(q);
    var x, y := kind + ['|'] + a, kind + ['|'] + b;
    assert x + ['|'] + PlatformText(p) == kind + ['|'] + (a + ['|'] + PlatformText(p));
    assert y + ['|'] + PlatformText(q) == kind + ['|'] + (b + ['|'] + PlatformText(q));
    LastSeparator(x, PlatformText(p), y, PlatformText(q), '|');
    assert a == x[|kind| + 1..] && b == y[|kind| + 1..];
  }

  predicate IsHinted(i: Identity, hint: string) {
    i.Unconfirmed? && hint != ""
  }

  /** Unless both are hinted, two requests have the same text only if they have the same key. */
  lemma TextIdentifiesKey(i: Identity, p: Platform, m: string, h: string,
                          j: Identity, q: Platform, n: string, g: string)
    requires Legal(p) && Legal(q) && !(IsHinted(i, h) && IsHinted(j, g))
    ensures DedupOf(RunKey(i, PlatformText(p), m, h)) == DedupOf(RunKey(j, PlatformText(q), n, g))
       <==> RunKey(i, PlatformText(p), m, h) == RunKey(j, PlatformText(q), n, g)
  {
    var a, b := RunKey(i, PlatformText(p), m, h), RunKey(j, PlatformText(q), n, g);
    if DedupOf(a) == DedupOf(b) {
      KindsNeverCollide(i, PlatformText(p), m, h, j, PlatformText(q), n, g);
      LastPartIsPlatform(a[0], a[1], p, b[1], q);
    }
  }

  /** The first key's name hands over to the second key's hint: the longer hint goes on with a bar and the
      first platform, and what the name still holds before the second platform follows. */
  ghost predicate Shifted(hint: string, p: Platform, name: string, longer: string, q: Platform, rest: string) {
    exists w :: Shift(hint, p, name, longer, q, rest, w)
  }

  predicate Shift(hint: string, p: Platform, name: string, longer: string, q: Platform, rest: string, w: string) {
    && longer == hint + (['|'] + PlatformText(p) + w)
    && ['|'] + name == w + (['|'] + PlatformText(q) + ['|'] + rest)
  }

  /** Two hinted requests have the same text exactly when they have the same key or one's hint swallows
      the other's platform while the other's name holds a platform of its own. */
  lemma HintedTextsMeetIff(h: string, p: Platform, n: string, g: string, q: Platform, m: string)
    requires Legal(p) && Legal(q)
    ensures DedupOf(["hinted", h, PlatformText(p), n]) == DedupOf(["hinted", g, PlatformText(q), m])
       <==> || (h == g && PlatformText(p) == PlatformText(q) && n == m)
            || Shifted(h, p, n, g, q, m) || Shifted(g, q, m, h, p, n)
  {
    var x, y := Tail(h, p, n), Tail(g, q, m);
    FourParts("hinted", h, PlatformText(p), n);
    FourParts("hinted", g, PlatformText(q), m);
    assert "hinted" + ['|'] + x == "hinted" + ['|'] + y <==> x == y by {
      assert ("hinted" + ['|'] + x)[7..] == x && ("hinted" + ['|'] + y)[7..] == y;
    }
    if |h| < |g| {
      TailsMeetIff(h, p, n, g, q, m);
      assert !Shifted(g, q, m, h, p, n);
    } else if |g| < |h| {
      TailsMeetIff(g, q, m, h, p, n);
      assert !Shifted(h, p, n, g, q, m);
    } else {
      SameHints(h, p, n, g, q, m);
      assert !Shifted(h, p, n, g, q, m) && !Shifted(g, q, m, h, p, n);
    }
  }

  function Tail(hint: string, p: Platform, name: string): string {
    hint + ['|'] + (PlatformText(p) + ['|'] + name)
  }

  lemma SameHints(h: string, p: Platform, n: string, g: string, q: Platform, m: string)
    requires Legal(p) && Legal(q) && |h| == |g|
    ensures Tail(h, p, n) == Tail(g, q, m) <==> h == g && PlatformText(p) == PlatformText(q) && n == m
  {
    PlatformHasNoBar(p);
    PlatformHasNoBar(q);
    var a, b := PlatformText(p) + ['|'] + n, PlatformText(q) + ['|'] + m;
    if Tail(h, p, n) == Tail(g, q, m) {
      assert h == Tail(h, p, n)[..|h|] && g == Tail(g, q, m)[..|h|];
      assert a == Tail(h, p, n)[|h| + 1..] && b == Tail(g, q, m)[|h| + 1..];
      FirstSeparator(PlatformText(p), n, PlatformText(q), m, '|');
    }
  }

  lemma TailsMeetIff(h: string, p: Platform, n: string, g: string, q: Platform, m: string)
    requires Legal(p) && Legal(q) && |h| < |g|
    ensures Tail(h, p, n) == Tail(g, q, m) <==> Shifted(h, p, n, g, q, m)
  {
    hide Legal, PlatformText, Tail, Shifted;
    if Tail(h, p, n) == Tail(g, q, m) {
      MeetingIsShifted(h, p, n, g, q, m);
    }
    if Shifted(h, p, n, g, q, m) {
      ShiftedMeets(h, p, n, g, q, m);
    }
  }

  lemma MeetingIsShifted(h: string, p: Platform, n: string, g: string, q: Platform, m: string)
    requires Legal(p) && |h| < |g| && Tail(h, p, n) == Tail(g, q, m)
    ensures Shifted(h, p, n, g, q, m)
  {
    hide Legal, PlatformText;
    var head := h + (['|'] + PlatformText(p));
    assert Tail(h, p, n) == head + (['|'] + n);
    assert Tail(g, q, m) == g + (['|'] + PlatformText(q) + ['|'] + m);
    LongerHintTakesPlatform(h, p, n, g, q, m);
    var w := g[|head|..];
    SameEnds(head, ['|'] + n, w, ['|'] + PlatformText(q) + ['|'] + m);
    assert g == h + (['|'] + PlatformText(p) + w);
    assert Shift(h, p, n, g, q, m, w);
  }

  lemma ShiftedMeets(h: string, p: Platform, n: string, g: string, q: Platform, m: string)
    requires Shifted(h, p, n, g, q, m)
    ensures Tail(h, p, n) == Tail(g, q, m)
  {
    hide PlatformText;
    var head := h + (['|'] + PlatformText(p));
    var w :| Shift(h, p, n, g, q, m, w);
    assert Tail(h, p, n) == head + (['|'] + n);
    assert Tail(g, q, m) == g + (['|'] + PlatformText(q) + ['|'] + m);
    assert g == head + w;
    assert head + (w + (['|'] + PlatformText(q) + ['|'] + m)) == g + (['|'] + PlatformText(q) + ['|'] + m);
  }

  lemma SameEnds(head: string, x: string, w: string, y: string)
    requires head + x == (head + w) + y
    ensures x == w + y
  {
    assert x == (head + x)[|head|..] && w + y == ((head + w) + y)[|head|..];
  }

  /** A legal platform holds no bar, so the bar after the longer hint is not inside it. */
  lemma LongerHintTakesPlatform(h: string, p: Platform, n: string, g: string, q: Platform, m: string)
    requires Legal(p) && |h| < |g| && Tail(h, p, n) == Tail(g, q, m)
    ensures h + (['|'] + PlatformText(p)) <= g
  {
    hide Legal, PlatformText;
    var text, head := Tail(h, p, n), h + (['|'] + PlatformText(p));
    PlatformHasNoBar(p);
    assert text[|g|] == '|' && g == text[..|g|] && head == text[..|head|];
    forall k | |h| < k < |head|
      ensures text[k] != '|'
    {
      assert text[k] == PlatformText(p)[k - |h| - 1];
      assert text[k] in PlatformText(p);
    }
  }

  /** So it takes a bar in the hint of one request and one in the name of the other. */
  lemma HintedIsInjective(h: string, p: Platform, n: string, g: string, q: Platform, m: string)
    requires Legal(p) && Legal(q)
    requires ('|' !in h || '|' !in m) && ('|' !in g || '|' !in n)
    requires DedupOf(["hinted", h, PlatformText(p), n]) == DedupOf(["hinted", g, PlatformText(q), m])
    ensures h == g && PlatformText(p) == PlatformText(q) && n == m
  {
    HintedTextsMeetIff(h, p, n, g, q, m);
    if Shifted(h, p, n, g, q, m) {
      BarsOnBothSides(h, p, n, g, q, m);
    }
    if Shifted(g, q, m, h, p, n) {
      BarsOnBothSides(g, q, m, h, p, n);
    }
  }

  lemma BarsOnBothSides(h: string, p: Platform, n: string, g: string, q: Platform, m: string)
    requires Shifted(h, p, n, g, q, m)
    ensures '|' in g && '|' in n
  {
    var w :| Shift(h, p, n, g, q, m, w);
    assert g[|h|] == '|';
    var k := |w| + 1 + |PlatformText(q)|;
    assert (['|'] + n)[k] == '|' && n[k - 1] == (['|'] + n)[k];
  }

  predicate NameIsPlain(i: Identity) {
    i.Unconfirmed? ==> '|' !in i.name
  }

  /** With names that hold no bar, two requests have the same text exactly when they have the same key,
      whatever the hints hold. */
  lemma PlainNamesIdentifyKeys(i: Identity, p: Platform, m: string, h: string,
                               j: Identity, q: Platform, n: string, g: string)
    requires Legal(p) && Legal(q) && NameIsPlain(i) && NameIsPlain(j)
    ensures DedupOf(RunKey(i, PlatformText(p), m, h)) == DedupOf(RunKey(j, PlatformText(q), n, g))
       <==> RunKey(i, PlatformText(p), m, h) == RunKey(j, PlatformText(q), n, g)
  {
    hide Legal, PlatformText, DedupOf;
    if !(IsHinted(i, h) && IsHinted(j, g)) {
      TextIdentifiesKey(i, p, m, h, j, q, n, g);
    } else if DedupOf(RunKey(i, PlatformText(p), m, h)) == DedupOf(RunKey(j, PlatformText(q), n, g)) {
      HintedIsInjective(h, p, i.name, g, q, j.name);
    }
  }

  /** Two requests of one run, so for one platform, that the engine would be told are one: the first name
      and the second hint hold a bar. */
  lemma HintedTextsCanMeet()
    ensures
      var amd := Platform("linux", "amd64", "");
      var a := RunKey(Unconfirmed("linux/amd64|y"), PlatformText(amd), "r", "x");
      var b := RunKey(Unconfirmed("y"), PlatformText(amd), "r", "x|linux/amd64");
      Legal(amd) && a != b && DedupOf(a) == DedupOf(b)
  {
    var amd := Platform("linux", "amd64", "");
    assert PlatformText(amd) == "linux/amd64";
    assert Shift("x", amd, "linux/amd64|y", "x|linux/amd64", amd, "y", "");
    HintedTextsMeetIff("x", amd, "linux/amd64|y", "x|linux/amd64", amd, "y");
  }

  // ---- choosing what is missing -----------------------------------------------------------------------

  type Result = nat

  /** One requested image: its key, and the store's answer for it (None for a miss, or when the identity
      is not confirmed and the store is not asked). */
  datatype Request = Request(key: Key, mismatch: bool, stored: Option<Result>)

  /** The requests that need a scan: first of their key, not known already, not in the store. */
  function Pending(requests: seq<Request>, known: set<Key>): seq<Key> {
    if requests == [] then []
    else if requests[0].mismatch || requests[0].key in known then Pending(requests[1..], known)
    else
      var later := Pending(requests[1..], known + {requests[0].key});
      if requests[0].stored.Some? then later else [requests[0].key] + later
  }

  /** What the store supplies for the others. */
  function Stored(requests: seq<Request>, known: set<Key>): map<Key, Result> {
    if requests == [] then map[]
    else if requests[0].mismatch || requests[0].key in known then Stored(requests[1..], known)
    else
      var later := Stored(requests[1..], known + {requests[0].key});
      if requests[0].stored.Some? then later[requests[0].key := requests[0].stored.value] else later
  }

  predicate Unique(keys: seq<Key>) {
    forall i, j | 0 <= i < j < |keys| :: keys[i] != keys[j]
  }

  /** Every pending key is new, appears once, and is not one the store supplied. */
  lemma {:induction false} PendingIsFresh(requests: seq<Request>, known: set<Key>)
    ensures Unique(Pending(requests, known))
    ensures forall k | k in Pending(requests, known) :: k !in known && k !in Stored(requests, known)
    ensures forall k | k in Stored(requests, known) :: k !in known
  {
    if requests != [] {
      if requests[0].mismatch || requests[0].key in known {
        PendingIsFresh(requests[1..], known);
      } else {
        PendingIsFresh(requests[1..], known + {requests[0].key});
      }
    }
  }

  /** Nothing asked for is forgotten: it is a mismatch, known, stored or pending. */
  lemma {:induction false} EveryRequestIsPlaced(requests: seq<Request>, known: set<Key>, r: Request)
    requires r in requests && !r.mismatch
    ensures r.key in known || r.key in Stored(requests, known) || r.key in Pending(requests, known)
  {
    if r != requests[0] {
      if requests[0].mismatch || requests[0].key in known {
        EveryRequestIsPlaced(requests[1..], known, r);
      } else {
        EveryRequestIsPlaced(requests[1..], known + {requests[0].key}, r);
      }
    }
  }

  // ---- chunks -----------------------------------------------------------------------------------------

  /** Slices of `size`; the whole in one piece when no size is set.  A negative size gives no slices. */
  function Chunks<T>(items: seq<T>, size: int): seq<seq<T>>
    decreases |items|
  {
    if size < 0 then []
    else if size == 0 then [items]
    else if items == [] then []
    else if |items| <= size then [items]
    else [items[..size]] + Chunks(items[size..], size)
  }

  function Flatten<T>(chunks: seq<seq<T>>): seq<T> {
    if chunks == [] then [] else chunks[0] + Flatten(chunks[1..])
  }

  /** Chunking loses, repeats and reorders nothing; no chunk is empty or over the size, and only the last is
      under it.  A negative size
      gives no chunks, so nothing at all is batched. */
  lemma {:induction false} ChunksConcatenate<T>(items: seq<T>, size: int)
    ensures size < 0 ==> Chunks(items, size) == []
    ensures size >= 0 ==> Flatten(Chunks(items, size)) == items
    ensures items != [] ==> forall chunk | chunk in Chunks(items, size) :: chunk != []
    ensures size > 0 ==> forall chunk | chunk in Chunks(items, size) :: |chunk| <= size
    ensures size > 0 ==> forall i | 0 <= i < |Chunks(items, size)| - 1 :: |Chunks(items, size)[i]| == size
    ensures size == 0 ==> Chunks(items, size) == [items]
    decreases |items|
  {
    if size >= 0 {
      if size > 0 && |items| > size {
        ChunksConcatenate(items[size..], size);
        assert items[..size] + items[size..] == items;
        var all := Chunks(items, size);
        assert all[1..] == Chunks(items[size..], size);
      } else if size == 0 || items != [] {
        assert [items][1..] == [];
        assert Flatten([items]) == items + Flatten<T>([]);
      }
    }
  }

  // ---- the batch --------------------------------------------------------------------------------------

  datatype Config = Config(maxConcurrency: nat, bounded: bool)

  function ChunkSize(c: Config, asked: Option<int>): int {
    if asked.Some? && asked.value != 0 then asked.value
    else if !c.bounded then 0
    else if 2 * c.maxConcurrency >= 8 then 2 * c.maxConcurrency
    else 8
  }

  /** The size asked for, unless that is zero; without one everything at once when the budget is unbounded,
      and otherwise twice the concurrency but at least eight. */
  lemma ChunkSizeIs(c: Config, asked: Option<int>)
    ensures asked.Some? && asked.value != 0 ==> ChunkSize(c, asked) == asked.value
    ensures asked.None? || asked.value == 0 ==>
              if c.bounded then
                && ChunkSize(c, asked) >= 8 && ChunkSize(c, asked) >= 2 * c.maxConcurrency
                && ChunkSize(c, asked) in {8, 2 * c.maxConcurrency}
              else ChunkSize(c, asked) == 0
  {
  }

  /** What happens to one chunk: no time to start it, the time ran out during it, the engine declined,
      or it answered. */
  datatype Answer = NoTime | RanOut | Declined | Answered(scans: nat, results: seq<Result>)

  /** How many leading chunks were answered in full. */
  function Finished(chunks: seq<seq<Key>>, answers: nat -> Answer, from: nat): (n: nat)
    ensures n <= |chunks|
    decreases |chunks|
  {
    if chunks == [] || !answers(from).Answered? || |answers(from).results| != |chunks[0]| then 0
    else 1 + Finished(chunks[1..], answers, from + 1)
  }

  function ResultsOf(answers: nat -> Answer, from: nat, n: nat): seq<Result>
    decreases n
  {
    if n == 0 || !answers(from).Answered? then []
    else answers(from).results + ResultsOf(answers, from + 1, n - 1)
  }

  /** The engine's own count of scans over the first `n` chunks. */
  function ScanTotal(answers: nat -> Answer, n: nat): nat {
    if n == 0 then 0
    else ScanTotal(answers, n - 1) + if answers(n - 1).Answered? then answers(n - 1).scans else 0
  }

  function Shorter(chunk: seq<Key>, results: seq<Result>): (m: nat)
    ensures m <= |chunk| && m <= |results|
    ensures m == |chunk| || m == |results|
  {
    if |results| < |chunk| then |results| else |chunk|
  }

  /** Adds `results[i]` under `keys[i]`. */
  function Filled(m: map<Key, Result>, keys: seq<Key>, results: seq<Result>): map<Key, Result>
    requires |keys| == |results|
    decreases |keys|
  {
    if keys == [] then m else Filled(m[keys[0] := results[0]], keys[1..], results[1..])
  }

  lemma {:induction false} FilledAppend(
    m: map<Key, Result>, keys: seq<Key>, results: seq<Result>, more: seq<Key>, others: seq<Result>)
    requires |keys| == |results| && |more| == |others|
    ensures Filled(m, keys + more, results + others) == Filled(Filled(m, keys, results), more, others)
    decreases |keys|
  {
    if keys == [] {
      assert keys + more == more && results + others == others;
    } else {
      FilledAppend(m[keys[0] := results[0]], keys[1..], results[1..], more, others);
      assert (keys + more)[1..] == keys[1..] + more && (results + others)[1..] == results[1..] + others;
    }
  }

  /** With distinct keys each one ends up with the result at its own position, and nothing else moves. */
  lemma {:induction false} FilledByPosition(m: map<Key, Result>, keys: seq<Key>, results: seq<Result>)
    requires |keys| == |results| && Unique(keys)
    ensures forall i | 0 <= i < |keys| ::
              keys[i] in Filled(m, keys, results) && Filled(m, keys, results)[keys[i]] == results[i]
    ensures forall k | k !in keys :: k in Filled(m, keys, results) <==> k in m
    ensures forall k | k !in keys && k in m :: Filled(m, keys, results)[k] == m[k]
    decreases |keys|
  {
    if keys != [] {
      var first := m[keys[0] := results[0]];
      FilledByPosition(first, keys[1..], results[1..]);
      assert keys == [keys[0]] + keys[1..];
      assert keys[0] !in keys[1..];
    }
  }

  predicate Complete(chunk: seq<Key>, a: Answer) {
    a.Answered? && |a.results| == |chunk|
  }

  /** The prefilled results after the leading chunks that were answered in full. */
  function FillAll(m: map<Key, Result>, chunks: seq<seq<Key>>, answers: nat -> Answer, from: nat): map<Key, Result>
    decreases |chunks|
  {
    if chunks == [] || !Complete(chunks[0], answers(from)) then m
    else FillAll(Filled(m, chunks[0], answers(from).results), chunks[1..], answers, from + 1)
  }

  lemma {:induction false} FillAllIsFilled(
    m: map<Key, Result>, chunks: seq<seq<Key>>, answers: nat -> Answer, from: nat)
    ensures
      var n := Finished(chunks, answers, from);
      && |Flatten(chunks[..n])| == |ResultsOf(answers, from, n)|
      && FillAll(m, chunks, answers, from) == Filled(m, Flatten(chunks[..n]), ResultsOf(answers, from, n))
    decreases |chunks|
  {
    if chunks != [] && Complete(chunks[0], answers(from)) {
      var n := Finished(chunks, answers, from);
      var first := answers(from).results;
      FillAllIsFilled(Filled(m, chunks[0], first), chunks[1..], answers, from + 1);
      assert chunks[..n][1..] == chunks[1..][..n - 1];
      FilledAppend(m, chunks[0], first, Flatten(chunks[1..][..n - 1]), ResultsOf(answers, from + 1, n - 1));
    }
  }

  lemma {:induction false} FlattenPrefix<T>(chunks: seq<seq<T>>, n: nat)
    requires n <= |chunks|
    ensures Flatten(chunks[..n]) <= Flatten(chunks)
  {
    if n > 0 {
      FlattenPrefix(chunks[1..], n - 1);
      assert chunks[..n][1..] == chunks[1..][..n - 1];
    }
  }

  lemma PrefixIsUnique(keys: seq<Key>, front: seq<Key>)
    requires Unique(keys) && front <= keys
    ensures Unique(front)
  {
    assert forall i | 0 <= i < |front| :: front[i] == keys[i];
  }

  /** What the next request contributes. */
  lemma {:induction false} SelectStep(requests: seq<Request>, i: nat, known: set<Key>, m: map<Key, Result>,
                                      pending: seq<Key>)
    requires i < |requests|
    ensures
      var r, all, rest := requests[i], requests[i..], requests[i + 1..];
      if r.mismatch || r.key in known then
        Pending(all, known) == Pending(rest, known) && Stored(all, known) == Stored(rest, known)
      else
        && pending + Pending(all, known)
        == (if r.stored.Some? then pending else pending + [r.key]) + Pending(rest, known + {r.key})
        && m + Stored(all, known)
        == (if r.stored.Some? then m[r.key := r.stored.value] else m) + Stored(rest, known + {r.key})
        && |Stored(all, known)| == |Stored(rest, known + {r.key})| + if r.stored.Some? then 1 else 0
  {
    var r, rest := requests[i], requests[i + 1..];
    assert requests[i..][0] == r && requests[i..][1..] == rest;
    if !r.mismatch && r.key !in known {
      PendingIsFresh(rest, known + {r.key});
      if r.stored.Some? {
        AddedFirst(m, Stored(rest, known + {r.key}), r.key, r.stored.value);
      } else {
        Associates(pending, [r.key], Pending(rest, known + {r.key}));
      }
    }
  }

  lemma {:induction false} NothingToSelect(known: set<Key>, m: map<Key, Result>)
    ensures Pending([], known) == [] && |Stored([], known)| == 0 && m + Stored([], known) == m
  {
  }

  lemma {:induction false} AddedFirst(m: map<Key, Result>, later: map<Key, Result>, k: Key, v: Result)
    requires k !in later
    ensures m + later[k := v] == m[k := v] + later
    ensures |later[k := v]| == |later| + 1
  {
    assert later[k := v].Keys == later.Keys + {k};
  }

  lemma {:induction false} FlattenOneMore<T>(chunks: seq<seq<T>>, j: nat)
    requires j < |chunks|
    ensures Flatten(chunks[..j + 1]) == Flatten(chunks[..j]) + chunks[j]
  {
    if j == 0 {
      assert chunks[..1] == [chunks[0]] && chunks[..1][1..] == [];
    } else {
      FlattenOneMore(chunks[1..], j - 1);
      assert chunks[..j + 1][1..] == chunks[1..][..j] && chunks[..j][1..] == chunks[1..][..j - 1];
    }
  }

  /** What the next chunk contributes. */
  lemma {:induction false} FillStep(m: map<Key, Result>, chunks: seq<seq<Key>>, answers: nat -> Answer, j: nat)
    requires j < |chunks|
    ensures
      var complete := Complete(chunks[j], answers(j));
      && Finished(chunks[j..], answers, j) == (if complete then 1 + Finished(chunks[j + 1..], answers, j + 1) else 0)
      && FillAll(m, chunks[j..], answers, j)
      == (if complete then FillAll(Filled(m, chunks[j], answers(j).results), chunks[j + 1..], answers, j + 1) else m)
    ensures answers(j).Answered? ==> ScanTotal(answers, j + 1) == ScanTotal(answers, j) + answers(j).scans
    ensures Flatten(chunks[..j + 1]) == Flatten(chunks[..j]) + chunks[j]
  {
    assert chunks[j..][0] == chunks[j] && chunks[j..][1..] == chunks[j + 1..];
    FlattenOneMore(chunks, j);
  }

  lemma {:induction false} NothingToFill(m: map<Key, Result>, answers: nat -> Answer, j: nat)
    ensures Finished([], answers, j) == 0 && FillAll(m, [], answers, j) == m
    ensures ScanTotal(answers, 0) == 0 && Flatten<Key>([]) == []
  {
  }

  /** What was known at first and what has been seen since is all that a request is compared with. */
  ghost predicate Tracks(held: set<Key>, first: set<Key>, seen: set<Key>) {
    first <= held <= first + seen
  }

  lemma NothingSeen(first: set<Key>)
    ensures Tracks(first, first, {})
  {
  }

  lemma TracksMore(finished: map<Key, Result>, prefetched: map<Key, Result>, first: set<Key>, seen: set<Key>,
                   k: Key, v: Result)
    requires Tracks(finished.Keys + prefetched.Keys, first, seen)
    ensures k in first + seen <==> k in seen || k in finished || k in prefetched
    ensures (first + seen) + {k} == first + (seen + {k})
    ensures Tracks(finished.Keys + prefetched.Keys, first, seen + {k})
    ensures Tracks(finished.Keys + prefetched[k := v].Keys, first, seen + {k})
  {
    assert prefetched[k := v].Keys == prefetched.Keys + {k};
  }

  datatype Outcome = Handled(targets: nat) | Raised

  class Batch {
    var finished: map<Key, Result>
    var prefetched: map<Key, Result>
    var cacheHits: nat
    var scans: nat

    function Known(): set<Key>
      reads this
    {
      finished.Keys + prefetched.Keys
    }

    /** Serves what the store has and lists what is left to scan. */
    method Select(requests: seq<Request>) returns (pending: seq<Key>)
      modifies this
      ensures pending == Pending(requests, old(Known()))
      ensures prefetched == old(prefetched) + Stored(requests, old(Known()))
      ensures cacheHits == old(cacheHits) + |Stored(requests, old(Known()))|
      ensures finished == old(finished) && scans == old(scans)
    {
      hide Pending, Stored, Tracks;
      pending := [];
      var seen: set<Key> := {};
      ghost var first := Known();
      ghost var all := old(prefetched) + Stored(requests, first);
      var i := 0;
      assert requests[0..] == requests && first + {} == first;
      NothingSeen(first);
      while i < |requests|
        invariant 0 <= i <= |requests|
        invariant finished == old(finished) && scans == old(scans)
        invariant Tracks(finished.Keys + prefetched.Keys, first, seen)
        invariant Pending(requests, first) == pending + Pending(requests[i..], first + seen)
        invariant prefetched + Stored(requests[i..], first + seen) == all
        invariant cacheHits + |Stored(requests[i..], first + seen)| == old(cacheHits) + |Stored(requests, first)|
      {
        var request := requests[i];
        SelectStep(requests, i, first + seen, prefetched, pending);
        TracksMore(finished, prefetched, first, seen, request.key,
                   if request.stored.Some? then request.stored.value else 0);
        i := i + 1;
        if request.mismatch || request.key in seen || request.key in finished || request.key in prefetched {
          continue;
        }
        seen := seen + {request.key};
        match request.stored
        case Some(v) =>
          cacheHits := cacheHits + 1;
          prefetched := prefetched[request.key := v];
        case None =>
          pending := pending + [request.key];
      }
      assert requests[|requests|..] == [];
      NothingToSelect(first + seen, prefetched);
    }

    /** One engine batch, cut into chunks under a bounded budget.  An answer of the wrong length raises, and
        leaves in place what could be paired with the keys of its chunk. */
    method Prescan(requests: seq<Request>, c: Config, asked: Option<int>, answers: nat -> Answer)
      returns (r: Outcome)
      modifies this
      ensures finished == old(finished)
      ensures Pending(requests, old(Known())) == [] ==>
                r == Handled(0) && prefetched == old(prefetched) + Stored(requests, old(Known()))
      ensures Pending(requests, old(Known())) != [] ==>
        var chunks := Chunks(Pending(requests, old(Known())), ChunkSize(c, asked));
        var n := Finished(chunks, answers, 0);
        && (r.Handled? ==>
              && r.targets == |Flatten(chunks[..n])|
              && prefetched == FillAll(old(prefetched) + Stored(requests, old(Known())), chunks, answers, 0))
        && (r.Raised? <==>
              n < |chunks| && answers(n).Answered? && |answers(n).results| != |chunks[n]|)
        && (r.Handled? ==> scans == old(scans) + ScanTotal(answers, n))
        && (r.Raised? ==>
              var m := Shorter(chunks[n], answers(n).results);
              && scans == old(scans) + ScanTotal(answers, n + 1)
              && prefetched == Filled(FillAll(old(prefetched) + Stored(requests, old(Known())), chunks, answers, 0),
                                      chunks[n][..m], answers(n).results[..m]))
    {
      hide Pending, Stored, Finished, FillAll, ScanTotal, Flatten, Filled, Chunks, ChunkSize, Shorter;
      var pending := Select(requests);
      if pending == [] {
        return Handled(0);
      }
      var chunks := Chunks(pending, ChunkSize(c, asked));
      r := Fill(chunks, answers);
    }

    method Fill(chunks: seq<seq<Key>>, answers: nat -> Answer) returns (r: Outcome)
      modifies this
      ensures finished == old(finished)
      ensures
        var n := Finished(chunks, answers, 0);
        && (r.Handled? ==>
              r.targets == |Flatten(chunks[..n])| && prefetched == FillAll(old(prefetched), chunks, answers, 0))
        && (r.Raised? <==> n < |chunks| && answers(n).Answered? && |answers(n).results| != |chunks[n]|)
        && (r.Handled? ==> scans == old(scans) + ScanTotal(answers, n))
        && (r.Raised? ==>
              var m := Shorter(chunks[n], answers(n).results);
              && scans == old(scans) + ScanTotal(answers, n + 1)
              && prefetched == Filled(FillAll(old(prefetched), chunks, answers, 0),
                                      chunks[n][..m], answers(n).results[..m]))
    {
      hide Finished, FillAll, ScanTotal, Flatten, Filled, Shorter;
      var handled, j := 0, 0;
      ghost var all := Finished(chunks, answers, 0);
      assert chunks[0..] == chunks && chunks[..0] == [];
      NothingToFill(prefetched, answers, 0);
      while j < |chunks|
        invariant 0 <= j <= |chunks| && finished == old(finished)
        invariant j + Finished(chunks[j..], answers, j) == all
        invariant handled == |Flatten(chunks[..j])|
        invariant scans == old(scans) + ScanTotal(answers, j)
        invariant FillAll(prefetched, chunks[j..], answers, j) == FillAll(old(prefetched), chunks, answers, 0)
      {
        var chunk := chunks[j];
        FillStep(prefetched, chunks, answers, j);
        match answers(j)
        case NoTime => break;
        case RanOut => break;
        case Declined => break;
        case Answered(n, results) =>
          scans := scans + n;
          if |results| != |chunk| {
            // The pairing is strict: what could be paired is kept, then it raises.
            var m := Shorter(chunk, results);
            prefetched := Filled(prefetched, chunk[..m], results[..m]);
            return Raised;
          }
          prefetched := Filled(prefetched, chunk, results);
          handled := handled + |chunk|;
          j := j + 1;
      }
      assert chunks[|chunks|..] == [];
      NothingToFill(prefetched, answers, j);
      return Handled(handled);
    }
  }

  /** What a batch leaves behind: the answered chunks are a prefix of the pending list, and each key of
      that prefix holds the result the engine gave at its position. */
  lemma FinishedChunksSurvive(
    m: map<Key, Result>, requests: seq<Request>, known: set<Key>, size: int, answers: nat -> Answer)
    ensures
      var pending := Pending(requests, known);
      var chunks := Chunks(pending, size);
      var n := Finished(chunks, answers, 0);
      var done, results := Flatten(chunks[..n]), ResultsOf(answers, 0, n);
      && done <= pending && |results| == |done|
      && (forall i | 0 <= i < |done| ::
            done[i] in FillAll(m, chunks, answers, 0) && FillAll(m, chunks, answers, 0)[done[i]] == results[i])
      && (forall k | k !in done :: k in FillAll(m, chunks, answers, 0) <==> k in m)
  {
    var pending := Pending(requests, known);
    var chunks := Chunks(pending, size);
    var n := Finished(chunks, answers, 0);
    FillAllIsFilled(m, chunks, answers, 0);
    FlattenPrefix(chunks, n);
    ChunksConcatenate(pending, size);
    PendingIsFresh(requests, known);
    PrefixIsUnique(pending, Flatten(chunks[..n]));
    FilledByPosition(m, Flatten(chunks[..n]), ResultsOf(answers, 0, n));
  }
}
