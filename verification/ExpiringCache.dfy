/** The expiring key-value table: rows carry the moment they expire, and a stale row is dropped when it
    is next read. */
module ExpiringCache {
  import opened Options

  const CACHE_SCHEMA_VERSION := "v5"

  datatype Row<V> = Row(value: V, expiresAt: real)

  function VersionedKey(key: string): string {
    CACHE_SCHEMA_VERSION + ":" + key
  }

  lemma VersionedKeysDiffer(a: string, b: string)
    requires VersionedKey(a) == VersionedKey(b)
    ensures a == b
  {
    assert a == VersionedKey(a)[|CACHE_SCHEMA_VERSION| + 1..];
    assert b == VersionedKey(b)[|CACHE_SCHEMA_VERSION| + 1..];
  }

  // ---- the table as a value ---------------------------------------------------------------------------

  type Rows<V> = map<string, Row<V>>

  datatype Op<V> =
    | Get(key: string)
    | Set(key: string, value: V, ttl: real)
    | Delete(key: string)
    | Clear
    | Cleanup

  /** One operation and the clock it read. */
  datatype Step<V> = Step(op: Op<V>, at: real)

  predicate Stale<V>(rows: Rows<V>, key: string, now: real) {
    key in rows && rows[key].expiresAt < now
  }

  function Fresh<V>(rows: Rows<V>, now: real): Rows<V> {
    map k | k in rows && rows[k].expiresAt >= now :: rows[k]
  }

  function Answer<V>(rows: Rows<V>, key: string, now: real): Option<V> {
    if key in rows && rows[key].expiresAt >= now then Some(rows[key].value) else None
  }

  function Apply<V>(rows: Rows<V>, step: Step<V>): Rows<V> {
    match step.op
    case Get(key) => if Stale(rows, key, step.at) then rows - {key} else rows
    case Set(key, value, ttl) => rows[key := Row(value, step.at + ttl)]
    case Delete(key) => rows - {key}
    case Clear => map[]
    case Cleanup => Fresh(rows, step.at)
  }

  function Run<V>(history: seq<Step<V>>): Rows<V> {
    if history == [] then map[] else Apply(Run(history[..|history| - 1]), history[|history| - 1])
  }

  // ---- the reference: a timed map ---------------------------------------------------------------------

  /** What was last set for `key` and not since deleted or cleared. */
  function LastWrite<V>(history: seq<Step<V>>, key: string): Option<Row<V>> {
    if history == [] then None
    else
      var last := history[|history| - 1];
      match last.op
      case Set(k, value, ttl) =>
        if k == key then Some(Row(value, last.at + ttl)) else LastWrite(history[..|history| - 1], key)
      case Delete(k) => if k == key then None else LastWrite(history[..|history| - 1], key)
      case Clear => None
      case _ => LastWrite(history[..|history| - 1], key)
  }

  function SpecAnswer<V>(history: seq<Step<V>>, key: string, now: real): Option<V> {
    match LastWrite(history, key)
    case Some(row) => if row.expiresAt >= now then Some(row.value) else None
    case None => None
  }

  /** Some read or cleanup after the last write of `key` found it past its expiry. */
  predicate Dropped<V>(history: seq<Step<V>>, key: string) {
    if history == [] then false
    else
      var front, last := history[..|history| - 1], history[|history| - 1];
      match last.op
      case Set(k, _, _) => k != key && Dropped(front, key)
      case Delete(k) => k != key && Dropped(front, key)
      case Clear => false
      case Get(k) => Dropped(front, key) || (k == key && Late(front, key, last.at))
      case Cleanup => Dropped(front, key) || Late(front, key, last.at)
  }

  predicate Late<V>(history: seq<Step<V>>, key: string, at: real) {
    LastWrite(history, key).Some? && LastWrite(history, key).value.expiresAt < at
  }

  /** For any clock whatever: the table holds exactly what was last written and never found stale. */
  lemma {:induction false} TableHoldsLastWrites<V>(history: seq<Step<V>>, key: string)
    ensures key in Run(history) <==> LastWrite(history, key).Some? && !Dropped(history, key)
    ensures key in Run(history) ==> Run(history)[key] == LastWrite(history, key).value
  {
    if history != [] {
      TableHoldsLastWrites(history[..|history| - 1], key);
    }
  }

  ghost predicate Monotone<V>(history: seq<Step<V>>, now: real) {
    && (forall i, j | 0 <= i < j < |history| :: history[i].at <= history[j].at)
    && (forall i | 0 <= i < |history| :: history[i].at <= now)
  }

  /** Under a clock that does not go back, whatever was dropped is expired now. */
  lemma {:induction false} DroppedIsExpired<V>(history: seq<Step<V>>, key: string, now: real)
    requires Monotone(history, now) && Dropped(history, key)
    ensures Late(history, key, now)
  {
    var front, last := history[..|history| - 1], history[|history| - 1];
    if Dropped(front, key) {
      DroppedIsExpired(front, key, last.at);
    }
  }

  /** The cache answers every read like the timed map. */
  lemma {:induction false} CacheRefinesTimedMap<V>(history: seq<Step<V>>, key: string, now: real)
    requires Monotone(history, now)
    ensures Answer(Run(history), key, now) == SpecAnswer(history, key, now)
  {
    TableHoldsLastWrites(history, key);
    if Dropped(history, key) {
      DroppedIsExpired(history, key, now);
    }
  }

  /** Whatever the clock does, an answer is never stale or wrong; it is missing exactly when an earlier
      read or cleanup saw a later time. */
  lemma AnyClockIsSafe<V>(history: seq<Step<V>>, key: string, now: real)
    ensures Answer(Run(history), key, now)
         == if Dropped(history, key) then None else SpecAnswer(history, key, now)
  {
    TableHoldsLastWrites(history, key);
  }

  /** A wall clock that is set back can lose an entry the timed map would still serve. */
  lemma ClockSetBackLosesEntries<V>(key: string, value: V) returns (history: seq<Step<V>>)
    ensures SpecAnswer(history, key, 5.0) == Some(value) && Answer(Run(history), key, 5.0) == None
  {
    var put, read := Step(Set(key, value, 10.0), 0.0), Step(Get(key), 20.0);
    history := [put, read];
    assert history[..1] == [put] && [put][..0] == [];
    assert LastWrite([put], key) == Some(Row(value, 10.0));
    assert Dropped(history, key);
    AnyClockIsSafe(history, key, 5.0);
  }

  function Writes<V>(history: seq<Step<V>>): seq<Step<V>> {
    if history == [] then []
    else
      var front, last := Writes(history[..|history| - 1]), history[|history| - 1];
      if last.op.Get? || last.op.Cleanup? then front else front + [last]
  }

  lemma {:induction false} OnlyWritesMatter<V>(history: seq<Step<V>>, key: string)
    ensures LastWrite(Writes(history), key) == LastWrite(history, key)
  {
    if history != [] {
      var front, last := history[..|history| - 1], history[|history| - 1];
      OnlyWritesMatter(front, key);
      OneMoreStep(Writes(front), front, last, key);
      assert front + [last] == history;
    }
  }

  /** What a step does to the last write depends on the last write alone. */
  lemma OneMoreStep<V>(a: seq<Step<V>>, b: seq<Step<V>>, step: Step<V>, key: string)
    requires LastWrite(a, key) == LastWrite(b, key)
    ensures LastWrite(a + [step], key) == LastWrite(b + [step], key)
    ensures step.op.Get? || step.op.Cleanup? ==> LastWrite(b + [step], key) == LastWrite(b, key)
  {
    assert (a + [step])[..|a|] == a && (b + [step])[..|b|] == b;
  }

  /** Reads and cleanups inserted anywhere change no later answer. */
  lemma ExtraReadsChangeNothing<V>(a: seq<Step<V>>, b: seq<Step<V>>, key: string, now: real)
    requires Monotone(a, now) && Monotone(b, now) && Writes(a) == Writes(b)
    ensures Answer(Run(a), key, now) == Answer(Run(b), key, now)
  {
    CacheRefinesTimedMap(a, key, now);
    CacheRefinesTimedMap(b, key, now);
    OnlyWritesMatter(a, key);
    OnlyWritesMatter(b, key);
  }

  // ---- the table as an object -------------------------------------------------------------------------

  function ExpiredKeys<V>(rows: Rows<V>, now: real): set<string> {
    set k | k in rows && rows[k].expiresAt < now
  }

  class SQLiteCache<V> {
    var rows: Rows<V>
    /** Every operation so far, with the clock it read. */
    ghost var history: seq<Step<V>>

    ghost predicate Valid()
      reads this
    {
      rows == Run(history)
    }

    constructor ()
      ensures Valid() && history == []
    {
      rows, history := map[], [];
    }

    ghost method Record(op: Op<V>, now: real)
      requires rows == Apply(Run(history), Step(op, now))
      modifies this`history
      ensures Valid() && history == old(history) + [Step(op, now)]
    {
      assert (history + [Step(op, now)])[..|history|] == history;
      history := history + [Step(op, now)];
    }

    method Get(key: string, now: real) returns (r: Option<V>)
      requires Valid()
      modifies this
      ensures Valid() && history == old(history) + [Step(Op.Get(VersionedKey(key)), now)]
      ensures r == Answer(old(rows), VersionedKey(key), now)
    {
      var vkey := VersionedKey(key);
      if vkey !in rows {
        r := None;
      } else if rows[vkey].expiresAt < now {
        rows := rows - {vkey};
        r := None;
      } else {
        r := Some(rows[vkey].value);
      }
      Record(Op.Get(vkey), now);
    }

    method Set(key: string, value: V, ttl: real, now: real)
      requires Valid()
      modifies this
      ensures Valid() && history == old(history) + [Step(Op.Set(VersionedKey(key), value, ttl), now)]
    {
      rows := rows[VersionedKey(key) := Row(value, now + ttl)];
      Record(Op.Set(VersionedKey(key), value, ttl), now);
    }

    method Delete(key: string, now: real)
      requires Valid()
      modifies this
      ensures Valid() && history == old(history) + [Step(Op.Delete(VersionedKey(key)), now)]
    {
      rows := rows - {VersionedKey(key)};
      Record(Op.Delete(VersionedKey(key)), now);
    }

    method Clear(now: real)
      requires Valid()
      modifies this
      ensures Valid() && history == old(history) + [Step(Op.Clear, now)]
    {
      rows := map[];
      Record(Op.Clear, now);
    }

    /** Removes exactly what `Stats` at the same instant calls expired, and says how much that was. */
    method Cleanup(now: real) returns (removed: nat)
      requires Valid()
      modifies this
      ensures Valid() && history == old(history) + [Step(Op.Cleanup, now)]
      ensures removed == |ExpiredKeys(old(rows), now)|
      ensures |rows| == |old(rows)| - removed && ExpiredKeys(rows, now) == {}
    {
      removed := |ExpiredKeys(rows, now)|;
      assert Fresh(rows, now).Keys == rows.Keys - ExpiredKeys(rows, now);
      rows := Fresh(rows, now);
      Record(Op.Cleanup, now);
    }

    method Stats(now: real) returns (total: nat, expired: nat)
      ensures total == |rows| && expired == |ExpiredKeys(rows, now)|
      ensures expired <= total
    {
      assert ExpiredKeys(rows, now) <= rows.Keys;
      SubsetIsSmaller(ExpiredKeys(rows, now), rows.Keys);
      total := |rows|;
      expired := |ExpiredKeys(rows, now)|;
    }
  }

  lemma SubsetIsSmaller(a: set<string>, b: set<string>)
    requires a <= b
    ensures |a| <= |b|
  {
    assert b == a + (b - a);
  }

  /** A read answers like the timed map of everything done before it. */
  method ReadBack<V>(cache: SQLiteCache<V>, key: string, now: real) returns (r: Option<V>)
    requires cache.Valid() && Monotone(cache.history, now)
    modifies cache
    ensures cache.Valid()
    ensures r == SpecAnswer(old(cache.history), VersionedKey(key), now)
  {
    CacheRefinesTimedMap(cache.history, VersionedKey(key), now);
    r := cache.Get(key, now);
  }
}
