/** What becomes of each call of `measure`, and how the service's counters count the calls. */
module MeasurementCalls {
  import opened Measurement
  import opened Options
  import SF = SingleFlight

  // ---- calls and callers ------------------------------------------------------------------------------

  predicate IsCallOf(calls: seq<Call>, i: nat, k: nat) {
    i < |calls| && calls[i] == Flying(k)
  }

  ghost predicate HasCall(calls: seq<Call>, k: nat) {
    exists i: nat :: IsCallOf(calls, i, k)
  }

  /** The callers of the flight table are the calls that fly, one for one. */
  ghost predicate OneForOne(calls: seq<Call>, callers: nat) {
    && (forall i: nat, k: nat | IsCallOf(calls, i, k) :: k < callers)
    && (forall i: nat, j: nat, k: nat | IsCallOf(calls, i, k) && IsCallOf(calls, j, k) :: i == j)
    && (forall k: nat | k < callers :: HasCall(calls, k))
  }

  ghost predicate CallInv(s: State) {
    OneForOne(s.calls, |s.sf.callers|)
  }

  predicate Flies(s: State, e: Event) {
    e.Arrive? && !e.mismatch && e.key !in s.prefetched && e.key !in s.finished
  }

  function NewCalls(s: State, e: Event): seq<Call> {
    if !e.Arrive? then []
    else if e.mismatch then [Mismatch]
    else if e.key in s.prefetched then [Prefetched(e.key, s.prefetched[e.key])]
    else if e.key in s.finished then [Remembered(e.key, s.finished[e.key])]
    else [Flying(|s.sf.callers|)]
  }

  lemma CallersGrow(s: SF.State, e: SF.Event)
    requires SF.InRange(s) && SF.Enabled(s, e)
    ensures |SF.Apply(s, e).callers| == |s.callers| + One(e.Enter?)
  {
  }

  lemma CallsGrow(c: Config, s: State, e: Event)
    requires SF.InRange(s.sf) && Enabled(c, s, e)
    ensures Apply(c, s, e).calls == s.calls + NewCalls(s, e)
    ensures |Apply(c, s, e).sf.callers| == |s.sf.callers| + One(Flies(s, e))
  {
    CallsAppended(c, s, e);
    hide Apply, Enabled, SF.Apply, SF.InRange, SF.Enabled;
    TakesItsStep(c, s, e);
    match FlightEvent(c, s, e)
    case None =>
    case Some(x) => CallersGrow(s.sf, x);
  }

  lemma CallsAppended(c: Config, s: State, e: Event)
    requires SF.InRange(s.sf) && Enabled(c, s, e)
    ensures Apply(c, s, e).calls == s.calls + NewCalls(s, e)
  {
    hide SF.Apply, SF.InRange, SF.Enabled, Allows, Expired;
  }

  lemma OneCallMore(calls: seq<Call>, callers: nat, call: Call)
    requires OneForOne(calls, callers) && (call.Flying? ==> call.c == callers)
    ensures OneForOne(calls + [call], callers + One(call.Flying?))
  {
    var longer := calls + [call];
    assert forall i: nat, k: nat | i < |calls| :: IsCallOf(longer, i, k) <==> IsCallOf(calls, i, k);
    forall k: nat | k < callers + One(call.Flying?)
      ensures HasCall(longer, k)
    {
      if k < callers {
        assert HasCall(calls, k);
        var i: nat :| IsCallOf(calls, i, k);
        assert IsCallOf(longer, i, k);
      } else {
        assert IsCallOf(longer, |calls|, k);
      }
    }
  }

  lemma CallInvKept(c: Config, s: State, e: Event)
    requires SF.InRange(s.sf) && Enabled(c, s, e) && CallInv(s)
    ensures CallInv(Apply(c, s, e))
  {
    hide Apply, Enabled, SF.InRange, OneForOne;
    CallsGrow(c, s, e);
    if e.Arrive? {
      OneCallMore(s.calls, |s.sf.callers|, NewCalls(s, e)[0]);
    } else {
      assert s.calls + [] == s.calls;
    }
  }

  lemma {:induction false} CallInvHolds(c: Config, start: real, run: seq<Moment>, s: State)
    requires Reaches(c, start, run, s)
    ensures CallInv(s)
  {
    hide Apply, Enabled, SF.InRange;
    if run != [] {
      var before := LastStep(c, Init(start), run, s);
      CallInvHolds(c, start, run[..|run| - 1], before);
      CallInvKept(c, before, run[|run| - 1].event);
    }
  }

  // ---- the case of a call -----------------------------------------------------------------------------

  /** How a call went: one of the answers `measure` gives, or none.  `Answered` calls got what their own
      work ended in; a duplicate got somebody else's.  `Failed` calls were raised or cancelled, `GaveUp`
      calls left on their own, and `Unanswered` calls still wait. */
  datatype Case = Mismatched | FromBatch | Duplicate | Answered(how: Ending) | Failed | GaveUp | Unanswered

  ghost predicate Sound(c: Config, s: State) {
    Inv(c, s) && CallInv(s)
  }

  lemma ValueMeansEnded(c: Config, s: State, k: nat)
    requires Inv(c, s) && k < |s.sf.callers|
    requires s.sf.callers[k].status.Returned? && s.sf.callers[k].status.outcome.Value?
    ensures
      var f := s.sf.callers[k].flight;
      f < |s.works| && s.works[f].Ended? && !s.works[f].how.Aborted?
      && s.sf.flights[f].phase == SF.Done(s.sf.callers[k].status.outcome)
  {
  }

  ghost function CaseOf(c: Config, s: State, i: nat): Case
    requires Sound(c, s) && i < |s.calls|
  {
    match s.calls[i]
    case Mismatch => Mismatched
    case Prefetched(_, _) => FromBatch
    case Remembered(_, _) => Duplicate
    case Flying(k) =>
      assert IsCallOf(s.calls, i, k);
      match s.sf.callers[k].status
      case Waiting => Unanswered
      case Draining => GaveUp
      case Left => GaveUp
      case Returned(outcome) =>
        if !outcome.Value? then Failed
        else if s.sf.callers[k].shared then Duplicate
        else
          ValueMeansEnded(c, s, k);
          Answered(s.works[s.sf.callers[k].flight].how)
  }

  ghost function CallsIn(c: Config, s: State, which: Case): set<nat>
    requires Sound(c, s)
  {
    set i: nat | i < |s.calls| && CaseOf(c, s, i) == which
  }

  lemma SoundHolds(c: Config, start: real, run: seq<Moment>, s: State)
    requires Reaches(c, start, run, s)
    ensures Sound(c, s)
  {
    InvHolds(c, start, run, s);
    CallInvHolds(c, start, run, s);
  }

  lemma CallIsItsOwn(s: State, i: nat, k: nat)
    requires CallInv(s) && IsCallOf(s.calls, i, k)
    ensures k < |s.sf.callers| && forall j: nat | IsCallOf(s.calls, j, k) :: j == i
  {
  }

  /** A call that flies has one caller to itself, and is answered exactly when that caller was handed a
      measurement: as its own work ended, or as a duplicate if it shared the work of another.  Whoever
      left, was cancelled or was raised past is neither. */
  lemma {:induction false} CallHasItsCase(c: Config, start: real, run: seq<Moment>, s: State, i: nat, k: nat)
    requires Reaches(c, start, run, s) && IsCallOf(s.calls, i, k)
    ensures Sound(c, s) && k < |s.sf.callers|
    ensures forall j: nat | IsCallOf(s.calls, j, k) :: j == i
    ensures
      var caller := s.sf.callers[k];
      var handed := caller.status.Returned? && caller.status.outcome.Value?;
      && (CaseOf(c, s, i) == Duplicate <==> handed && caller.shared)
      && (CaseOf(c, s, i).Answered? <==> handed && !caller.shared)
      && (handed ==>
            && caller.flight < |s.works|
            && s.works[caller.flight].Ended?
            && s.works[caller.flight].how in {CacheHit, Scanned, NotStarted, Refused, Interrupted}
            && (!caller.shared ==> CaseOf(c, s, i).how == s.works[caller.flight].how))
  {
    hide Reaches, Inv, OneForOne;
    SoundHolds(c, start, run, s);
    CallIsItsOwn(s, i, k);
    var caller := s.sf.callers[k];
    if caller.status.Returned? && caller.status.outcome.Value? {
      ValueMeansEnded(c, s, k);
    }
  }

  // ---- counting calls ---------------------------------------------------------------------------------

  /** Two finite sets matched one for one have the same size. */
  lemma {:induction false} SameSize(a: set<nat>, b: set<nat>, g: nat -> nat)
    requires forall x, y | x in a && y in a && g(x) == g(y) :: x == y
    requires forall x | x in a :: g(x) in b
    requires forall y | y in b :: exists x :: x in a && g(x) == y
    ensures |a| == |b|
    decreases |a|
  {
    if a == {} {
      assert b == {};
    } else {
      var x :| x in a;
      forall y | y in b - {g(x)}
        ensures exists z :: z in a - {x} && g(z) == y
      {
        var z :| z in a && g(z) == y;
        assert z in a - {x};
      }
      SameSize(a - {x}, b - {g(x)}, g);
    }
  }

  /** The call's caller, and the flight it is bound to. */
  function CallerOf(s: State, i: nat): nat {
    if i < |s.calls| && s.calls[i].Flying? then s.calls[i].c else 0
  }

  function FlightOf(s: State, i: nat): nat {
    if CallerOf(s, i) < |s.sf.callers| then s.sf.callers[CallerOf(s, i)].flight else 0
  }

  ghost function SharedCalls(s: State): set<nat> {
    set i: nat | i < |s.calls| && s.calls[i].Flying? && GotSharedValue(s.sf, s.calls[i].c)
  }

  lemma SharedCallsAreReturns(s: State)
    requires CallInv(s)
    ensures |SharedCalls(s)| == |SharedReturns(s.sf)|
  {
    var g := (i: nat) => CallerOf(s, i);
    forall i, j | i in SharedCalls(s) && j in SharedCalls(s) && g(i) == g(j)
      ensures i == j
    {
      assert IsCallOf(s.calls, i, g(i)) && IsCallOf(s.calls, j, g(i));
    }
    forall k | k in SharedReturns(s.sf)
      ensures exists i :: i in SharedCalls(s) && g(i) == k
    {
      assert HasCall(s.calls, k);
      var i: nat :| IsCallOf(s.calls, i, k);
      assert i in SharedCalls(s) && g(i) == k;
    }
    SameSize(SharedCalls(s), SharedReturns(s.sf), g);
  }

  lemma DuplicateCalls(c: Config, s: State)
    requires Sound(c, s)
    ensures |CallsIn(c, s, Duplicate)| == |RememberedCalls(s.calls)| + |SharedReturns(s.sf)|
  {
    hide Inv;
    forall i: nat
      ensures i in CallsIn(c, s, Duplicate) <==> i in RememberedCalls(s.calls) || i in SharedCalls(s)
    {
      if i < |s.calls| && s.calls[i].Flying? {
        assert IsCallOf(s.calls, i, s.calls[i].c);
      }
    }
    assert CallsIn(c, s, Duplicate) == RememberedCalls(s.calls) + SharedCalls(s);
    assert RememberedCalls(s.calls) !! SharedCalls(s);
    SharedCallsAreReturns(s);
  }

  /** The caller that started the work has been given its measurement. */
  ghost predicate Claimed(s: State, f: nat) {
    exists k: nat :: SF.Started(s.sf, k, f) && s.sf.callers[k].status.Returned?
  }

  ghost function ClaimedAs(s: State, how: Ending): set<nat> {
    set f: nat | f < |s.works| && s.works[f] == Ended(how) && Claimed(s, f)
  }

  /** Work that ended so, while the caller that started it waits to resume, or has left. */
  ghost function Unclaimed(s: State, how: Ending): set<nat> {
    set f: nat | f < |s.works| && s.works[f] == Ended(how) && !Claimed(s, f)
  }

  function EndedAs(s: State, how: Ending): set<nat> {
    set f: nat | f < |s.works| && s.works[f] == Ended(how)
  }

  lemma AnsweredCall(c: Config, s: State, how: Ending, i: nat)
    requires Sound(c, s) && i in CallsIn(c, s, Answered(how))
    ensures IsCallOf(s.calls, i, CallerOf(s, i)) && CallerOf(s, i) < |s.sf.callers|
    ensures SF.Started(s.sf, CallerOf(s, i), FlightOf(s, i)) && FlightOf(s, i) in ClaimedAs(s, how)
  {
    var k := s.calls[i].c;
    assert IsCallOf(s.calls, i, k);
    ValueMeansEnded(c, s, k);
    assert SF.Started(s.sf, k, FlightOf(s, i)) && s.sf.callers[k].status.Returned?;
  }

  lemma ReturnedMeansValue(c: Config, s: State, f: nat, k: nat)
    requires Inv(c, s) && SF.Started(s.sf, k, f) && s.sf.callers[k].status.Returned?
    requires f < |s.works| && s.works[f].Ended? && !s.works[f].how.Aborted?
    ensures s.sf.callers[k].status.outcome.Value?
  {
    assert s.sf.flights[f].phase == SF.Done(s.sf.callers[k].status.outcome);
  }

  ghost predicate StartedBy(s: State, i: nat, f: nat) {
    i < |s.calls| && s.calls[i].Flying? && SF.Started(s.sf, s.calls[i].c, f)
  }

  lemma StarterOf(c: Config, s: State, f: nat) returns (k: nat, i: nat)
    requires Sound(c, s) && f < |s.works|
    ensures SF.Started(s.sf, k, f) && IsCallOf(s.calls, i, k) && StartedBy(s, i, f)
    ensures forall j: nat | StartedBy(s, j, f) :: s.calls[j] == Flying(k)
  {
    assert SF.HasStarter(s.sf, f);
    k :| SF.Started(s.sf, k, f);
    assert HasCall(s.calls, k);
    i :| IsCallOf(s.calls, i, k);
  }

  lemma OnlyStarter(c: Config, s: State, f: nat, k: nat)
    requires Inv(c, s) && SF.Started(s.sf, k, f) && !s.sf.callers[k].status.Returned?
    ensures !Claimed(s, f)
  {
  }

  lemma ClaimedHasCall(c: Config, s: State, how: Ending, f: nat) returns (i: nat)
    requires Sound(c, s) && !how.Aborted? && f in ClaimedAs(s, how)
    ensures i in CallsIn(c, s, Answered(how)) && FlightOf(s, i) == f
  {
    hide Inv, CallInv;
    var k;
    k, i := StarterOf(c, s, f);
    if !s.sf.callers[k].status.Returned? {
      OnlyStarter(c, s, f, k);
    }
    ReturnedMeansValue(c, s, f, k);
  }

  lemma OneCallPerFlight(c: Config, s: State, i: nat, j: nat)
    requires Sound(c, s) && FlightOf(s, i) == FlightOf(s, j)
    requires IsCallOf(s.calls, i, CallerOf(s, i)) && IsCallOf(s.calls, j, CallerOf(s, j))
    requires SF.Started(s.sf, CallerOf(s, i), FlightOf(s, i)) && SF.Started(s.sf, CallerOf(s, j), FlightOf(s, j))
    ensures i == j
  {
    assert CallerOf(s, i) == CallerOf(s, j);
  }

  /** Calls answered as their own work ended, and the work whose starter has not been answered, make up
      the work that ended so. */
  lemma AnsweredCalls(c: Config, s: State, how: Ending)
    requires Sound(c, s) && !how.Aborted?
    ensures |EndedAs(s, how)| == |CallsIn(c, s, Answered(how))| + |Unclaimed(s, how)|
  {
    hide Inv, CallInv, CaseOf, Claimed;
    var g := (i: nat) => FlightOf(s, i);
    var calls, claimed := CallsIn(c, s, Answered(how)), ClaimedAs(s, how);
    forall i, j | i in calls && j in calls && g(i) == g(j)
      ensures i == j
    {
      AnsweredCall(c, s, how, i);
      AnsweredCall(c, s, how, j);
      OneCallPerFlight(c, s, i, j);
    }
    forall i | i in calls
      ensures g(i) in claimed
    {
      AnsweredCall(c, s, how, i);
    }
    forall f | f in claimed
      ensures exists i :: i in calls && g(i) == f
    {
      var i := ClaimedHasCall(c, s, how, f);
    }
    SameSize(calls, claimed, g);
    assert EndedAs(s, how) == claimed + Unclaimed(s, how) && claimed !! Unclaimed(s, how);
  }

  predicate ScannedInVain(w: Work) {
    w.Storing? || w == Ended(Aborted(true))
  }

  lemma ScannedWork(s: State)
    ensures |Those(s.works, HasScanned)| == |EndedAs(s, Scanned)| + |Those(s.works, ScannedInVain)|
  {
    assert Those(s.works, HasScanned) == EndedAs(s, Scanned) + Those(s.works, ScannedInVain);
    assert EndedAs(s, Scanned) !! Those(s.works, ScannedInVain);
  }

  /** After every run each counter is the number of calls of its case, batches included, and the work
      nobody has been answered by yet: whose starter waits to resume or has left, and for scans also the
      work that is storing its result or failed to. */
  lemma {:induction false} CallsAreCounted(c: Config, start: real, run: seq<Moment>, s: State)
    requires Reaches(c, start, run, s)
    ensures Sound(c, s)
    ensures s.stats.duplicates == |CallsIn(c, s, Duplicate)|
    ensures s.stats.cacheHits == |CallsIn(c, s, Answered(CacheHit))| + |Unclaimed(s, CacheHit)| + s.batchHits
    ensures s.stats.notStarted == |CallsIn(c, s, Answered(NotStarted))| + |Unclaimed(s, NotStarted)|
    ensures s.stats.scans == |CallsIn(c, s, Answered(Scanned))| + |Unclaimed(s, Scanned)|
                             + |Those(s.works, ScannedInVain)| + s.batchScans
  {
    hide Inv, CallInv;
    SoundHolds(c, start, run, s);
    CountersAreExact(c, start, run, s);
    DuplicateCalls(c, s);
    AnsweredCalls(c, s, CacheHit);
    AnsweredCalls(c, s, NotStarted);
    AnsweredCalls(c, s, Scanned);
    ScannedWork(s);
    assert Those(s.works, HitCache) == EndedAs(s, CacheHit);
    assert Those(s.works, NeverStarted) == EndedAs(s, NotStarted);
  }

  /** Work stays unclaimed exactly as long as the one call that started it waits, or if it gave up. */
  lemma {:induction false} UnclaimedIff(c: Config, start: real, run: seq<Moment>, s: State, how: Ending, f: nat)
    requires Reaches(c, start, run, s) && !how.Aborted? && f in EndedAs(s, how)
    ensures Sound(c, s)
    ensures f in Unclaimed(s, how) <==>
            exists i: nat :: StartedBy(s, i, f) && (CaseOf(c, s, i).Unanswered? || CaseOf(c, s, i).GaveUp?)
  {
    hide Reaches, Inv, CallInv;
    SoundHolds(c, start, run, s);
    var k, i := StarterOf(c, s, f);
    if s.sf.callers[k].status.Returned? {
      ReturnedMeansValue(c, s, f, k);
      assert Claimed(s, f);
    } else {
      assert CaseOf(c, s, i).Unanswered? || CaseOf(c, s, i).GaveUp?;
      OnlyStarter(c, s, f, k);
    }
  }
}
