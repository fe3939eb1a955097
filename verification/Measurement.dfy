/** The measurement service: what one run does with concurrent requests for images.

    A transition system over the single-flight protocol.  Each event is one stretch of code between two
    suspension points of `measure` or of the shared work it starts; registry, scanner, store and clock
    answer arbitrarily. */
module Measurement {
  import opened Options
  import SF = SingleFlight

  type Key = SF.Key

  /** `limit` is None without a time budget.  A scan needs at least `minScan` seconds left. */
  datatype Config = Config(maxConcurrency: nat, minScan: real, limit: Option<real>)

  /** How a piece of shared work ended.  `Aborted` work raised or was cancelled; `scanned` says whether
      its scanner call had already completed. */
  datatype Ending = CacheHit | Scanned | NotStarted | Refused | Interrupted | Aborted(scanned: bool)

  datatype Work = Preparing | Looking | Queued | Scanning(since: real) | Storing | Ended(how: Ending)

  /** How one call of `measure` went; a flying call's fate is its caller's in the flight table. */
  datatype Call =
    | Mismatch
    | Prefetched(key: Key, v: SF.Result)
    | Remembered(key: Key, v: SF.Result)
    | Flying(c: nat)

  datatype Stats = Stats(scans: nat, cacheHits: nat, duplicates: nat, notStarted: nat)

  datatype State = State(
    sf: SF.State,
    works: seq<Work>,
    finished: map<Key, SF.Result>,
    prefetched: map<Key, SF.Result>,
    calls: seq<Call>,
    stats: Stats,
    now: real,
    // History: what a batch put in place, and how much of the counters is due to batches.
    prefills: multiset<(Key, SF.Result)>,
    batchScans: nat,
    batchHits: nat)

  function Init(now: real): State {
    State(SF.Init(), [], map[], map[], [], Stats(0, 0, 0, 0), now, multiset{}, 0, 0)
  }

  datatype Event =
    | Arrive(key: Key, mismatch: bool)
    | Prepared(f: nat, confirmed: bool)
    | PrepareTimedOut(f: nat, v: SF.Result)
    | Hit(f: nat, v: SF.Result)
    | Miss(f: nat)
    | Refuse(f: nat, v: SF.Result)
    | TakeSlot(f: nat, v: SF.Result)
    | ScanDone(f: nat)
    | ScanTimedOut(f: nat, v: SF.Result)
    | Stored(f: nat, v: SF.Result)
    | Abort(f: nat, raised: bool)
    | Announce(f: nat)
    | Deliver(c: nat)
    | Leave(c: nat)
    | LeaveAgain(c: nat)
    | Drained(c: nat)
    | Prefill(key: Key, v: SF.Result, fromCache: bool)
    | BatchRan(scans: nat)
    | Tick(to: real)

  /** What is left of the budget, never negative, is at least what a scan needs. */
  predicate Allows(c: Config, now: real) {
    c.limit.Some? ==> (if c.limit.value > now then c.limit.value - now else 0.0) >= c.minScan
  }

  /** Nothing is left: whatever is run within the budget is refused before it begins. */
  predicate Expired(c: Config, now: real) {
    c.limit.Some? && c.limit.value <= now
  }

  predicate Starts(c: Config, now: real) {
    Allows(c, now) && !Expired(c, now)
  }

  /** A scan may start while its least duration fits in what is left. */
  lemma AllowsIff(c: Config, now: real)
    ensures Allows(c, now) <==> c.limit.None? || c.minScan <= 0.0 || now + c.minScan <= c.limit.value
    ensures Expired(c, now) <==> c.limit.Some? && c.limit.value <= now
  {
  }

  function Those(works: seq<Work>, which: Work -> bool): set<nat> {
    set f: nat | f < |works| && which(works[f])
  }

  predicate IsScanning(w: Work) {
    w.Scanning?
  }

  predicate At(s: State, f: nat) {
    f < |s.works| && f < |s.sf.flights| && s.sf.flights[f].phase.Running?
  }

  predicate Enabled(c: Config, s: State, e: Event) {
    match e
    case Arrive(_, _) => true
    case Prepared(f, _) => At(s, f) && s.works[f].Preparing?
    case PrepareTimedOut(f, _) => At(s, f) && s.works[f].Preparing?
    case Hit(f, _) => At(s, f) && s.works[f].Looking?
    case Miss(f) => At(s, f) && s.works[f].Looking?
    case Refuse(f, _) => At(s, f) && s.works[f].Queued?
    case TakeSlot(f, _) => At(s, f) && s.works[f].Queued? && |Those(s.works, IsScanning)| < c.maxConcurrency
    case ScanDone(f) => At(s, f) && s.works[f].Scanning?
    case ScanTimedOut(f, _) => At(s, f) && s.works[f].Scanning?
    case Stored(f, _) => At(s, f) && s.works[f].Storing?
    case Abort(f, _) => At(s, f) && !s.works[f].Ended?
    case Announce(f) => SF.Enabled(s.sf, SF.Event.Announce(f))
    case Deliver(k) => SF.Enabled(s.sf, SF.Event.Deliver(k))
    case Leave(k) => SF.Enabled(s.sf, SF.Event.Leave(k))
    case LeaveAgain(k) => SF.Enabled(s.sf, SF.Event.LeaveAgain(k))
    case Drained(k) => SF.Enabled(s.sf, SF.Event.Drained(k))
    case Prefill(key, _, _) => key !in s.prefetched
    case BatchRan(_) => true
    case Tick(to) => s.now <= to
  }

  // ---- steps ------------------------------------------------------------------------------------------

  function Advance(s: State, f: nat, work: Work): State
    requires f < |s.works|
  {
    s.(works := s.works[f := work])
  }

  /** The work returns a measurement. */
  function End(s: State, f: nat, how: Ending, v: SF.Result): State
    requires At(s, f) && SF.InRange(s.sf)
  {
    s.(works := s.works[f := Ended(how)], sf := SF.Apply(s.sf, SF.Finish(f, SF.Value(v))))
  }

  /** A caller resumes with `outcome`: a measurement is remembered for the rest of the run, and counts
      as a duplicate for whoever shared it; anything else is raised past that bookkeeping. */
  function Resume(s: State, key: Key, outcome: SF.Outcome, shared: bool): State {
    match outcome
    case Value(v) =>
      s.(finished := s.finished[key := v],
         stats := s.stats.(duplicates := s.stats.duplicates + if shared then 1 else 0))
    case _ => s
  }

  function Fly(s: State, key: Key): State
    requires SF.InRange(s.sf)
  {
    var sf := SF.Apply(s.sf, SF.Enter(key));
    var flying := s.(sf := sf, calls := s.calls + [Flying(|s.sf.callers|)],
                     works := if key in s.sf.table then s.works else s.works + [Preparing]);
    var me := sf.callers[|s.sf.callers|];
    // Joining work that is already done suspends nobody: the result is there.
    if me.status.Returned? then Resume(flying, key, me.status.outcome, true) else flying
  }

  function Apply(c: Config, s: State, e: Event): State
    requires SF.InRange(s.sf) && Enabled(c, s, e)
  {
    match e
    case Arrive(key, mismatch) =>
      if mismatch then s.(calls := s.calls + [Mismatch])
      else if key in s.prefetched then
        s.(prefetched := s.prefetched - {key}, finished := s.finished[key := s.prefetched[key]],
           calls := s.calls + [Prefetched(key, s.prefetched[key])])
      else if key in s.finished then
        s.(calls := s.calls + [Remembered(key, s.finished[key])],
           stats := s.stats.(duplicates := s.stats.duplicates + 1))
      else Fly(s, key)
    case Prepared(f, confirmed) => Advance(s, f, if confirmed then Looking else Queued)
    case PrepareTimedOut(f, v) =>
      End(s, f, NotStarted, v).(stats := s.stats.(notStarted := s.stats.notStarted + 1))
    case Hit(f, v) => End(s, f, CacheHit, v).(stats := s.stats.(cacheHits := s.stats.cacheHits + 1))
    case Miss(f) => Advance(s, f, Queued)
    case Refuse(f, v) => End(s, f, Refused, v)
    case TakeSlot(f, v) =>
      if !Allows(c, s.now) then End(s, f, NotStarted, v).(stats := s.stats.(notStarted := s.stats.notStarted + 1))
      else if Expired(c, s.now) then End(s, f, Interrupted, v)
      else Advance(s, f, Scanning(s.now))
    case ScanDone(f) => Advance(s, f, Storing).(stats := s.stats.(scans := s.stats.scans + 1))
    case ScanTimedOut(f, v) => End(s, f, Interrupted, v)
    case Stored(f, v) => End(s, f, Scanned, v)
    case Abort(f, raised) =>
      s.(works := s.works[f := Ended(Aborted(s.works[f].Storing?))],
         sf := SF.Apply(s.sf, SF.Finish(f, if raised then SF.Raised else SF.Cancelled)))
    case Announce(f) => s.(sf := SF.Apply(s.sf, SF.Event.Announce(f)))
    case Deliver(k) =>
      var sf := SF.Apply(s.sf, SF.Event.Deliver(k));
      Resume(s.(sf := sf), s.sf.flights[s.sf.callers[k].flight].key, sf.callers[k].status.outcome, sf.callers[k].shared)
    case Leave(k) => s.(sf := SF.Apply(s.sf, SF.Event.Leave(k)))
    case LeaveAgain(k) => s.(sf := SF.Apply(s.sf, SF.Event.LeaveAgain(k)))
    case Drained(k) => s.(sf := SF.Apply(s.sf, SF.Event.Drained(k)))
    case Prefill(key, v, fromCache) =>
      var hit := if fromCache then 1 else 0;
      s.(prefetched := s.prefetched[key := v], prefills := s.prefills + multiset{(key, v)},
         stats := s.stats.(cacheHits := s.stats.cacheHits + hit), batchHits := s.batchHits + hit)
    case BatchRan(n) =>
      s.(stats := s.stats.(scans := s.stats.scans + n), batchScans := s.batchScans + n)
    case Tick(to) => s.(now := to)
  }

  // ---- runs -------------------------------------------------------------------------------------------

  /** An event and the state it leads to. */
  datatype Moment = Moment(event: Event, state: State)

  function Before(first: State, run: seq<Moment>, i: nat): State
    requires i <= |run|
  {
    if i == 0 then first else run[i - 1].state
  }

  ghost predicate StepAt(c: Config, first: State, run: seq<Moment>, i: nat)
    requires i < |run|
  {
    var s := Before(first, run, i);
    SF.InRange(s.sf) && Enabled(c, s, run[i].event) && run[i].state == Apply(c, s, run[i].event)
  }

  /** From `first`, one step after another leads to `last`. */
  ghost predicate Runs(c: Config, first: State, run: seq<Moment>, last: State) {
    && last == Before(first, run, |run|)
    && forall i | 0 <= i < |run| :: StepAt(c, first, run, i)
  }

  ghost predicate Reaches(c: Config, start: real, run: seq<Moment>, s: State) {
    Runs(c, Init(start), run, s)
  }

  /** What leads to the last step is a run too. */
  lemma LastStep(c: Config, first: State, run: seq<Moment>, last: State) returns (s: State)
    requires Runs(c, first, run, last) && run != []
    ensures Runs(c, first, run[..|run| - 1], s)
    ensures SF.InRange(s.sf) && Enabled(c, s, run[|run| - 1].event) && last == Apply(c, s, run[|run| - 1].event)
  {
    hide Apply, Enabled, SF.InRange;
    var n := |run| - 1;
    s := Before(first, run, n);
    assert StepAt(c, first, run, n);
    var front := run[..n];
    forall i | 0 <= i < |front|
      ensures StepAt(c, first, front, i)
    {
      assert StepAt(c, first, run, i);
    }
  }

  lemma OneStepMore(c: Config, first: State, run: seq<Moment>, s: State, e: Event)
    requires Runs(c, first, run, s) && SF.InRange(s.sf) && Enabled(c, s, e)
    ensures Runs(c, first, run + [Moment(e, Apply(c, s, e))], Apply(c, s, e))
  {
    hide Apply, Enabled, SF.InRange;
    var longer := run + [Moment(e, Apply(c, s, e))];
    forall i | 0 <= i < |longer|
      ensures StepAt(c, first, longer, i)
    {
      if i < |run| {
        assert StepAt(c, first, run, i);
      }
    }
  }

  // ---- the invariant ----------------------------------------------------------------------------------

  /** Work and flights go together, and work ends exactly when its flight is done: with a measurement
      unless it was aborted. */
  ghost predicate WorkInv(c: Config, s: State) {
    && |s.works| == |s.sf.flights|
    && (forall f | 0 <= f < |s.works| ::
          && (s.works[f].Ended? <==> s.sf.flights[f].phase.Done?)
          && (s.works[f].Ended? ==> (s.sf.flights[f].phase.outcome.Value? <==> !s.works[f].how.Aborted?))
          && (s.works[f].Scanning? ==> s.works[f].since <= s.now && Starts(c, s.works[f].since)))
    && |Those(s.works, IsScanning)| <= c.maxConcurrency
  }

  predicate HasScanned(w: Work) {
    w.Storing? || w == Ended(Scanned) || w == Ended(Aborted(true))
  }

  predicate HitCache(w: Work) {
    w == Ended(CacheHit)
  }

  predicate NeverStarted(w: Work) {
    w == Ended(NotStarted)
  }

  function RememberedCalls(calls: seq<Call>): set<nat> {
    set i: nat | i < |calls| && calls[i].Remembered?
  }

  function SharedReturns(sf: SF.State): set<nat> {
    set k: nat | k < |sf.callers| && GotSharedValue(sf, k)
  }

  predicate GotSharedValue(sf: SF.State, k: nat) {
    && k < |sf.callers| && sf.callers[k].shared
    && sf.callers[k].status.Returned? && sf.callers[k].status.outcome.Value?
  }

  /** Every counter equals the number of its cases. */
  ghost predicate StatsInv(s: State) {
    && s.stats.scans == |Those(s.works, HasScanned)| + s.batchScans
    && s.stats.cacheHits == |Those(s.works, HitCache)| + s.batchHits
    && s.stats.notStarted == |Those(s.works, NeverStarted)|
    && s.stats.duplicates == |RememberedCalls(s.calls)| + |SharedReturns(s.sf)|
  }

  function HandedOut(calls: seq<Call>): multiset<(Key, SF.Result)> {
    if calls == [] then multiset{}
    else
      var last := calls[|calls| - 1];
      HandedOut(calls[..|calls| - 1]) + HandedOutBy(last)
  }

  function HandedOutBy(call: Call): multiset<(Key, SF.Result)> {
    if call.Prefetched? then multiset{(call.key, call.v)} else multiset{}
  }

  /** Whatever a batch put in place has been handed out once or is still there. */
  ghost predicate PrefillInv(s: State) {
    forall key: Key, v: SF.Result ::
      s.prefills[(key, v)]
      == HandedOut(s.calls)[(key, v)] + if key in s.prefetched && s.prefetched[key] == v then 1 else 0
  }

  ghost predicate Inv(c: Config, s: State) {
    && SF.Inv(s.sf)
    && SF.InRange(s.sf)
    && WorkInv(c, s)
    && StatsInv(s)
    && PrefillInv(s)
  }

  // ---- the flight table only ever takes its own steps -------------------------------------------------

  /** The step of the flight table an event takes, if any. */
  function FlightEvent(c: Config, s: State, e: Event): Option<SF.Event> {
    match e
    case Arrive(key, mismatch) =>
      if mismatch || key in s.prefetched || key in s.finished then None else Some(SF.Enter(key))
    case PrepareTimedOut(f, v) => Some(SF.Finish(f, SF.Value(v)))
    case Hit(f, v) => Some(SF.Finish(f, SF.Value(v)))
    case Refuse(f, v) => Some(SF.Finish(f, SF.Value(v)))
    case TakeSlot(f, v) => if Starts(c, s.now) then None else Some(SF.Finish(f, SF.Value(v)))
    case ScanTimedOut(f, v) => Some(SF.Finish(f, SF.Value(v)))
    case Stored(f, v) => Some(SF.Finish(f, SF.Value(v)))
    case Abort(f, raised) => Some(SF.Finish(f, if raised then SF.Raised else SF.Cancelled))
    case Announce(f) => Some(SF.Event.Announce(f))
    case Deliver(k) => Some(SF.Event.Deliver(k))
    case Leave(k) => Some(SF.Event.Leave(k))
    case LeaveAgain(k) => Some(SF.Event.LeaveAgain(k))
    case Drained(k) => Some(SF.Event.Drained(k))
    case _ => None
  }

  lemma TakesItsStep(c: Config, s: State, e: Event)
    requires SF.InRange(s.sf) && Enabled(c, s, e)
    ensures
      match FlightEvent(c, s, e)
      case None => Apply(c, s, e).sf == s.sf
      case Some(x) => SF.Enabled(s.sf, x) && Apply(c, s, e).sf == SF.Apply(s.sf, x)
  {
    hide SF.Apply, SF.InRange, Allows, Expired;
  }

  lemma FlightsKept(c: Config, s: State, e: Event)
    requires SF.Inv(s.sf) && SF.InRange(s.sf) && Enabled(c, s, e)
    ensures SF.Inv(Apply(c, s, e).sf) && SF.InRange(Apply(c, s, e).sf)
  {
    hide SF.Apply, SF.InRange, SF.Inv, SF.Enabled, Apply, Enabled, FlightEvent;
    TakesItsStep(c, s, e);
    match FlightEvent(c, s, e)
    case None =>
    case Some(x) => StepKept(s, x);
  }

  lemma StepKept(s: State, e: SF.Event)
    requires SF.Inv(s.sf) && SF.InRange(s.sf) && SF.Enabled(s.sf, e)
    ensures SF.Inv(SF.Apply(s.sf, e)) && SF.InRange(SF.Apply(s.sf, e))
  {
    SF.InvKept(s.sf, e);
    SF.InvInRange(SF.Apply(s.sf, e));
  }

  // ---- counting ---------------------------------------------------------------------------------------

  function One(b: bool): nat {
    if b then 1 else 0
  }

  lemma ThoseUpdated(works: seq<Work>, f: nat, w: Work, which: Work -> bool)
    requires f < |works|
    ensures |Those(works[f := w], which)| == |Those(works, which)| - One(which(works[f])) + One(which(w))
  {
    var before, after := Those(works, which), Those(works[f := w], which);
    forall k: nat
      ensures k in after - {f} <==> k in before - {f}
    {
      assert k < |works| && k != f ==> works[f := w][k] == works[k];
    }
    assert after - {f} == before - {f};
    assert f in before <==> which(works[f]);
    assert f in after <==> which(w);
    assert |before - {f}| == |before| - One(which(works[f]));
    assert |after - {f}| == |after| - One(which(w));
  }

  lemma ThoseAppended(works: seq<Work>, w: Work, which: Work -> bool)
    ensures |Those(works + [w], which)| == |Those(works, which)| + One(which(w))
  {
    var before, after := Those(works, which), Those(works + [w], which);
    assert after - {|works|} == before;
    assert |works| in after <==> which(w);
  }

  lemma RememberedAppended(calls: seq<Call>, call: Call)
    ensures |RememberedCalls(calls + [call])| == |RememberedCalls(calls)| + One(call.Remembered?)
  {
    var before, after := RememberedCalls(calls), RememberedCalls(calls + [call]);
    assert after - {|calls|} == before;
    assert |calls| in after <==> call.Remembered?;
  }

  lemma EnterReturns(s: SF.State, key: Key)
    requires SF.InRange(s)
    ensures
      var t := SF.Apply(s, SF.Enter(key));
      |SharedReturns(t)| == |SharedReturns(s)| + One(GotSharedValue(t, |s.callers|))
  {
    var t := SF.Apply(s, SF.Enter(key));
    assert forall k: nat | k < |s.callers| :: t.callers[k] == s.callers[k];
    assert SharedReturns(t) - {|s.callers|} == SharedReturns(s);
    assert |s.callers| in SharedReturns(t) <==> GotSharedValue(t, |s.callers|);
  }

  lemma DeliverReturns(s: SF.State, c: nat)
    requires SF.InRange(s) && SF.Enabled(s, SF.Event.Deliver(c))
    ensures
      var t := SF.Apply(s, SF.Event.Deliver(c));
      |SharedReturns(t)| == |SharedReturns(s)| + One(GotSharedValue(t, c))
  {
    var t := SF.Apply(s, SF.Event.Deliver(c));
    assert forall k: nat | k < |s.callers| && k != c :: t.callers[k] == s.callers[k];
    assert SharedReturns(t) - {c} == SharedReturns(s);
    assert c in SharedReturns(t) <==> GotSharedValue(t, c);
  }

  lemma {:induction false} OthersReturnNothing(s: SF.State, e: SF.Event)
    requires SF.InRange(s) && SF.Enabled(s, e) && !e.Enter? && !e.Deliver?
    ensures SharedReturns(SF.Apply(s, e)) == SharedReturns(s)
  {
    var t := SF.Apply(s, e);
    assert |t.callers| == |s.callers|;
    forall k: nat
      ensures GotSharedValue(t, k) <==> GotSharedValue(s, k)
    {
    }
  }

  // ---- preservation -----------------------------------------------------------------------------------

  /** Which piece of work an event advances. */
  function WorkOf(e: Event): Option<nat> {
    match e
    case Prepared(f, _) => Some(f)
    case PrepareTimedOut(f, _) => Some(f)
    case Hit(f, _) => Some(f)
    case Miss(f) => Some(f)
    case Refuse(f, _) => Some(f)
    case TakeSlot(f, _) => Some(f)
    case ScanDone(f) => Some(f)
    case ScanTimedOut(f, _) => Some(f)
    case Stored(f, _) => Some(f)
    case Abort(f, _) => Some(f)
    case _ => None
  }

  /** The parts of the state the counters and the batch bookkeeping do not share. */
  ghost predicate SameCalls(s: State, t: State) {
    && t.calls == s.calls && t.prefetched == s.prefetched && t.prefills == s.prefills
    && t.batchScans == s.batchScans && t.batchHits == s.batchHits
    && t.stats.duplicates == s.stats.duplicates
  }

  /** One piece of work moved, its flight finished exactly if it ended, and each counter moved with it. */
  ghost predicate WorkMoved(s: State, t: State, f: nat) {
    && f < |s.works| && !s.works[f].Ended? && SF.InRange(s.sf) && At(s, f)
    && |t.works| == |s.works| && t.works == s.works[f := t.works[f]]
    && (if t.works[f].Ended?
        then |t.sf.flights| == |s.sf.flights| && t.sf.flights[f].phase.Done?
             && t.sf == SF.Apply(s.sf, SF.Finish(f, t.sf.flights[f].phase.outcome))
             && (t.sf.flights[f].phase.outcome.Value? <==> !t.works[f].how.Aborted?)
        else t.sf == s.sf)
    && SameCalls(s, t) && t.now == s.now
    && t.stats.scans == s.stats.scans + One(HasScanned(t.works[f])) - One(HasScanned(s.works[f]))
    && t.stats.cacheHits == s.stats.cacheHits + One(HitCache(t.works[f]))
    && t.stats.notStarted == s.stats.notStarted + One(NeverStarted(t.works[f]))
  }

  lemma FinishEnds(s: SF.State, f: nat, outcome: SF.Outcome)
    requires SF.InRange(s) && SF.Enabled(s, SF.Finish(f, outcome))
    ensures
      var t := SF.Apply(s, SF.Finish(f, outcome));
      |t.flights| == |s.flights| && t.flights[f].phase == SF.Done(outcome)
  {
  }

  /** The counters after a piece of work has ended so. */
  function Counting(stats: Stats, how: Ending): Stats {
    match how
    case CacheHit => stats.(cacheHits := stats.cacheHits + 1)
    case NotStarted => stats.(notStarted := stats.notStarted + 1)
    case _ => stats
  }

  function EndingOf(c: Config, s: State, e: Event): Ending
    requires Enabled(c, s, e) && WorkOf(e).Some? && FlightEvent(c, s, e).Some?
  {
    match e
    case PrepareTimedOut(_, _) => NotStarted
    case Hit(_, _) => CacheHit
    case Refuse(_, _) => Refused
    case TakeSlot(_, _) => if Allows(c, s.now) then Interrupted else NotStarted
    case ScanTimedOut(_, _) => Interrupted
    case Stored(_, _) => Scanned
    case Abort(f, _) => Aborted(s.works[f].Storing?)
  }

  /** Whatever ends a piece of work finishes its flight and counts it. */
  lemma EndingDoes(c: Config, s: State, e: Event)
    requires SF.InRange(s.sf) && Enabled(c, s, e) && WorkOf(e).Some? && FlightEvent(c, s, e).Some?
    ensures
      var how, finish := EndingOf(c, s, e), FlightEvent(c, s, e).value;
      && finish.Finish? && finish.f == WorkOf(e).value && SF.Enabled(s.sf, finish)
      && finish.f < |s.works|
      && Apply(c, s, e) == s.(works := s.works[finish.f := Ended(how)], sf := SF.Apply(s.sf, finish),
                              stats := Counting(s.stats, how))
  {
    hide Those, Allows, Expired, SF.Apply, SF.InRange;
  }

  lemma EndingIsRight(c: Config, s: State, e: Event)
    requires Enabled(c, s, e) && WorkOf(e).Some? && FlightEvent(c, s, e).Some?
    ensures
      var f, how, finish := WorkOf(e).value, EndingOf(c, s, e), FlightEvent(c, s, e).value;
      && At(s, f) && !s.works[f].Ended? && finish.Finish?
      && (finish.outcome.Value? <==> !how.Aborted?)
      && (HasScanned(Ended(how)) <==> HasScanned(s.works[f]))
  {
    hide Those, Allows, Expired, SF.Enabled;
  }

  lemma WorkEnds(c: Config, s: State, e: Event)
    requires SF.InRange(s.sf) && Enabled(c, s, e) && WorkOf(e).Some? && FlightEvent(c, s, e).Some?
    ensures WorkMoved(s, Apply(c, s, e), WorkOf(e).value)
  {
    hide Apply, Enabled, EndingOf, FlightEvent, SF.Apply, SF.Enabled, SF.InRange;
    EndingDoes(c, s, e);
    EndingIsRight(c, s, e);
    var finish := FlightEvent(c, s, e).value;
    FinishEnds(s.sf, finish.f, finish.outcome);
  }

  lemma WorkGoesOn(c: Config, s: State, e: Event)
    requires SF.InRange(s.sf) && Enabled(c, s, e) && WorkOf(e).Some? && FlightEvent(c, s, e).None?
    ensures WorkMoved(s, Apply(c, s, e), WorkOf(e).value)
  {
    hide Those, Allows, Expired, SF.Apply, SF.InRange;
  }

  lemma ScanBegins(c: Config, s: State, e: Event, f: nat)
    requires SF.InRange(s.sf) && Enabled(c, s, e) && WorkOf(e) == Some(f)
    ensures f < |Apply(c, s, e).works|
    ensures
      var w := Apply(c, s, e).works[f];
      w.Scanning? ==> Starts(c, s.now) && w.since == s.now && |Those(s.works, IsScanning)| < c.maxConcurrency
  {
    hide Those, Allows, Expired, SF.Apply, SF.InRange;
  }

  lemma WorkKeptByWork(c: Config, s: State, t: State, f: nat)
    requires WorkInv(c, s) && WorkMoved(s, t, f)
    requires t.works[f].Scanning? ==>
               Starts(c, s.now) && t.works[f].since == s.now && |Those(s.works, IsScanning)| < c.maxConcurrency
    ensures WorkInv(c, t)
  {
    ThoseUpdated(s.works, f, t.works[f], IsScanning);
  }

  lemma StatsKeptByWork(s: State, t: State, f: nat)
    requires StatsInv(s) && WorkMoved(s, t, f)
    ensures StatsInv(t)
  {
    ThoseUpdated(s.works, f, t.works[f], HasScanned);
    ThoseUpdated(s.works, f, t.works[f], HitCache);
    ThoseUpdated(s.works, f, t.works[f], NeverStarted);
    if t.works[f].Ended? {
      OthersReturnNothing(s.sf, SF.Finish(f, t.sf.flights[f].phase.outcome));
    }
  }

  lemma KeptByWork(c: Config, s: State, e: Event)
    requires Inv(c, s) && Enabled(c, s, e) && WorkOf(e).Some?
    ensures Inv(c, Apply(c, s, e))
  {
    hide Apply, Enabled, FlightEvent, SF.Inv, SF.InRange, WorkInv, StatsInv;
    FlightsKept(c, s, e);
    if FlightEvent(c, s, e).Some? {
      WorkEnds(c, s, e);
    } else {
      WorkGoesOn(c, s, e);
    }
    ScanBegins(c, s, e, WorkOf(e).value);
    WorkKeptByWork(c, s, Apply(c, s, e), WorkOf(e).value);
    StatsKeptByWork(s, Apply(c, s, e), WorkOf(e).value);
  }

  lemma HandedAppended(calls: seq<Call>, call: Call)
    ensures HandedOut(calls + [call]) == HandedOut(calls) + HandedOutBy(call)
  {
    assert (calls + [call])[..|calls|] == calls;
  }

  /** Apart from finishing, what happens in the flight table leaves every phase alone. */
  lemma PhasesKept(s: SF.State, e: SF.Event)
    requires SF.InRange(s) && SF.Enabled(s, e) && !e.Finish?
    ensures
      var t := SF.Apply(s, e);
      && |t.flights| == |s.flights| + One(e.Enter? && e.key !in s.table)
      && (forall f | 0 <= f < |s.flights| :: t.flights[f].phase == s.flights[f].phase)
      && (|t.flights| > |s.flights| ==> t.flights[|s.flights|].phase.Running?)
  {
  }

  lemma WorkKeptByPhases(c: Config, s: State, t: State)
    requires WorkInv(c, s) && t.now == s.now
    requires |t.sf.flights| == |t.works| && |s.works| <= |t.works|
    requires forall f | 0 <= f < |s.works| ::
               t.works[f] == s.works[f] && t.sf.flights[f].phase == s.sf.flights[f].phase
    requires forall f | |s.works| <= f < |t.works| ::
               t.works[f] == Preparing && t.sf.flights[f].phase.Running?
    ensures WorkInv(c, t)
  {
    forall f: nat
      ensures f in Those(t.works, IsScanning) <==> f in Those(s.works, IsScanning)
    {
    }
    assert Those(t.works, IsScanning) == Those(s.works, IsScanning);
  }

  lemma WorksAreFlights(c: Config, s: State)
    requires WorkInv(c, s)
    ensures |s.works| == |s.sf.flights|
  {
  }

  /** The call as it is recorded when it is answered at once. */
  function AnswerTo(s: State, key: Key, mismatch: bool): Call
    requires mismatch || key in s.prefetched || key in s.finished
  {
    if mismatch then Mismatch
    else if key in s.prefetched then Prefetched(key, s.prefetched[key])
    else Remembered(key, s.finished[key])
  }

  lemma StatsKeptByAnswer(c: Config, s: State, key: Key, mismatch: bool)
    requires SF.InRange(s.sf) && StatsInv(s) && (mismatch || key in s.prefetched || key in s.finished)
    ensures StatsInv(Apply(c, s, Arrive(key, mismatch)))
  {
    hide SF.InRange, Those, SharedReturns, RememberedCalls;
    RememberedAppended(s.calls, AnswerTo(s, key, mismatch));
  }

  lemma PrefillsKeptByAnswer(c: Config, s: State, key: Key, mismatch: bool)
    requires SF.InRange(s.sf) && PrefillInv(s) && (mismatch || key in s.prefetched || key in s.finished)
    ensures PrefillInv(Apply(c, s, Arrive(key, mismatch)))
  {
    hide SF.InRange, HandedOut;
    HandedAppended(s.calls, AnswerTo(s, key, mismatch));
  }

  lemma KeptByAnswer(c: Config, s: State, key: Key, mismatch: bool)
    requires Inv(c, s) && (mismatch || key in s.prefetched || key in s.finished)
    ensures Inv(c, Apply(c, s, Arrive(key, mismatch)))
  {
    hide SF.Inv, SF.InRange, WorkInv, StatsInv, PrefillInv;
    StatsKeptByAnswer(c, s, key, mismatch);
    PrefillsKeptByAnswer(c, s, key, mismatch);
    WorksAreFlights(c, s);
    WorkKeptByPhases(c, s, Apply(c, s, Arrive(key, mismatch)));
  }

  lemma {:induction false} KeptByFlying(c: Config, s: State, key: Key)
    requires Inv(c, s) && key !in s.prefetched && key !in s.finished
    ensures Inv(c, Apply(c, s, Arrive(key, false)))
  {
    hide Fly, SF.Apply, SF.Inv, SF.InRange, StatsInv;
    var t := Apply(c, s, Arrive(key, false));
    FlightsKept(c, s, Arrive(key, false));
    PhasesKept(s.sf, SF.Enter(key));
    FlyingState(s, key);
    WorkKeptByPhases(c, s, t);
    StatsKeptByFlying(s, key);
    HandedAppended(s.calls, Flying(|s.sf.callers|));
  }

  lemma FlyingState(s: State, key: Key)
    requires SF.InRange(s.sf)
    ensures
      var t := Fly(s, key);
      && t.sf == SF.Apply(s.sf, SF.Enter(key)) && t.now == s.now
      && t.works == (if key in s.sf.table then s.works else s.works + [Preparing])
      && t.calls == s.calls + [Flying(|s.sf.callers|)]
      && t.prefetched == s.prefetched && t.prefills == s.prefills
      && t.batchScans == s.batchScans && t.batchHits == s.batchHits
      && t.stats == s.stats.(duplicates := s.stats.duplicates + One(GotSharedValue(t.sf, |s.sf.callers|)))
  {
  }

  lemma StatsKeptByFlying(s: State, key: Key)
    requires StatsInv(s) && SF.InRange(s.sf)
    ensures StatsInv(Fly(s, key))
  {
    FlyingState(s, key);
    RememberedAppended(s.calls, Flying(|s.sf.callers|));
    EnterReturns(s.sf, key);
    ThoseAppended(s.works, Preparing, HasScanned);
    ThoseAppended(s.works, Preparing, HitCache);
    ThoseAppended(s.works, Preparing, NeverStarted);
  }

  lemma DeliveredState(c: Config, s: State, k: nat)
    requires SF.InRange(s.sf) && Enabled(c, s, Deliver(k))
    ensures
      var t := Apply(c, s, Deliver(k));
      && t.sf == SF.Apply(s.sf, SF.Event.Deliver(k)) && t.now == s.now && t.works == s.works && t.calls == s.calls
      && t.prefetched == s.prefetched && t.prefills == s.prefills
      && t.batchScans == s.batchScans && t.batchHits == s.batchHits
      && t.stats == s.stats.(duplicates := s.stats.duplicates + One(GotSharedValue(t.sf, k)))
  {
  }

  lemma StatsKeptByDelivery(c: Config, s: State, k: nat)
    requires StatsInv(s) && SF.InRange(s.sf) && Enabled(c, s, Deliver(k))
    ensures StatsInv(Apply(c, s, Deliver(k)))
  {
    hide Apply, SF.Apply, SF.InRange, GotSharedValue;
    DeliveredState(c, s, k);
    DeliverReturns(s.sf, k);
  }

  lemma {:induction false} KeptByDelivery(c: Config, s: State, k: nat)
    requires Inv(c, s) && Enabled(c, s, Deliver(k))
    ensures Inv(c, Apply(c, s, Deliver(k)))
  {
    hide Apply, SF.Apply, SF.Inv, SF.InRange, StatsInv, GotSharedValue;
    FlightsKept(c, s, Deliver(k));
    DeliveredState(c, s, k);
    PhasesKept(s.sf, SF.Event.Deliver(k));
    WorkKeptByPhases(c, s, Apply(c, s, Deliver(k)));
    StatsKeptByDelivery(c, s, k);
  }

  /** The flight table takes a step of its own, and nothing else changes. */
  ghost predicate OnlyFlights(s: State, t: State, e: SF.Event)
    requires SF.InRange(s.sf)
  {
    SF.Enabled(s.sf, e) && t == s.(sf := SF.Apply(s.sf, e))
  }

  lemma KeptByOnlyFlights(c: Config, s: State, t: State, e: SF.Event)
    requires Inv(c, s) && OnlyFlights(s, t, e) && !e.Enter? && !e.Deliver? && !e.Finish?
    ensures Inv(c, t)
  {
    hide SF.Apply, SF.Enabled, SF.Inv, SF.InRange;
    StepKept(s, e);
    OthersReturnNothing(s.sf, e);
    PhasesKept(s.sf, e);
    WorkKeptByPhases(c, s, t);
  }

  lemma {:induction false} KeptByFlightTable(c: Config, s: State, e: Event)
    requires Inv(c, s) && Enabled(c, s, e)
    requires e.Announce? || e.Leave? || e.LeaveAgain? || e.Drained?
    ensures Inv(c, Apply(c, s, e))
  {
    var own := FlightEvent(c, s, e).value;
    assert OnlyFlights(s, Apply(c, s, e), own) by {
      hide SF.Apply, SF.Inv, SF.InRange, WorkInv, StatsInv, PrefillInv;
    }
    hide Apply, Enabled, OnlyFlights, Inv;
    KeptByOnlyFlights(c, s, Apply(c, s, e), own);
  }

  lemma {:induction false} InvKept(c: Config, s: State, e: Event)
    requires Inv(c, s) && Enabled(c, s, e)
    ensures Inv(c, Apply(c, s, e))
  {
    if WorkOf(e).Some? {
      KeptByWork(c, s, e);
    } else {
      match e
      case Arrive(key, mismatch) =>
        if mismatch || key in s.prefetched || key in s.finished {
          KeptByAnswer(c, s, key, mismatch);
        } else {
          KeptByFlying(c, s, key);
        }
      case Deliver(k) => KeptByDelivery(c, s, k);
      case Prefill(_, _, _) =>
      case BatchRan(_) =>
      case Tick(_) =>
      case _ => KeptByFlightTable(c, s, e);
    }
  }

  lemma {:induction false} InvHolds(c: Config, start: real, run: seq<Moment>, s: State)
    requires Reaches(c, start, run, s)
    ensures Inv(c, s)
  {
    if run == [] {
      assert Those([], IsScanning) == {} && Those([], HasScanned) == {};
      assert Those([], HitCache) == {} && Those([], NeverStarted) == {};
      assert RememberedCalls([]) == {} && SharedReturns(SF.Init()) == {};
    } else {
      var before := LastStep(c, Init(start), run, s);
      InvHolds(c, start, run[..|run| - 1], before);
      InvKept(c, before, run[|run| - 1].event);
    }
  }

  // ---- what every run guarantees ----------------------------------------------------------------------

  /** At most one scanner call per key at a time, and at most the cap in total; each was started with
      enough of the budget left. */
  lemma {:induction false} ScansAreSingleAndCapped(c: Config, start: real, run: seq<Moment>, s: State, f: nat, g: nat)
    requires Reaches(c, start, run, s)
    requires f < |s.works| && g < |s.works| && s.works[f].Scanning? && s.works[g].Scanning?
    ensures |Those(s.works, IsScanning)| <= c.maxConcurrency
    ensures |s.sf.flights| == |s.works| && (s.sf.flights[f].key == s.sf.flights[g].key ==> f == g)
    ensures c.limit.Some? ==>
              s.works[f].since < c.limit.value && s.works[f].since + c.minScan <= c.limit.value
  {
    InvHolds(c, start, run, s);
  }

  /** Every counter is the number of its cases: completed scanner calls, store hits, work that had no
      time to start, and calls answered by somebody else's measurement. */
  lemma {:induction false} CountersAreExact(c: Config, start: real, run: seq<Moment>, s: State)
    requires Reaches(c, start, run, s)
    ensures s.stats.scans == |Those(s.works, HasScanned)| + s.batchScans
    ensures s.stats.cacheHits == |Those(s.works, HitCache)| + s.batchHits
    ensures s.stats.notStarted == |Those(s.works, NeverStarted)|
    ensures s.stats.duplicates == |RememberedCalls(s.calls)| + |SharedReturns(s.sf)|
  {
    InvHolds(c, start, run, s);
  }

  /** A measurement a batch put in place is handed out unshared once, and until then it stays. */
  lemma {:induction false} PrefillsAreHandedOutOnce(c: Config, start: real, run: seq<Moment>, s: State, key: Key,
                                                    v: SF.Result)
    requires Reaches(c, start, run, s)
    ensures s.prefills[(key, v)]
         == HandedOut(s.calls)[(key, v)] + One(key in s.prefetched && s.prefetched[key] == v)
  {
    InvHolds(c, start, run, s);
  }

  /** Work that is given a slot scans when there is time for it.  It is reported as not started exactly when
      too little is left, and as interrupted when nothing is left that would have been needed. */
  lemma SlotDecides(c: Config, s: State, f: nat, v: SF.Result)
    requires SF.InRange(s.sf) && Enabled(c, s, TakeSlot(f, v))
    ensures
      var w := Apply(c, s, TakeSlot(f, v)).works[f];
      && (w == Scanning(s.now) <==>
            c.limit.Some? ==> s.now < c.limit.value && s.now + c.minScan <= c.limit.value)
      && (w == Ended(NotStarted) <==> c.limit.Some? && c.minScan > 0.0 && s.now + c.minScan > c.limit.value)
      && (w == Ended(Interrupted) <==> c.limit.Some? && c.minScan <= 0.0 && s.now >= c.limit.value)
  {
    hide SF.Apply, SF.InRange, Those;
  }

  /** At some moment of the run the identity behind this work turned out confirmed. */
  ghost predicate WasConfirmed(run: seq<Moment>, f: nat) {
    exists i: nat :: i < |run| && run[i].event == Prepared(f, true)
  }

  predicate AsksStore(w: Work) {
    w.Looking? || w == Ended(CacheHit)
  }

  lemma MovedToStore(c: Config, s: State, e: Event, f: nat)
    requires SF.InRange(s.sf) && Enabled(c, s, e) && WorkOf(e) == Some(f)
    ensures f < |Apply(c, s, e).works|
    ensures AsksStore(Apply(c, s, e).works[f]) ==> e == Prepared(f, true) || AsksStore(s.works[f])
  {
    hide SF.Apply, SF.InRange, SF.Enabled, Allows, Expired;
  }

  lemma NewWorkPrepares(c: Config, s: State, e: Event, f: nat)
    requires SF.InRange(s.sf) && Enabled(c, s, e) && |s.works| <= f < |Apply(c, s, e).works|
    ensures Apply(c, s, e).works[f].Preparing?
  {
    hide SF.Apply, SF.InRange, SF.Enabled, Allows, Expired;
  }

  lemma AsksStoreOnlyWhenTold(c: Config, s: State, e: Event, f: nat)
    requires SF.InRange(s.sf) && Enabled(c, s, e) && f < |Apply(c, s, e).works| && AsksStore(Apply(c, s, e).works[f])
    ensures e == Prepared(f, true) || (f < |s.works| && AsksStore(s.works[f]))
  {
    hide Apply, Enabled, SF.InRange;
    if f >= |s.works| {
      NewWorkPrepares(c, s, e, f);
    } else if WorkOf(e) == Some(f) {
      MovedToStore(c, s, e, f);
    } else if WorkOf(e).Some? {
      OnlyItsWorkMoves(c, s, e, f);
    } else {
      NoWorkMoves(c, s, e, f);
    }
  }

  /** Only work for a confirmed identity ever looks in the store. */
  lemma {:induction false} OnlyConfirmedAsksStore(c: Config, start: real, run: seq<Moment>, s: State, f: nat)
    requires Reaches(c, start, run, s) && f < |s.works| && AsksStore(s.works[f])
    ensures WasConfirmed(run, f)
  {
    if run != [] {
      hide Apply, Enabled, AsksStore, SF.InRange;
      var n := |run| - 1;
      var before := LastStep(c, Init(start), run, s);
      AsksStoreOnlyWhenTold(c, before, run[n].event, f);
      if run[n].event != Prepared(f, true) {
        OnlyConfirmedAsksStore(c, start, run[..n], before, f);
        var i: nat :| i < n && run[..n][i].event == Prepared(f, true);
        assert run[i].event == Prepared(f, true);
      }
    }
  }

  /** The store had nothing for this work, or was not to be asked: its identity was not confirmed. */
  ghost predicate WasNotStored(run: seq<Moment>, f: nat) {
    exists i: nat :: i < |run| && (run[i].event == Miss(f) || run[i].event == Prepared(f, false))
  }

  predicate GoesToScanner(w: Work) {
    w.Queued? || w.Scanning? || w.Storing? || w == Ended(Scanned) || w == Ended(Refused)
  }

  lemma MovedToScanner(c: Config, s: State, e: Event, f: nat)
    requires SF.InRange(s.sf) && Enabled(c, s, e) && WorkOf(e) == Some(f)
    ensures f < |Apply(c, s, e).works|
    ensures GoesToScanner(Apply(c, s, e).works[f]) ==>
              e == Miss(f) || e == Prepared(f, false) || GoesToScanner(s.works[f])
  {
    hide SF.Apply, SF.InRange, SF.Enabled, Allows, Expired;
  }

  lemma GoesToScannerOnlyWhenTold(c: Config, s: State, e: Event, f: nat)
    requires SF.InRange(s.sf) && Enabled(c, s, e)
    requires f < |Apply(c, s, e).works| && GoesToScanner(Apply(c, s, e).works[f])
    ensures e == Miss(f) || e == Prepared(f, false) || (f < |s.works| && GoesToScanner(s.works[f]))
  {
    hide Apply, Enabled, SF.InRange;
    if f >= |s.works| {
      NewWorkPrepares(c, s, e, f);
    } else if WorkOf(e) == Some(f) {
      MovedToScanner(c, s, e, f);
    } else if WorkOf(e).Some? {
      OnlyItsWorkMoves(c, s, e, f);
    } else {
      NoWorkMoves(c, s, e, f);
    }
  }

  /** Nothing goes to the scanner before the store has been asked in vain, unless its identity is not
      confirmed. */
  lemma {:induction false} OnlyMissesAreScanned(c: Config, start: real, run: seq<Moment>, s: State, f: nat)
    requires Reaches(c, start, run, s) && f < |s.works| && GoesToScanner(s.works[f])
    ensures WasNotStored(run, f)
  {
    if run != [] {
      hide Apply, Enabled, GoesToScanner, SF.InRange;
      var n := |run| - 1;
      var before := LastStep(c, Init(start), run, s);
      GoesToScannerOnlyWhenTold(c, before, run[n].event, f);
      if run[n].event != Miss(f) && run[n].event != Prepared(f, false) {
        OnlyMissesAreScanned(c, start, run[..n], before, f);
        var i: nat :| i < n && (run[..n][i].event == Miss(f) || run[..n][i].event == Prepared(f, false));
        assert run[i].event == run[..n][i].event;
      } else {
        assert run[n].event == Miss(f) || run[n].event == Prepared(f, false);
      }
    }
  }

  // ---- once a key is finished -------------------------------------------------------------------------

  function FlightsOf(sf: SF.State, key: Key): set<nat> {
    set f: nat | f < |sf.flights| && sf.flights[f].key == key
  }

  lemma {:induction false} FinishedStays(c: Config, s: State, e: Event, key: Key)
    requires SF.InRange(s.sf) && Enabled(c, s, e) && key in s.finished
    ensures key in Apply(c, s, e).finished
    ensures FlightsOf(Apply(c, s, e).sf, key) == FlightsOf(s.sf, key)
  {
    var t := Apply(c, s, e);
    FlightKeysGrow(c, s, e);
    assert forall f: nat | |s.sf.flights| <= f < |t.sf.flights| :: t.sf.flights[f].key != key;
  }

  /** Only an arrival that finds nothing adds a flight; no flight's key changes. */
  lemma KeysGrow(s: SF.State, e: SF.Event)
    requires SF.InRange(s) && SF.Enabled(s, e)
    ensures |s.flights| <= |SF.Apply(s, e).flights|
    ensures forall f | 0 <= f < |s.flights| :: SF.Apply(s, e).flights[f].key == s.flights[f].key
    ensures |s.flights| < |SF.Apply(s, e).flights| ==>
              && e.Enter?
              && |SF.Apply(s, e).flights| == |s.flights| + 1
              && SF.Apply(s, e).flights[|s.flights|].key == e.key
  {
  }

  lemma {:induction false} FlightKeysGrow(c: Config, s: State, e: Event)
    requires SF.InRange(s.sf) && Enabled(c, s, e)
    ensures |s.sf.flights| <= |Apply(c, s, e).sf.flights|
    ensures forall f | 0 <= f < |s.sf.flights| :: Apply(c, s, e).sf.flights[f].key == s.sf.flights[f].key
    ensures |s.sf.flights| < |Apply(c, s, e).sf.flights| ==>
              && e.Arrive? && e.key !in s.finished
              && |Apply(c, s, e).sf.flights| == |s.sf.flights| + 1
              && Apply(c, s, e).sf.flights[|s.sf.flights|].key == e.key
  {
    hide SF.Apply, SF.InRange, SF.Enabled, Apply, Enabled;
    TakesItsStep(c, s, e);
    match FlightEvent(c, s, e)
    case None =>
    case Some(x) => KeysGrow(s.sf, x);
  }

  lemma {:induction false} NoNewFlights(c: Config, s: State, run: seq<Moment>, t: State, key: Key)
    requires Runs(c, s, run, t) && key in s.finished
    ensures key in t.finished && FlightsOf(t.sf, key) == FlightsOf(s.sf, key)
  {
    if run != [] {
      var before := LastStep(c, s, run, t);
      NoNewFlights(c, s, run[..|run| - 1], before, key);
      FinishedStays(c, before, run[|run| - 1].event, key);
    }
  }

  // ---- when a finished key can still be scanned -------------------------------------------------------

  /** Work that has not come to the scanner yet. */
  predicate Fresh(w: Work) {
    w.Preparing? || w.Looking? || w.Queued?
  }

  /** A flight of the key is unfinished and has not come to the scanner yet. */
  predicate Pends(s: State, f: nat, key: Key) {
    At(s, f) && s.sf.flights[f].key == key && Fresh(s.works[f])
  }

  /** Taking a slot, the work calls the scanner. */
  ghost predicate StartsScan(c: Config, s: State, f: nat, key: Key) {
    && SF.InRange(s.sf) && Enabled(c, s, TakeSlot(f, 0)) && s.sf.flights[f].key == key
    && Apply(c, s, TakeSlot(f, 0)).works[f].Scanning?
  }

  ghost predicate CanStillScan(c: Config, s: State, key: Key) {
    exists run: seq<Moment>, t: State, f: nat :: Runs(c, s, run, t) && StartsScan(c, t, f, key)
  }

  /** An event moves the work it is about, and no other; most are about none. */
  lemma OnlyItsWorkMoves(c: Config, s: State, e: Event, f: nat)
    requires SF.InRange(s.sf) && Enabled(c, s, e) && f < |s.works| && WorkOf(e).Some? && WorkOf(e) != Some(f)
    ensures f < |Apply(c, s, e).works| && Apply(c, s, e).works[f] == s.works[f] && Apply(c, s, e).now == s.now
  {
    hide SF.Apply, SF.InRange, SF.Enabled, Allows, Expired;
  }

  lemma NoWorkMoves(c: Config, s: State, e: Event, f: nat)
    requires SF.InRange(s.sf) && Enabled(c, s, e) && f < |s.works| && WorkOf(e).None?
    ensures f < |Apply(c, s, e).works| && Apply(c, s, e).works[f] == s.works[f] && s.now <= Apply(c, s, e).now
  {
    hide SF.Apply, SF.InRange, SF.Enabled;
  }

  lemma MovedWasFresh(c: Config, s: State, e: Event, f: nat)
    requires SF.InRange(s.sf) && Enabled(c, s, e) && WorkOf(e) == Some(f)
    ensures f < |Apply(c, s, e).works| && Apply(c, s, e).now == s.now
    ensures Fresh(Apply(c, s, e).works[f]) ==> Fresh(s.works[f])
  {
    hide SF.Apply, SF.InRange, SF.Enabled, Allows, Expired;
  }

  lemma FreshBefore(c: Config, s: State, e: Event, f: nat)
    requires SF.InRange(s.sf) && Enabled(c, s, e) && f < |s.works|
    ensures f < |Apply(c, s, e).works|
    ensures Fresh(Apply(c, s, e).works[f]) ==> Fresh(s.works[f])
    ensures s.now <= Apply(c, s, e).now
  {
    hide Apply, Enabled, SF.InRange, Fresh;
    if WorkOf(e) == Some(f) {
      MovedWasFresh(c, s, e, f);
    } else if WorkOf(e).Some? {
      OnlyItsWorkMoves(c, s, e, f);
    } else {
      NoWorkMoves(c, s, e, f);
    }
  }

  /** No step makes work fresh again, and the clock does not go back. */
  lemma {:induction false} FreshFromTheStart(c: Config, s: State, run: seq<Moment>, t: State, f: nat)
    requires Inv(c, s) && Runs(c, s, run, t) && f < |s.works|
    ensures Inv(c, t) && f < |t.works| && s.now <= t.now
    ensures Fresh(t.works[f]) ==> Fresh(s.works[f])
  {
    if run != [] {
      hide Inv, Apply, Enabled, Fresh;
      var before := LastStep(c, s, run, t);
      FreshFromTheStart(c, s, run[..|run| - 1], before, f);
      FreshBefore(c, before, run[|run| - 1].event, f);
      InvKept(c, before, run[|run| - 1].event);
    }
  }

  lemma {:induction false} ScanNeedsFreshWork(c: Config, s: State, run: seq<Moment>, t: State, f: nat, key: Key)
    requires Inv(c, s) && Runs(c, s, run, t) && key in s.finished && StartsScan(c, t, f, key)
    ensures Pends(s, f, key) && Starts(c, s.now) && c.maxConcurrency >= 1
  {
    hide Inv, StartsScan, Runs, Starts;
    ScanNeeds(c, t, f, key);
    NoNewFlights(c, s, run, t, key);
    assert f in FlightsOf(s.sf, key);
    FlightsAreWorks(c, s, f);
    FreshFromTheStart(c, s, run, t, f);
    WorkRuns(c, s, f);
    StartsEarlier(c, s.now, t.now);
  }

  lemma ScanNeeds(c: Config, s: State, f: nat, key: Key)
    requires StartsScan(c, s, f, key)
    ensures f in FlightsOf(s.sf, key) && f < |s.works| && Fresh(s.works[f])
    ensures Starts(c, s.now) && c.maxConcurrency >= 1
  {
    hide SF.Apply, SF.InRange;
  }

  lemma StartsEarlier(c: Config, now: real, later: real)
    requires now <= later && Starts(c, later)
    ensures Starts(c, now)
  {
  }

  lemma FlightsAreWorks(c: Config, s: State, f: nat)
    requires Inv(c, s)
    ensures |s.works| == |s.sf.flights| && |Those(s.works, IsScanning)| <= c.maxConcurrency && SF.InRange(s.sf)
  {
  }

  lemma WorkRuns(c: Config, s: State, f: nat)
    requires Inv(c, s) && f < |s.works| && !s.works[f].Ended?
    ensures At(s, f)
  {
  }

  /** One step more keeps the run a run, and the invariant. */
  lemma Go(c: Config, first: State, run: seq<Moment>, s: State, e: Event) returns (longer: seq<Moment>, t: State)
    requires Inv(c, s) && Runs(c, first, run, s) && Enabled(c, s, e)
    ensures t == Apply(c, s, e) && Runs(c, first, longer, t) && Inv(c, t)
  {
    hide Apply, Enabled, Runs;
    t := Apply(c, s, e);
    longer := run + [Moment(e, t)];
    OneStepMore(c, first, run, s, e);
    InvKept(c, s, e);
  }

  lemma NoSteps(c: Config, s: State)
    ensures Runs(c, s, [], s)
  {
  }

  /** Fresh work can come to the head of the queue at once. */
  lemma Queue(c: Config, s: State, f: nat, key: Key) returns (run: seq<Moment>, t: State)
    requires Inv(c, s) && Pends(s, f, key)
    ensures Runs(c, s, run, t) && Inv(c, t) && Pends(t, f, key) && t.works[f].Queued? && t.now == s.now
  {
    hide Inv, Runs;
    run, t := [], s;
    NoSteps(c, s);
    if s.works[f].Preparing? {
      run, t := Go(c, s, run, s, Prepared(f, false));
    } else if s.works[f].Looking? {
      run, t := Go(c, s, run, s, Miss(f));
    }
  }

  /** A slot can be freed for it: a scan under way can fail. */
  lemma FreeSlot(c: Config, first: State, run: seq<Moment>, s: State, f: nat, key: Key)
    returns (longer: seq<Moment>, t: State)
    requires Inv(c, s) && Runs(c, first, run, s) && Pends(s, f, key) && s.works[f].Queued? && c.maxConcurrency >= 1
    ensures Runs(c, first, longer, t) && Inv(c, t) && Pends(t, f, key) && t.works[f].Queued? && t.now == s.now
    ensures |Those(t.works, IsScanning)| < c.maxConcurrency
  {
    hide Inv, Runs, Those;
    longer, t := run, s;
    FlightsAreWorks(c, s, f);
    if |Those(s.works, IsScanning)| == c.maxConcurrency {
      var g := OneOf(s.works);
      WorkRuns(c, s, g);
      longer, t := Go(c, first, run, s, Abort(g, true));
      AbortFrees(s, t, f, g, key);
    }
  }

  lemma OneOf(works: seq<Work>) returns (g: nat)
    requires |Those(works, IsScanning)| > 0
    ensures g < |works| && works[g].Scanning?
  {
    g :| g in Those(works, IsScanning);
  }

  lemma AbortFrees(s: State, t: State, f: nat, g: nat, key: Key)
    requires SF.InRange(s.sf) && At(s, g) && Pends(s, f, key) && s.works[f].Queued? && IsScanning(s.works[g])
    requires t == s.(works := s.works[g := Ended(Aborted(false))], sf := SF.Apply(s.sf, SF.Finish(g, SF.Raised)))
    ensures Pends(t, f, key) && t.works[f].Queued?
    ensures |Those(t.works, IsScanning)| == |Those(s.works, IsScanning)| - 1
  {
    ThoseUpdated(s.works, g, Ended(Aborted(false)), IsScanning);
  }

  lemma FreshWorkCanScan(c: Config, s: State, f: nat, key: Key)
    requires Inv(c, s) && Pends(s, f, key) && Starts(c, s.now) && c.maxConcurrency >= 1
    ensures CanStillScan(c, s, key)
  {
    hide Inv, Runs, StartsScan, Pends;
    var run, t := Queue(c, s, f, key);
    run, t := FreeSlot(c, s, run, t, f, key);
    ReadyWorkStarts(c, t, f, key);
  }

  lemma ReadyWorkStarts(c: Config, s: State, f: nat, key: Key)
    requires Inv(c, s) && Pends(s, f, key) && s.works[f].Queued? && Starts(c, s.now)
    requires |Those(s.works, IsScanning)| < c.maxConcurrency
    ensures StartsScan(c, s, f, key)
  {
    hide Inv, Those, SF.Apply;
    FlightsAreWorks(c, s, f);
  }

  /** After any run that has remembered a measurement of `key`, a scan of it can still start if and only if
      a flight of it is under way that has not come to the scanner, enough of the budget is left, and
      there is a slot at all. */
  lemma {:induction false} ScanAfterFinishedIff(c: Config, start: real, past: seq<Moment>, s: State, key: Key)
    requires Reaches(c, start, past, s) && key in s.finished
    ensures CanStillScan(c, s, key) <==>
            Starts(c, s.now) && c.maxConcurrency >= 1 && exists f: nat :: Pends(s, f, key)
  {
    hide Inv, Pends, StartsScan, Starts, Runs;
    InvHolds(c, start, past, s);
    if CanStillScan(c, s, key) {
      var run: seq<Moment>, t: State, f: nat :| Runs(c, s, run, t) && StartsScan(c, t, f, key);
      ScanNeedsFreshWork(c, s, run, t, f, key);
    }
    if Starts(c, s.now) && c.maxConcurrency >= 1 && exists f: nat :: Pends(s, f, key) {
      var f: nat :| Pends(s, f, key);
      FreshWorkCanScan(c, s, f, key);
    }
  }

  // ---- how often a finished key can still be scanned ---------------------------------------------------

  /** The moment at which a scanner call for the key begins. */
  predicate BeginsScan(s: State, m: Moment, key: Key) {
    && m.event.TakeSlot? && m.event.f < |s.sf.flights| && s.sf.flights[m.event.f].key == key
    && m.event.f < |m.state.works| && m.state.works[m.event.f].Scanning?
  }

  function ScanStarts(first: State, run: seq<Moment>, key: Key): set<nat> {
    set i: nat | i < |run| && BeginsScan(Before(first, run, i), run[i], key)
  }

  lemma NoStarts(first: State, key: Key)
    ensures ScanStarts(first, [], key) == {}
  {
  }

  lemma StartsOfFront(first: State, run: seq<Moment>, key: Key)
    requires run != []
    ensures
      var n := |run| - 1;
      ScanStarts(first, run, key)
      == ScanStarts(first, run[..n], key) + if BeginsScan(Before(first, run, n), run[n], key) then {n} else {}
  {
    hide BeginsScan;
    var n := |run| - 1;
    assert forall i: nat | i < n :: Before(first, run[..n], i) == Before(first, run, i);
  }

  lemma FreshWhenBegun(c: Config, s: State, m: Moment, key: Key)
    requires SF.InRange(s.sf) && Enabled(c, s, m.event) && BeginsScan(s, m, key)
    ensures m.event.TakeSlot? && Pends(s, m.event.f, key)
  {
    hide SF.InRange;
  }

  lemma PendedBefore(c: Config, s: State, e: Event, f: nat, key: Key)
    requires Inv(c, s) && Enabled(c, s, e) && key in s.finished && Pends(Apply(c, s, e), f, key)
    ensures Pends(s, f, key)
  {
    hide Inv, Apply, Enabled, SF.InRange;
    FlightsAreWorks(c, s, f);
    FinishedStays(c, s, e, key);
    assert f in FlightsOf(Apply(c, s, e).sf, key);
    FreshBefore(c, s, e, f);
    WorkRuns(c, s, f);
  }

  /** Flights of one key that are both unfinished are one flight. */
  lemma OneRunsPerKey(c: Config, s: State, f: nat, g: nat)
    requires Inv(c, s) && f < |s.sf.flights| && g < |s.sf.flights|
    requires s.sf.flights[f].phase.Running? && s.sf.flights[g].phase.Running?
    requires s.sf.flights[f].key == s.sf.flights[g].key
    ensures f == g
  {
  }

  lemma NothingPendsBesideScan(c: Config, s: State, f: nat, g: nat, key: Key)
    requires Inv(c, s) && f in FlightsOf(s.sf, key) && f < |s.works| && s.works[f].Scanning?
    ensures !Pends(s, g, key)
  {
    hide Inv;
    WorkRuns(c, s, f);
    if Pends(s, g, key) {
      OneRunsPerKey(c, s, f, g);
    }
  }

  /** The last step of a run, from the state before it. */
  lemma LastOf(c: Config, first: State, run: seq<Moment>, last: State) returns (s: State)
    requires Runs(c, first, run, last) && run != []
    ensures s == Before(first, run, |run| - 1) && Runs(c, first, run[..|run| - 1], s)
    ensures SF.InRange(s.sf) && Enabled(c, s, run[|run| - 1].event)
    ensures last == run[|run| - 1].state == Apply(c, s, run[|run| - 1].event)
  {
    hide Apply, Enabled, SF.InRange;
    var n := |run| - 1;
    s := LastStep(c, first, run, last);
  }

  lemma {:induction false} AlwaysInv(c: Config, s: State, run: seq<Moment>, t: State)
    requires Inv(c, s) && Runs(c, s, run, t)
    ensures Inv(c, t)
  {
    if run != [] {
      hide Inv, Apply, Enabled, SF.InRange;
      var before := LastStep(c, s, run, t);
      AlwaysInv(c, s, run[..|run| - 1], before);
      InvKept(c, before, run[|run| - 1].event);
    }
  }

  lemma ScanningNow(c: Config, s: State, m: Moment, key: Key)
    requires SF.InRange(s.sf) && Enabled(c, s, m.event) && key in s.finished
    requires m.state == Apply(c, s, m.event) && BeginsScan(s, m, key)
    ensures m.event.TakeSlot? && m.event.f in FlightsOf(m.state.sf, key)
    ensures m.event.f < |m.state.works| && m.state.works[m.event.f].Scanning?
  {
    hide Apply, Enabled, SF.InRange;
    FinishedStays(c, s, m.event, key);
    assert m.event.f in FlightsOf(s.sf, key);
  }

  lemma NothingPendsNext(c: Config, s: State, m: Moment, key: Key, g: nat)
    requires Inv(c, s) && Enabled(c, s, m.event) && m.state == Apply(c, s, m.event) && key in s.finished
    requires BeginsScan(s, m, key) || !Pends(s, g, key)
    ensures !Pends(m.state, g, key)
  {
    hide Inv, Apply, Enabled, Pends, BeginsScan, FlightsOf, SF.InRange;
    FlightsAreWorks(c, s, g);
    InvKept(c, s, m.event);
    if BeginsScan(s, m, key) {
      ScanningNow(c, s, m, key);
      NothingPendsBesideScan(c, m.state, m.event.f, g, key);
    } else if Pends(m.state, g, key) {
      PendedBefore(c, s, m.event, g, key);
    }
  }

  /** Once such a scan has begun, no work for the key is left that has not come to the scanner. */
  lemma {:induction false} NothingPendsAfterScan(c: Config, s: State, run: seq<Moment>, t: State, key: Key, g: nat)
    requires Inv(c, s) && Runs(c, s, run, t) && key in s.finished && ScanStarts(s, run, key) != {}
    ensures !Pends(t, g, key)
  {
    hide Inv, Apply, Enabled, Runs, Pends, Before, BeginsScan, ScanStarts, FlightsOf, SF.InRange;
    if run == [] {
      NoStarts(s, key);
    } else {
      var n := |run| - 1;
      var before := LastOf(c, s, run, t);
      AlwaysInv(c, s, run[..n], before);
      NoNewFlights(c, s, run[..n], before, key);
      StartsOfFront(s, run, key);
      if !BeginsScan(before, run[n], key) {
        NothingPendsAfterScan(c, s, run[..n], before, key, g);
      }
      NothingPendsNext(c, before, run[n], key, g);
    }
  }

  lemma {:induction false} AtMostOneScan(c: Config, s: State, run: seq<Moment>, t: State, key: Key)
    requires Inv(c, s) && Runs(c, s, run, t) && key in s.finished
    ensures |ScanStarts(s, run, key)| <= 1
  {
    hide Inv, Apply, Enabled, Runs, Pends, Before, BeginsScan, ScanStarts, SF.InRange;
    if run == [] {
      NoStarts(s, key);
    } else {
      var n := |run| - 1;
      var before := LastOf(c, s, run, t);
      StartsOfFront(s, run, key);
      if BeginsScan(before, run[n], key) {
        FreshWhenBegun(c, before, run[n], key);
        if ScanStarts(s, run[..n], key) != {} {
          NothingPendsAfterScan(c, s, run[..n], before, key, run[n].event.f);
        }
      } else {
        AtMostOneScan(c, s, run[..n], before, key);
      }
    }
  }

  /** From the moment a measurement of `key` is remembered, no new work is ever started for it: at most
      the one computation already under way can still call the scanner, and it does so at most once. */
  lemma {:induction false} AtMostOneStrayComputation(
    c: Config, start: real, past: seq<Moment>, s: State, run: seq<Moment>, t: State, key: Key)
    requires Reaches(c, start, past, s) && Runs(c, s, run, t) && key in s.finished
    ensures key in t.finished && FlightsOf(t.sf, key) == FlightsOf(s.sf, key)
    ensures forall f, g | f in FlightsOf(s.sf, key) && g in FlightsOf(s.sf, key) ::
              s.sf.flights[f].phase.Running? && s.sf.flights[g].phase.Running? ==> f == g
    ensures |ScanStarts(s, run, key)| <= 1
  {
    hide Reaches, Runs, ScanStarts, Inv;
    InvHolds(c, start, past, s);
    NoNewFlights(c, s, run, t, key);
    forall f, g | f in FlightsOf(s.sf, key) && g in FlightsOf(s.sf, key)
      ensures s.sf.flights[f].phase.Running? && s.sf.flights[g].phase.Running? ==> f == g
    {
      if s.sf.flights[f].phase.Running? && s.sf.flights[g].phase.Running? {
        OneRunsPerKey(c, s, f, g);
      }
    }
    AtMostOneScan(c, s, run, t, key);
  }

  // ---- and what is not guaranteed: one scan per key and run -------------------------------------------

  lemma {:induction false} Next(c: Config, start: real, run: seq<Moment>, s: State, e: Event)
    returns (longer: seq<Moment>, t: State)
    requires Reaches(c, start, run, s) && SF.InRange(s.sf) && Enabled(c, s, e)
    ensures t == Apply(c, s, e) && Reaches(c, start, longer, t) && SF.InRange(t.sf)
  {
    t := Apply(c, s, e);
    longer := run + [Moment(e, t)];
    OneStepMore(c, Init(start), run, s, e);
    InvHolds(c, start, longer, t);
  }

  /** One flight with one caller still suspended on it, nothing remembered yet. */
  ghost predicate OneFlight(s: State, start: real, flight: SF.Flight, work: Work) {
    && s.sf == SF.Alone(flight, [SF.Caller(0, false, false, SF.Waiting)])
    && s.works == [work] && s.finished == map[] && s.prefetched == map[] && s.now == start
  }

  lemma {:induction false} Queueing(c: Config, start: real, key: Key) returns (run: seq<Moment>, s: State)
    ensures Reaches(c, start, run, s) && SF.InRange(s.sf)
    ensures OneFlight(s, start, SF.Flight(key, SF.Running, 1, false, false), Queued)
  {
    SF.FirstJoins(key);
    run, s := Next(c, start, [], Init(start), Arrive(key, false));
    assert OneFlight(s, start, SF.Flight(key, SF.Running, 1, false, false), Preparing);
    run, s := Next(c, start, run, s, Prepared(0, false));
  }

  lemma {:induction false} Storage(c: Config, start: real, key: Key) returns (run: seq<Moment>, s: State)
    requires c.maxConcurrency >= 1 && Starts(c, start)
    ensures Reaches(c, start, run, s) && SF.InRange(s.sf)
    ensures OneFlight(s, start, SF.Flight(key, SF.Running, 1, false, false), Storing)
  {
    run, s := Queueing(c, start, key);
    assert Those(s.works, IsScanning) == {};
    run, s := Next(c, start, run, s, TakeSlot(0, 7));
    assert OneFlight(s, start, SF.Flight(key, SF.Running, 1, false, false), Scanning(start));
    run, s := Next(c, start, run, s, ScanDone(0));
  }

  /** The first work has scanned and stored, and the event loop has run its done-callback; the caller
      that started it has not resumed yet. */
  lemma {:induction false} InTheGap(c: Config, start: real, key: Key) returns (run: seq<Moment>, s: State)
    requires c.maxConcurrency >= 1 && Starts(c, start)
    ensures Reaches(c, start, run, s) && SF.InRange(s.sf)
    ensures OneFlight(s, start, SF.Flight(key, SF.Done(SF.Value(7)), 1, false, true), Ended(Scanned))
  {
    run, s := Storage(c, start, key);
    run, s := Next(c, start, run, s, Stored(0, 7));
    assert OneFlight(s, start, SF.Flight(key, SF.Done(SF.Value(7)), 1, false, false), Ended(Scanned));
    run, s := Next(c, start, run, s, Announce(0));
    assert s.sf.table == map[];
  }

  /** The table after a second request for a key whose first flight has left it. */
  function TwoFlights(key: Key, first: SF.Caller): SF.State {
    var waiting := if first.status.Waiting? then 1 else 0;
    SF.State(map[key := 1],
             [SF.Flight(key, SF.Done(SF.Value(7)), waiting, false, true), SF.Flight(key, SF.Running, 1, false, false)],
             [first, SF.Caller(1, false, false, SF.Waiting)])
  }

  lemma EnterInTheGap(key: Key)
    ensures
      var first := SF.Caller(0, false, false, SF.Waiting);
      var s := SF.Alone(SF.Flight(key, SF.Done(SF.Value(7)), 1, false, true), [first]);
      SF.Apply(s, SF.Enter(key)) == TwoFlights(key, first)
  {
  }

  lemma DeliverInTheGap(key: Key)
    ensures
      SF.Apply(TwoFlights(key, SF.Caller(0, false, false, SF.Waiting)), SF.Event.Deliver(0))
      == TwoFlights(key, SF.Caller(0, false, false, SF.Returned(SF.Value(7))))
  {
  }

  lemma {:induction false} SecondFlight(c: Config, start: real, key: Key) returns (run: seq<Moment>, s: State)
    requires c.maxConcurrency >= 1 && Starts(c, start)
    ensures Reaches(c, start, run, s) && SF.InRange(s.sf)
    ensures s.sf == TwoFlights(key, SF.Caller(0, false, false, SF.Waiting))
    ensures s.works == [Ended(Scanned), Preparing] && s.now == start
  {
    run, s := InTheGap(c, start, key);
    EnterInTheGap(key);
    run, s := Next(c, start, run, s, Arrive(key, false));
  }

  /** A second flight for the key is queued for a scan, and the first measurement is remembered. */
  lemma {:induction false} RememberedWhileQueued(c: Config, start: real, key: Key)
    returns (run: seq<Moment>, s: State)
    requires c.maxConcurrency >= 1 && Starts(c, start)
    ensures Reaches(c, start, run, s) && SF.InRange(s.sf)
    ensures key in s.finished && s.works == [Ended(Scanned), Queued] && s.now == start
    ensures s.sf == TwoFlights(key, SF.Caller(0, false, false, SF.Returned(SF.Value(7))))
  {
    run, s := SecondFlight(c, start, key);
    DeliverInTheGap(key);
    run, s := Next(c, start, run, s, Deliver(0));
    assert key in s.finished;
    run, s := Next(c, start, run, s, Prepared(1, false));
  }

  /** "No scan starts for a key once its measurement is remembered" is false: a request that arrives
      between the done-callback and the first caller's resumption starts a second scan of the key. */
  lemma {:induction false} SecondScanOfFinishedKey(c: Config, start: real, key: Key)
    returns (past: seq<Moment>, before: State, run: seq<Moment>, s: State)
    requires c.maxConcurrency >= 1 && Starts(c, start)
    ensures Reaches(c, start, past, before) && SF.InRange(before.sf) && Enabled(c, before, TakeSlot(1, 8))
    ensures key in before.finished && before.sf.flights[1].key == key
    ensures s == Apply(c, before, TakeSlot(1, 8)) && Reaches(c, start, run, s)
    ensures s.works == [Ended(Scanned), Scanning(start)]
  {
    past, before := RememberedWhileQueued(c, start, key);
    assert Those(before.works, IsScanning) == {};
    run, s := Next(c, start, past, before, TakeSlot(1, 8));
  }

  // ---- the service as an object -----------------------------------------------------------------------

  class Service {
    const config: Config
    const table: SF.FlightTable
    var works: seq<Work>
    var finished: map<Key, SF.Result>
    var prefetched: map<Key, SF.Result>
    var calls: seq<Call>
    var stats: Stats
    var now: real
    ghost var prefills: multiset<(Key, SF.Result)>
    ghost var batchScans: nat
    ghost var batchHits: nat

    ghost function Abs(): State
      reads this, table
    {
      State(table.Abs(), works, finished, prefetched, calls, stats, now, prefills, batchScans, batchHits)
    }

    constructor (config: Config, start: real)
      ensures Abs() == Init(start) && this.config == config && fresh(table)
    {
      this.config := config;
      table := new SF.FlightTable();
      works, finished, prefetched, calls, stats := [], map[], map[], [], Stats(0, 0, 0, 0);
      now, prefills, batchScans, batchHits := start, multiset{}, 0, 0;
    }

    /** `measure`, from the resolved identity to its first suspension or its answer. */
    method Measure(key: Key, mismatch: bool) returns (answer: Option<SF.Result>)
      requires SF.InRange(table.Abs())
      modifies this, table
      ensures Abs() == Apply(config, old(Abs()), Arrive(key, mismatch))
      ensures mismatch ==> answer.None?
      ensures !mismatch && key in old(prefetched) ==> answer == Some(old(prefetched)[key])
      ensures !mismatch && key !in old(prefetched) && key in old(finished) ==> answer == Some(old(finished)[key])
      ensures answer.Some? ==> key in finished && finished[key] == answer.value
    {
      if mismatch {
        calls := calls + [Mismatch];
        return None;
      }
      if key in prefetched {
        var result := prefetched[key];
        prefetched := prefetched - {key};
        finished := finished[key := result];
        calls := calls + [Prefetched(key, result)];
        return Some(result);
      }
      if key in finished {
        stats := stats.(duplicates := stats.duplicates + 1);
        calls := calls + [Remembered(key, finished[key])];
        return Some(finished[key]);
      }
      if key !in table.table {
        works := works + [Preparing];
      }
      var c := table.Enter(key);
      calls := calls + [Flying(c)];
      var me := table.callers[c];
      answer := None;
      if me.status.Returned? {
        answer := AfterFlight(key, me.status.outcome, true);
      }
    }

    /** The rest of `measure` once the flight has answered. */
    method AfterFlight(key: Key, outcome: SF.Outcome, joined: bool) returns (answer: Option<SF.Result>)
      modifies this
      ensures Abs() == Resume(old(Abs()), key, outcome, joined)
      ensures table.Abs() == old(table.Abs())
      ensures answer == if outcome.Value? then Some(outcome.v) else None
      ensures answer.Some? ==> finished == old(finished)[key := answer.value]
    {
      answer := None;
      if outcome.Value? {
        if joined {
          stats := stats.(duplicates := stats.duplicates + 1);
        }
        finished := finished[key := outcome.v];
        answer := Some(outcome.v);
      }
    }

    /** A suspended `measure` resumes. */
    method Resumes(c: nat) returns (answer: Option<SF.Result>)
      requires SF.InRange(table.Abs()) && Enabled(config, Abs(), Deliver(c))
      modifies this, table
      ensures Abs() == Apply(config, old(Abs()), Deliver(c))
      ensures
        var flight := old(table.flights[table.callers[c].flight]);
        match flight.phase.outcome
        case Value(v) => answer == Some(v) && finished == old(finished)[flight.key := v]
        case _ => answer.None? && finished == old(finished)
    {
      var key := table.flights[table.callers[c].flight].key;
      var outcome, shared := table.Deliver(c);
      answer := AfterFlight(key, outcome, shared);
    }

    /** Queued work is given a slot: it scans, or reports that the budget is too short to start. */
    method ScanBounded(f: nat, v: SF.Result)
      requires SF.InRange(table.Abs()) && Enabled(config, Abs(), TakeSlot(f, v))
      modifies this, table
      ensures Abs() == Apply(config, old(Abs()), TakeSlot(f, v))
    {
      if !Allows(config, now) {
        stats := stats.(notStarted := stats.notStarted + 1);
        works := works[f := Ended(NotStarted)];
        table.Finish(f, SF.Value(v));
        return;
      }
      if Expired(config, now) {
        works := works[f := Ended(Interrupted)];
        table.Finish(f, SF.Value(v));
        return;
      }
      works := works[f := Scanning(now)];
    }
  }
}
