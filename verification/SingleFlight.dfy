/** One in-flight computation shared by the callers that ask the same question.

    Between two suspension points everything runs without interruption, so the protocol is a transition
    system: each event is what one caller, the shared work or the event loop does in one such stretch. */
module SingleFlight {

  type Key = seq<string>

  /** The protocol never looks inside a result, so a number names it. */
  type Result = nat

  datatype Outcome = Value(v: Result) | Raised | Cancelled

  datatype Phase = Running | Done(outcome: Outcome)

  /** `cancelled`: the work has been asked to stop.  `announced`: its done-callback has run. */
  datatype Flight = Flight(key: Key, phase: Phase, waiters: int, cancelled: bool, announced: bool)

  datatype Status = Waiting | Draining | Returned(outcome: Outcome) | Left

  /** `late`: the flight had already been cancelled when this caller joined it. */
  datatype Caller = Caller(flight: nat, shared: bool, late: bool, status: Status)

  /** Flights and callers are named by their position, in order of creation. */
  datatype State = State(table: map<Key, nat>, flights: seq<Flight>, callers: seq<Caller>)

  function Init(): State {
    State(map[], [], [])
  }

  datatype Event =
    | Enter(key: Key)
    | Finish(f: nat, outcome: Outcome)
    | Announce(f: nat)
    | Deliver(c: nat)
    | Leave(c: nat)
    | LeaveAgain(c: nat)
    | Drained(c: nat)

  // ---- steps ------------------------------------------------------------------------------------------

  ghost predicate InRange(s: State) {
    && (forall k | k in s.table :: s.table[k] < |s.flights|)
    && (forall c | 0 <= c < |s.callers| :: s.callers[c].flight < |s.flights|)
  }

  /** The event can happen now.  A waiter is resumed after the done-callback: that callback was
      registered when the work was created, before any waiter's. */
  predicate Enabled(s: State, e: Event) {
    match e
    case Enter(key) => true
    case Finish(f, _) => f < |s.flights| && s.flights[f].phase.Running?
    case Announce(f) => f < |s.flights| && s.flights[f].phase.Done? && !s.flights[f].announced
    case Deliver(c) =>
      && c < |s.callers| && s.callers[c].status.Waiting? && s.callers[c].flight < |s.flights|
      && s.flights[s.callers[c].flight].phase.Done? && s.flights[s.callers[c].flight].announced
    case Leave(c) =>
      c < |s.callers| && s.callers[c].status.Waiting? && s.callers[c].flight < |s.flights|
    case LeaveAgain(c) =>
      && c < |s.callers| && s.callers[c].status.Draining? && s.callers[c].flight < |s.flights|
      && s.flights[s.callers[c].flight].phase.Running?
    case Drained(c) =>
      && c < |s.callers| && s.callers[c].status.Draining? && s.callers[c].flight < |s.flights|
      && s.flights[s.callers[c].flight].phase.Done? && s.flights[s.callers[c].flight].announced
  }

  function SetStatus(s: State, c: nat, status: Status): seq<Caller>
    requires c < |s.callers|
  {
    s.callers[c := s.callers[c].(status := status)]
  }

  function Join(s: State, f: nat, shared: bool): State
    requires f < |s.flights|
  {
    var flight := s.flights[f];
    match flight.phase
    case Done(outcome) =>
      s.(callers := s.callers + [Caller(f, shared, flight.cancelled, Returned(outcome))])
    case Running =>
      s.(flights := s.flights[f := flight.(waiters := flight.waiters + 1)],
         callers := s.callers + [Caller(f, shared, flight.cancelled, Waiting)])
  }

  function Create(s: State, key: Key): State {
    s.(table := s.table[key := |s.flights|],
       flights := s.flights + [Flight(key, Running, 0, false, false)])
  }

  function Apply(s: State, e: Event): State
    requires InRange(s) && Enabled(s, e)
  {
    match e
    case Enter(key) =>
      if key in s.table then Join(s, s.table[key], true)
      else Join(Create(s, key), |s.flights|, false)
    case Finish(f, outcome) =>
      s.(flights := s.flights[f := s.flights[f].(phase := Done(outcome))])
    case Announce(f) =>
      var flight := s.flights[f];
      s.(table := if flight.key in s.table && s.table[flight.key] == f then s.table - {flight.key} else s.table,
         flights := s.flights[f := flight.(announced := true)])
    case Deliver(c) =>
      var f := s.callers[c].flight;
      var flight := s.flights[f];
      s.(flights := s.flights[f := flight.(waiters := flight.waiters - 1)],
         callers := SetStatus(s, c, Returned(flight.phase.outcome)))
    case Leave(c) =>
      var f := s.callers[c].flight;
      var flight := s.flights[f];
      var last := flight.waiters - 1 == 0 && flight.phase.Running?;
      s.(flights := s.flights[f := flight.(waiters := flight.waiters - 1, cancelled := flight.cancelled || last)],
         callers := SetStatus(s, c, if last then Draining else Left))
    case LeaveAgain(c) =>
      var f := s.callers[c].flight;
      s.(flights := s.flights[f := s.flights[f].(cancelled := true)])
    case Drained(c) =>
      s.(callers := SetStatus(s, c, Left))
  }

  // ---- runs -------------------------------------------------------------------------------------------

  /** `s` is reached by a sequence of events, each possible when it happens. */
  ghost predicate Reaches(events: seq<Event>, s: State) {
    if events == [] then s == Init()
    else
      exists before: State ::
        && Reaches(events[..|events| - 1], before)
        && InRange(before)
        && Enabled(before, events[|events| - 1])
        && s == Apply(before, events[|events| - 1])
  }

  // ---- the invariant ----------------------------------------------------------------------------------

  ghost function WaitersOf(s: State, f: nat): set<nat> {
    set c: nat | c < |s.callers| && s.callers[c].flight == f && s.callers[c].status.Waiting?
  }

  /** A flight is in the table from its creation until its done-callback, and no longer. */
  ghost predicate TableInv(s: State) {
    && (forall k | k in s.table ::
          s.table[k] < |s.flights| && s.flights[s.table[k]].key == k && !s.flights[s.table[k]].announced)
    && (forall f | 0 <= f < |s.flights| ::
          if s.flights[f].announced then s.flights[f].phase.Done?
          else s.flights[f].key in s.table && s.table[s.flights[f].key] == f)
  }

  ghost predicate CountInv(s: State) {
    && (forall c | 0 <= c < |s.callers| :: s.callers[c].flight < |s.flights|)
    && (forall f: nat | f < |s.flights| :: s.flights[f].waiters == |WaitersOf(s, f)|)
  }

  /** Unfinished work always has somebody: a waiter, or once cancelled a caller that stays to see it
      stop. */
  ghost predicate OwnedInv(s: State) {
    && (forall f | 0 <= f < |s.flights| && s.flights[f].phase.Running? ::
          if s.flights[f].cancelled then exists c :: 0 <= c < |s.callers| && IsDraining(s, c, f)
          else s.flights[f].waiters > 0)
    && (forall c | 0 <= c < |s.callers| && s.callers[c].status.Draining? ::
          s.callers[c].flight < |s.flights| && s.flights[s.callers[c].flight].cancelled)
  }

  predicate IsDraining(s: State, c: nat, f: nat) {
    c < |s.callers| && s.callers[c].flight == f && s.callers[c].status.Draining?
  }

  /** Everybody who was given an outcome was given the flight's; and a caller still bound to a flight
      joined late exactly when the flight has been cancelled. */
  ghost predicate OutcomeInv(s: State) {
    forall c | 0 <= c < |s.callers| ::
      var caller := s.callers[c];
      && caller.flight < |s.flights|
      && var flight := s.flights[caller.flight];
         && (caller.status.Returned? ==> flight.phase == Done(caller.status.outcome))
         && (caller.status.Returned? || caller.status.Waiting? ==> (caller.late <==> flight.cancelled))
  }

  /** Each flight was started by exactly one caller. */
  ghost predicate CreatorInv(s: State) {
    && (forall f: nat | f < |s.flights| :: HasStarter(s, f))
    && (forall c: nat, d: nat, f: nat | Started(s, c, f) && Started(s, d, f) :: c == d)
    && (forall c | 0 <= c < |s.callers| :: s.callers[c].flight < |s.flights|)
  }

  predicate Started(s: State, c: nat, f: nat) {
    c < |s.callers| && s.callers[c].flight == f && !s.callers[c].shared
  }

  ghost predicate HasStarter(s: State, f: nat) {
    exists c: nat :: Started(s, c, f)
  }

  ghost predicate Inv(s: State) {
    && TableInv(s)
    && CountInv(s)
    && OwnedInv(s)
    && OutcomeInv(s)
    && CreatorInv(s)
  }

  lemma InvInRange(s: State)
    requires TableInv(s) && CountInv(s)
    ensures InRange(s)
  {
  }

  // ---- preservation, one part at a time ---------------------------------------------------------------

  /** The same table over flights with the same keys, of which as many are announced and no fewer done. */
  ghost predicate SameEntries(s: State, t: State) {
    && t.table == s.table && |t.flights| == |s.flights|
    && forall f | 0 <= f < |s.flights| ::
         && t.flights[f].key == s.flights[f].key
         && t.flights[f].announced == s.flights[f].announced
         && (s.flights[f].phase.Done? ==> t.flights[f].phase.Done?)
  }

  lemma TableKeptBySame(s: State, t: State)
    requires TableInv(s) && SameEntries(s, t)
    ensures TableInv(t)
  {
  }

  lemma TableKeptByCreate(s: State, key: Key)
    requires TableInv(s) && key !in s.table
    ensures TableInv(Create(s, key))
  {
  }

  lemma TableKeptByAnnounce(s: State, f: nat)
    requires InRange(s) && Enabled(s, Announce(f)) && TableInv(s)
    ensures TableInv(Apply(s, Announce(f)))
  {
    hide InRange;
  }

  lemma {:induction false} TableKept(s: State, e: Event)
    requires InRange(s) && Enabled(s, e) && TableInv(s)
    ensures TableInv(Apply(s, e))
  {
    hide TableInv;
    match e
    case Enter(key) =>
      if key in s.table {
        TableKeptBySame(s, Apply(s, e));
      } else {
        TableKeptByCreate(s, key);
        TableKeptBySame(Create(s, key), Apply(s, e));
      }
    case Announce(f) => TableKeptByAnnounce(s, f);
    case _ => TableKeptBySame(s, Apply(s, e));
  }

  lemma WaitersAfterJoin(s: State, f: nat, shared: bool, g: nat)
    requires f < |s.flights|
    ensures
      var joiner: set<nat> := if g == f && s.flights[f].phase.Running? then {|s.callers|} else {};
      && WaitersOf(Join(s, f, shared), g) == WaitersOf(s, g) + joiner
      && |WaitersOf(Join(s, f, shared), g)| == |WaitersOf(s, g)| + |joiner|
  {
    hide Join;
    var before, after, n := WaitersOf(s, g), WaitersOf(Join(s, f, shared), g), |s.callers|;
    forall c: nat
      ensures c in after <==> c in before || (c == n && g == f && s.flights[f].phase.Running?)
    {
      CallerAfterJoin(s, f, shared, c);
    }
    assert n !in before;
    assert after - {n} == before;
  }

  lemma CallerAfterJoin(s: State, f: nat, shared: bool, c: nat)
    requires f < |s.flights|
    ensures
      var callers := Join(s, f, shared).callers;
      && |callers| == |s.callers| + 1
      && (c < |s.callers| ==> callers[c] == s.callers[c])
      && callers[|s.callers|].flight == f
      && (callers[|s.callers|].status.Waiting? <==> s.flights[f].phase.Running?)
  {
  }

  lemma CountedJoin(s: State, f: nat, shared: bool)
    requires f < |s.flights| && CountInv(s)
    ensures CountInv(Join(s, f, shared))
  {
    hide WaitersOf;
    var t := Join(s, f, shared);
    forall g: nat | g < |t.flights|
      ensures t.flights[g].waiters == |WaitersOf(t, g)|
    {
      WaitersAfterJoin(s, f, shared, g);
    }
  }

  lemma CountedStatus(s: State, c: nat, t: State, status: Status)
    requires c < |s.callers| && s.callers[c].status.Waiting? && !status.Waiting? && CountInv(s)
    requires t.callers == SetStatus(s, c, status) && |t.flights| == |s.flights|
    requires forall f: nat | f < |s.flights| ::
               t.flights[f].waiters == s.flights[f].waiters - if f == s.callers[c].flight then 1 else 0
    ensures CountInv(t)
  {
    forall f: nat | f < |t.flights|
      ensures t.flights[f].waiters == |WaitersOf(t, f)|
    {
      if f == s.callers[c].flight {
        assert c in WaitersOf(s, f);
        assert WaitersOf(t, f) == WaitersOf(s, f) - {c};
      } else {
        assert WaitersOf(t, f) == WaitersOf(s, f);
      }
    }
  }

  lemma SameWaiters(s: State, t: State)
    requires CountInv(s) && |t.flights| >= |s.flights| && |t.callers| == |s.callers|
    requires forall c | 0 <= c < |s.callers| ::
               t.callers[c].flight == s.callers[c].flight
               && (t.callers[c].status.Waiting? <==> s.callers[c].status.Waiting?)
    requires forall f | 0 <= f < |s.flights| :: t.flights[f].waiters == s.flights[f].waiters
    requires forall f | |s.flights| <= f < |t.flights| :: t.flights[f].waiters == 0
    ensures CountInv(t)
  {
    forall f: nat | f < |t.flights|
      ensures t.flights[f].waiters == |WaitersOf(t, f)|
    {
      assert WaitersOf(t, f) == WaitersOf(s, f);
      if f >= |s.flights| {
        assert WaitersOf(s, f) == {};
      }
    }
  }

  lemma CountKept(s: State, e: Event)
    requires InRange(s) && Enabled(s, e) && CountInv(s)
    ensures CountInv(Apply(s, e))
  {
    match e
    case Enter(key) =>
      if key in s.table {
        CountedJoin(s, s.table[key], true);
      } else {
        SameWaiters(s, Create(s, key));
        CountedJoin(Create(s, key), |s.flights|, false);
      }
    case Deliver(c) =>
      CountedStatus(s, c, Apply(s, e), Returned(s.flights[s.callers[c].flight].phase.outcome));
    case Leave(c) =>
      CountedStatus(s, c, Apply(s, e), Apply(s, e).callers[c].status);
    case _ =>
      SameWaiters(s, Apply(s, e));
  }

  lemma DrainingKept(s: State, e: Event)
    requires InRange(s) && Enabled(s, e) && OwnedInv(s)
    ensures
      var t := Apply(s, e);
      forall c | 0 <= c < |t.callers| && t.callers[c].status.Draining? ::
        t.callers[c].flight < |t.flights| && t.flights[t.callers[c].flight].cancelled
  {
  }

  lemma StillDraining(s: State, e: Event, c: nat, f: nat)
    requires InRange(s) && Enabled(s, e) && IsDraining(s, c, f) && f < |s.flights|
    ensures Apply(s, e).flights[f].phase.Running? ==> IsDraining(Apply(s, e), c, f)
  {
  }

  /** Cancelled work is drained by whoever drained it before or has just stopped waiting for it. */
  lemma CancelledIsDrained(s: State, e: Event, f: nat)
    requires InRange(s) && Enabled(s, e) && OwnedInv(s) && f < |Apply(s, e).flights|
    requires Apply(s, e).flights[f].phase.Running? && Apply(s, e).flights[f].cancelled
    ensures exists c :: 0 <= c < |Apply(s, e).callers| && IsDraining(Apply(s, e), c, f)
  {
    if f < |s.flights| && s.flights[f].cancelled {
      hide Apply;
      assert s.flights[f].phase.Running? by { RunningBefore(s, e, f); }
      var c :| 0 <= c < |s.callers| && IsDraining(s, c, f);
      StillDraining(s, e, c, f);
    } else {
      assert IsDraining(Apply(s, e), e.c, f);
    }
  }

  lemma RunningBefore(s: State, e: Event, f: nat)
    requires InRange(s) && Enabled(s, e) && f < |s.flights| && Apply(s, e).flights[f].phase.Running?
    ensures s.flights[f].phase.Running?
  {
  }

  lemma UncancelledIsAwaited(s: State, e: Event, f: nat)
    requires InRange(s) && Enabled(s, e) && OwnedInv(s) && CountInv(s) && f < |Apply(s, e).flights|
    requires Apply(s, e).flights[f].phase.Running? && !Apply(s, e).flights[f].cancelled
    ensures Apply(s, e).flights[f].waiters > 0
  {
  }

  lemma OwnedKept(s: State, e: Event)
    requires InRange(s) && Enabled(s, e) && OwnedInv(s) && CountInv(s)
    ensures OwnedInv(Apply(s, e))
  {
    hide Apply, Enabled, InRange, CountInv, IsDraining;
    DrainingKept(s, e);
    var t := Apply(s, e);
    forall f | 0 <= f < |t.flights| && t.flights[f].phase.Running?
      ensures if t.flights[f].cancelled then exists c :: 0 <= c < |t.callers| && IsDraining(t, c, f)
              else t.flights[f].waiters > 0
    {
      if t.flights[f].cancelled {
        CancelledIsDrained(s, e, f);
      } else {
        UncancelledIsAwaited(s, e, f);
      }
    }
  }

  /** When the work is first cancelled its last waiter leaves, and nobody else is bound to the flight. */
  lemma NobodyIsLeft(s: State, e: Event, f: nat)
    requires InRange(s) && Enabled(s, e) && CountInv(s) && f < |s.flights|
    requires e.Leave? && !s.flights[f].cancelled && Apply(s, e).flights[f].cancelled
    ensures
      var t := Apply(s, e);
      forall c: nat | c < |t.callers| && t.callers[c].flight == f :: !t.callers[c].status.Waiting?
  {
    var t := Apply(s, e);
    CountKept(s, e);
    assert WaitersOf(t, f) == {};
    forall c: nat | c < |t.callers| && t.callers[c].flight == f
      ensures !t.callers[c].status.Waiting?
    {
      assert c !in WaitersOf(t, f);
    }
  }

  lemma OutcomeKept(s: State, e: Event)
    requires InRange(s) && Enabled(s, e) && OutcomeInv(s) && CountInv(s) && OwnedInv(s)
    ensures OutcomeInv(Apply(s, e))
  {
    hide CountInv;
    var t := Apply(s, e);
    if e.Leave? && !s.flights[s.callers[e.c].flight].cancelled && t.flights[s.callers[e.c].flight].cancelled {
      NobodyIsLeft(s, e, s.callers[e.c].flight);
    }
  }

  lemma CreatorKept(s: State, e: Event)
    requires InRange(s) && Enabled(s, e) && CreatorInv(s)
    ensures CreatorInv(Apply(s, e))
  {
    var t := Apply(s, e);
    forall f: nat | f < |t.flights|
      ensures HasStarter(t, f)
    {
      if f < |s.flights| {
        assert HasStarter(s, f);
        var c: nat :| Started(s, c, f);
        assert Started(t, c, f);
      } else {
        assert Started(t, |s.callers|, f);
      }
    }
    forall c: nat, d: nat, f: nat | Started(t, c, f) && Started(t, d, f)
      ensures c == d
    {
      if c < |s.callers| {
        assert Started(s, c, f);
      }
      if d < |s.callers| {
        assert Started(s, d, f);
      }
    }
  }

  lemma InvKept(s: State, e: Event)
    requires Inv(s) && InRange(s) && Enabled(s, e)
    ensures Inv(Apply(s, e))
  {
    TableKept(s, e);
    CountKept(s, e);
    OwnedKept(s, e);
    OutcomeKept(s, e);
    CreatorKept(s, e);
  }

  /** The invariant holds in every state of every run. */
  lemma {:induction false} InvHolds(events: seq<Event>, s: State)
    requires Reaches(events, s)
    ensures Inv(s) && InRange(s)
  {
    if events == [] {
    } else {
      var before: State :|
        && Reaches(events[..|events| - 1], before)
        && InRange(before)
        && Enabled(before, events[|events| - 1])
        && s == Apply(before, events[|events| - 1]);
      InvHolds(events[..|events| - 1], before);
      InvKept(before, events[|events| - 1]);
      InvInRange(s);
    }
  }

  // ---- what the invariant says ------------------------------------------------------------------------

  /** At most one unfinished computation per key. */
  lemma OneUnfinishedPerKey(events: seq<Event>, s: State, f: nat, g: nat)
    requires Reaches(events, s) && f < |s.flights| && g < |s.flights|
    requires s.flights[f].phase.Running? && s.flights[g].phase.Running?
    requires s.flights[f].key == s.flights[g].key
    ensures f == g
  {
    InvHolds(events, s);
  }

  /** The counter equals the number of suspended callers. */
  lemma WaitersAreCounted(events: seq<Event>, s: State, f: nat)
    requires Reaches(events, s) && f < |s.flights|
    ensures s.flights[f].waiters == |WaitersOf(s, f)|
  {
    InvHolds(events, s);
  }

  /** Each flight has exactly one caller that was told it did not share. */
  lemma OneCallerPerFlightIsUnshared(events: seq<Event>, s: State, f: nat)
    requires Reaches(events, s) && f < |s.flights|
    ensures exists c: nat :: Started(s, c, f) && forall d: nat | Started(s, d, f) :: d == c
  {
    InvHolds(events, s);
    assert HasStarter(s, f);
    var c: nat :| Started(s, c, f);
  }

  /** Whoever is given an outcome is given the same one. */
  lemma SameOutcomeForAll(events: seq<Event>, s: State, c: nat, d: nat)
    requires Reaches(events, s) && c < |s.callers| && d < |s.callers|
    requires s.callers[c].status.Returned? && s.callers[d].status.Returned?
    requires s.callers[c].flight == s.callers[d].flight
    ensures s.callers[c].status.outcome == s.callers[d].status.outcome
  {
    InvHolds(events, s);
  }

  /** Work is first asked to stop at an instant when nobody waits for it: because the last waiter has
      just left. */
  lemma {:induction false} CancelledOnlyUnwaited(events: seq<Event>, s: State, e: Event, f: nat)
    requires Reaches(events, s) && Enabled(s, e) && f < |s.flights|
    requires InRange(s) && !s.flights[f].cancelled && Apply(s, e).flights[f].cancelled
    ensures e.Leave? && s.callers[e.c].flight == f
    ensures WaitersOf(Apply(s, e), f) == {}
  {
    hide Reaches, OutcomeInv, CreatorInv, TableInv;
    InvHolds(events, s);
    InvKept(s, e);
  }

  /** The event asks the work of `f` to stop: the last waiter leaves while it runs, or a caller that stayed
      to see it stop is cancelled again. */
  predicate RequestsStop(s: State, e: Event, f: nat)
    requires Enabled(s, e)
  {
    match e
    case Leave(c) =>
      s.callers[c].flight == f && s.flights[f].phase.Running? && s.flights[f].waiters == 1
    case LeaveAgain(c) => s.callers[c].flight == f
    case _ => false
  }

  /** A request to stop, first or repeated, reaches work somebody waits for exactly when it is a repeated
      one and a caller that joined too late is still waiting. */
  lemma {:induction false} StopReachesWaitersIff(events: seq<Event>, s: State, e: Event, f: nat)
    requires Reaches(events, s) && InRange(s) && Enabled(s, e) && f < |s.flights| && RequestsStop(s, e, f)
    ensures Apply(s, e).flights[f].cancelled
    ensures WaitersOf(Apply(s, e), f) != {} <==>
            e.LeaveAgain? && exists c | c in WaitersOf(s, f) :: s.callers[c].late
  {
    InvHolds(events, s);
    if e.Leave? {
      CountKept(s, e);
      assert Apply(s, e).flights[f].waiters == 0;
    } else {
      assert WaitersOf(Apply(s, e), f) == WaitersOf(s, f);
    }
  }

  /** When a done-callback runs, the table still holds its own flight: the identity test guarding the
      removal always succeeds, so a callback can never remove a newer flight. */
  lemma CallbackRemovesItsOwnFlight(events: seq<Event>, s: State, f: nat)
    requires Reaches(events, s) && Enabled(s, Announce(f))
    ensures s.flights[f].key in s.table && s.table[s.flights[f].key] == f
  {
    InvHolds(events, s);
  }

  /** Nothing is left behind: with nobody suspended and no callback due, no work is running and the
      table is empty. */
  lemma NothingLeftBehind(events: seq<Event>, s: State)
    requires Reaches(events, s)
    requires forall c | 0 <= c < |s.callers| :: !s.callers[c].status.Waiting? && !s.callers[c].status.Draining?
    requires forall f | 0 <= f < |s.flights| :: s.flights[f].phase.Done? ==> s.flights[f].announced
    ensures forall f | 0 <= f < |s.flights| :: s.flights[f].phase.Done?
    ensures s.table == map[]
  {
    InvHolds(events, s);
    forall f: nat | f < |s.flights|
      ensures s.flights[f].phase.Done?
    {
      assert WaitersOf(s, f) == {};
    }
    assert forall f | 0 <= f < |s.flights| :: s.flights[f].announced;
    assert s.table.Keys == {};
  }

  /** A caller receives a cancellation it did not ask for exactly when it joined work that had already
      been cancelled, unless the work stopped itself. */
  lemma {:induction false} ForeignCancellation(events: seq<Event>, s: State, c: nat)
    requires Reaches(events, s) && c < |s.callers| && s.callers[c].flight < |s.flights|
    requires s.callers[c].status == Returned(Cancelled)
    ensures s.callers[c].late <==> s.flights[s.callers[c].flight].cancelled
  {
    InvHolds(events, s);
  }

  // ---- what does not hold -----------------------------------------------------------------------------

  lemma {:induction false} Next(events: seq<Event>, s: State, e: Event) returns (longer: seq<Event>, t: State)
    requires Reaches(events, s) && InRange(s) && Enabled(s, e)
    ensures t == Apply(s, e) && Reaches(longer, t) && InRange(t)
  {
    longer, t := events + [e], Apply(s, e);
    assert longer[..|longer| - 1] == events;
    InvHolds(longer, t);
  }

  /** One flight and its callers. */
  function Alone(flight: Flight, callers: seq<Caller>): State {
    State(if flight.announced then map[] else map[flight.key := 0], [flight], callers)
  }

  lemma FirstJoins(key: Key)
    ensures Apply(Init(), Enter(key))
         == Alone(Flight(key, Running, 1, false, false), [Caller(0, false, false, Waiting)])
  {
  }

  lemma FirstLeaves(key: Key)
    ensures
      var s := Alone(Flight(key, Running, 1, false, false), [Caller(0, false, false, Waiting)]);
      Apply(s, Leave(0)) == Alone(Flight(key, Running, 0, true, false), [Caller(0, false, false, Draining)])
  {
  }

  lemma SecondJoins(key: Key)
    ensures
      var s := Alone(Flight(key, Running, 0, true, false), [Caller(0, false, false, Draining)]);
      Apply(s, Enter(key)) == Alone(Flight(key, Running, 1, true, false),
                                    [Caller(0, false, false, Draining), Caller(0, true, true, Waiting)])
  {
  }

  /** A first caller gives up, and a second joins before the work has stopped. */
  lemma {:induction false} JoinedTooLate(key: Key) returns (events: seq<Event>, s: State)
    ensures Reaches(events, s) && InRange(s)
    ensures s == Alone(Flight(key, Running, 1, true, false),
                       [Caller(0, false, false, Draining), Caller(0, true, true, Waiting)])
  {
    FirstJoins(key);
    FirstLeaves(key);
    SecondJoins(key);
    events, s := Next([], Init(), Enter(key));
    events, s := Next(events, s, Leave(0));
    events, s := Next(events, s, Enter(key));
  }

  /** "Cancelling one caller never disturbs another" is false: the second caller of that run never
      leaves, and what it gets is a cancellation. */
  lemma OthersCanBeCancelled(key: Key) returns (events: seq<Event>, s: State)
    ensures Reaches(events, s)
    ensures s.callers == [Caller(0, false, false, Draining), Caller(0, true, true, Returned(Cancelled))]
  {
    events, s := JoinedTooLate(key);
    events, s := Next(events, s, Finish(0, Cancelled));
    assert s.flights == [Flight(key, Done(Cancelled), 1, true, false)];
    events, s := Next(events, s, Announce(0));
    assert s.flights == [Flight(key, Done(Cancelled), 1, true, true)];
    events, s := Next(events, s, Deliver(1));
  }

  /** "A request to stop is only ever made with nobody waiting" is false of a repeated one: the caller that
      stays to see the work stop awaits it unshielded, so cancelling that caller again reaches the work
      while another caller waits. */
  lemma SecondRequestReachesWaiters(key: Key) returns (events: seq<Event>, s: State)
    ensures Reaches(events, s)
    ensures |s.flights| == 1 && Enabled(s, LeaveAgain(0)) && RequestsStop(s, LeaveAgain(0), 0)
    ensures s.flights[0].waiters == 1
  {
    events, s := JoinedTooLate(key);
  }

  // ---- the table as an object -------------------------------------------------------------------------

  /** The code that runs in each stretch, on the fields it updates. */
  class FlightTable {
    var table: map<Key, nat>
    var flights: seq<Flight>
    var callers: seq<Caller>

    ghost function Abs(): State
      reads this
    {
      State(table, flights, callers)
    }

    constructor ()
      ensures Abs() == Init()
    {
      table, flights, callers := map[], [], [];
    }

    /** From the call to the first suspension (or to the end, when the flight is already done). */
    method Enter(key: Key) returns (c: nat)
      requires InRange(Abs())
      modifies this
      ensures c == old(|callers|) && Abs() == Apply(old(Abs()), Event.Enter(key))
    {
      var f;
      var shared := key in table;
      if shared {
        f := table[key];
      } else {
        f := |flights|;
        flights := flights + [Flight(key, Running, 0, false, false)];
        table := table[key := f];
      }
      var flight := flights[f];
      c := |callers|;
      if flight.phase.Done? {
        callers := callers + [Caller(f, shared, flight.cancelled, Returned(flight.phase.outcome))];
      } else {
        flights := flights[f := flight.(waiters := flight.waiters + 1)];
        callers := callers + [Caller(f, shared, flight.cancelled, Waiting)];
      }
    }

    /** The `finally` of a caller that was cancelled while it waited. */
    method Leave(c: nat)
      requires InRange(Abs()) && Enabled(Abs(), Event.Leave(c))
      modifies this
      ensures Abs() == Apply(old(Abs()), Event.Leave(c))
    {
      var f := callers[c].flight;
      flights := flights[f := flights[f].(waiters := flights[f].waiters - 1)];
      if flights[f].waiters == 0 && !flights[f].phase.Done? {
        flights := flights[f := flights[f].(cancelled := true)];
        callers := callers[c := callers[c].(status := Draining)];
      } else {
        callers := callers[c := callers[c].(status := Left)];
      }
    }

    /** The rest of a caller whose work is done. */
    method Deliver(c: nat) returns (outcome: Outcome, shared: bool)
      requires InRange(Abs()) && Enabled(Abs(), Event.Deliver(c))
      modifies this
      ensures Abs() == Apply(old(Abs()), Event.Deliver(c))
      ensures outcome == old(flights[callers[c].flight].phase.outcome) && shared == old(callers[c].shared)
    {
      var f := callers[c].flight;
      outcome, shared := flights[f].phase.outcome, callers[c].shared;
      // The work is done, so there is nothing to stop even when this was the last waiter.
      flights := flights[f := flights[f].(waiters := flights[f].waiters - 1)];
      callers := callers[c := callers[c].(status := Returned(outcome))];
    }

    /** The work ends. */
    method Finish(f: nat, outcome: Outcome)
      requires InRange(Abs()) && Enabled(Abs(), Event.Finish(f, outcome))
      modifies this
      ensures Abs() == Apply(old(Abs()), Event.Finish(f, outcome))
    {
      flights := flights[f := flights[f].(phase := Done(outcome))];
    }

    /** The done-callback. */
    method OnDone(f: nat)
      requires InRange(Abs()) && Enabled(Abs(), Announce(f))
      modifies this
      ensures Abs() == Apply(old(Abs()), Announce(f))
    {
      var key := flights[f].key;
      if key in table && table[key] == f {
        table := table - {key};
      }
      flights := flights[f := flights[f].(announced := true)];
    }
  }
}
