/** Which measurement a run remembers for a key, and hands out. */
module MeasurementAnswers {
  import opened Measurement
  import opened Options
  import Calls = MeasurementCalls
  import SF = SingleFlight

  // ---- where a measurement comes from -----------------------------------------------------------------

  /** A flight of the key ended with this measurement. */
  predicate EndedWith(sf: SF.State, f: nat, key: Key, v: SF.Result) {
    f < |sf.flights| && sf.flights[f].key == key && sf.flights[f].phase == SF.Done(SF.Value(v))
  }

  /** A batch put this measurement in place for the key, and it was handed out. */
  predicate HandedAs(calls: seq<Call>, i: nat, key: Key, v: SF.Result) {
    i < |calls| && calls[i] == Prefetched(key, v)
  }

  ghost predicate Genuine(s: State, key: Key, v: SF.Result) {
    (exists f: nat :: EndedWith(s.sf, f, key, v)) || (exists i: nat :: HandedAs(s.calls, i, key, v))
  }

  /** Whatever is remembered, or was answered from memory, is genuine for its key. */
  ghost predicate AnswerInv(s: State) {
    && (forall key | key in s.finished :: Genuine(s, key, s.finished[key]))
    && (forall i: nat | i < |s.calls| && s.calls[i].Remembered? :: Genuine(s, s.calls[i].key, s.calls[i].v))
  }

  // ---- what a step remembers --------------------------------------------------------------------------

  /** The measurement a step remembers, if any: a caller that resumes, or joins work already done, the one
      the work ended with; a call answered with what a batch put in place, that. */
  function Remembering(s: State, e: Event): Option<(Key, SF.Result)>
    requires SF.InRange(s.sf)
  {
    match e
    case Deliver(k) =>
      if k >= |s.sf.callers| then None
      else
        var flight := s.sf.flights[s.sf.callers[k].flight];
        if flight.phase.Done? && flight.phase.outcome.Value? then Some((flight.key, flight.phase.outcome.v)) else None
    case Arrive(key, mismatch) =>
      if mismatch then None
      else if key in s.prefetched then Some((key, s.prefetched[key]))
      else if key in s.finished || key !in s.sf.table then None
      else
        var phase := s.sf.flights[s.sf.table[key]].phase;
        if phase.Done? && phase.outcome.Value? then Some((key, phase.outcome.v)) else None
    case _ => None
  }

  lemma OthersRememberNothing(c: Config, s: State, e: Event)
    requires SF.InRange(s.sf) && Enabled(c, s, e) && !e.Deliver? && !e.Arrive?
    ensures Apply(c, s, e).finished == s.finished
  {
    hide Allows, Expired, SF.Apply, SF.InRange;
  }

  /** Nothing else is remembered, and nothing forgotten. */
  lemma RemembersExactly(c: Config, s: State, e: Event)
    requires SF.InRange(s.sf) && Enabled(c, s, e)
    ensures
      Apply(c, s, e).finished
      == match Remembering(s, e)
         case None => s.finished
         case Some((key, v)) => s.finished[key := v]
  {
    if !e.Deliver? && !e.Arrive? {
      OthersRememberNothing(c, s, e);
    }
  }

  lemma EndedStays(s: SF.State, e: SF.Event, f: nat, key: Key, v: SF.Result)
    requires SF.InRange(s) && SF.Enabled(s, e) && EndedWith(s, f, key, v)
    ensures EndedWith(SF.Apply(s, e), f, key, v)
  {
  }

  lemma GenuineStays(c: Config, s: State, e: Event, key: Key, v: SF.Result)
    requires SF.InRange(s.sf) && Enabled(c, s, e) && Genuine(s, key, v)
    ensures Genuine(Apply(c, s, e), key, v)
  {
    hide Apply, Enabled, SF.Apply, SF.Enabled, SF.InRange;
    TakesItsStep(c, s, e);
    Calls.CallsGrow(c, s, e);
    if f: nat :| EndedWith(s.sf, f, key, v) {
      match FlightEvent(c, s, e)
      case None => assert EndedWith(Apply(c, s, e).sf, f, key, v);
      case Some(x) => EndedStays(s.sf, x, f, key, v);
    } else {
      var i: nat :| HandedAs(s.calls, i, key, v);
      assert HandedAs(Apply(c, s, e).calls, i, key, v);
    }
  }

  lemma RememberedIsGenuine(c: Config, s: State, e: Event)
    requires SF.InRange(s.sf) && SF.TableInv(s.sf) && Enabled(c, s, e) && Remembering(s, e).Some?
    ensures Genuine(Apply(c, s, e), Remembering(s, e).value.0, Remembering(s, e).value.1)
  {
    var (key, v) := Remembering(s, e).value;
    match e
    case Deliver(k) =>
      assert EndedWith(s.sf, s.sf.callers[k].flight, key, v);
      GenuineStays(c, s, e, key, v);
    case Arrive(_, _) =>
      if key in s.prefetched {
        Calls.CallsGrow(c, s, e);
        assert HandedAs(Apply(c, s, e).calls, |s.calls|, key, v);
      } else {
        assert EndedWith(s.sf, s.sf.table[key], key, v);
        GenuineStays(c, s, e, key, v);
      }
  }

  lemma AnswerInvKept(c: Config, s: State, e: Event)
    requires SF.InRange(s.sf) && SF.TableInv(s.sf) && Enabled(c, s, e) && AnswerInv(s)
    ensures AnswerInv(Apply(c, s, e))
  {
    hide Apply, Enabled, SF.InRange, SF.TableInv, Genuine, Remembering;
    var t := Apply(c, s, e);
    RemembersExactly(c, s, e);
    Calls.CallsGrow(c, s, e);
    forall key | key in t.finished
      ensures Genuine(t, key, t.finished[key])
    {
      if Remembering(s, e).Some? && Remembering(s, e).value.0 == key {
        RememberedIsGenuine(c, s, e);
      } else {
        GenuineStays(c, s, e, key, s.finished[key]);
      }
    }
    forall i: nat | i < |t.calls| && t.calls[i].Remembered?
      ensures Genuine(t, t.calls[i].key, t.calls[i].v)
    {
      if i < |s.calls| {
        GenuineStays(c, s, e, s.calls[i].key, s.calls[i].v);
      } else {
        assert t.calls[i] == Calls.NewCalls(s, e)[0];
        GenuineStays(c, s, e, e.key, s.finished[e.key]);
      }
    }
  }

  /** Over every run: what is remembered for a key is what some flight of that key ended with, or what a
      batch put in place for it; and so is every answer from memory. */
  lemma {:induction false} AnswersAreGenuine(c: Config, start: real, run: seq<Moment>, s: State)
    requires Reaches(c, start, run, s)
    ensures AnswerInv(s)
  {
    if run != [] {
      hide Apply, Enabled, SF.InRange, AnswerInv;
      var before := LastStep(c, Init(start), run, s);
      AnswersAreGenuine(c, start, run[..|run| - 1], before);
      InvHolds(c, start, run[..|run| - 1], before);
      TableHolds(c, before);
      AnswerInvKept(c, before, run[|run| - 1].event);
    }
  }

  lemma TableHolds(c: Config, s: State)
    requires Inv(c, s)
    ensures SF.TableInv(s.sf)
  {
  }

  /** What was handed out as a batch's was put in place by a batch, for that key. */
  lemma {:induction false} HandedOutWasPrefilled(c: Config, start: real, run: seq<Moment>, s: State, i: nat)
    requires Reaches(c, start, run, s) && i < |s.calls| && s.calls[i].Prefetched?
    ensures (s.calls[i].key, s.calls[i].v) in s.prefills
  {
    PrefillsAreHandedOutOnce(c, start, run, s, s.calls[i].key, s.calls[i].v);
    CallIsHandedOut(s.calls, i);
  }

  lemma {:induction false} CallIsHandedOut(calls: seq<Call>, i: nat)
    requires i < |calls| && calls[i].Prefetched?
    ensures HandedOut(calls)[(calls[i].key, calls[i].v)] > 0
  {
    if i < |calls| - 1 {
      CallIsHandedOut(calls[..|calls| - 1], i);
    }
  }
}
