/**
 Which version of the INI to try, and when (src/config/watch_state.rs). Times are integers, in
 milliseconds; an elapsed time is never negative.
 */
module WatchState {
  import opened Wrappers

  type Bytes = seq<bv8>

  const LONGEST_DELAY: nat := 30000

  datatype Candidate = Candidate(generation: nat, contents: Bytes)

  datatype Observation = Observation(candidate: Candidate, since: int, retryAt: int, attempts: nat, rejected: bool)

  /** The settings of a tracker, which do not change. */
  datatype Pace = Pace(delay: nat, retryDelay: nat, retryLimit: nat)

  datatype State = State(
    observed: nat, validated: nat, appliedGeneration: nat, applied: Bytes,
    current: Option<Observation>, inFlight: Option<Candidate>)

  function Start(bytes: Bytes): State {
    State(0, 0, 0, bytes, None, None)
  }

  function Elapsed(now: int, since: int): nat {
    if now >= since then now - since else 0
  }

  /** Two to the power of the attempts so far less one, five at most. */
  function Multiplier(attempts: nat): nat {
    if attempts <= 1 then 1 else if attempts >= 6 then 32 else 2 * Multiplier(attempts - 1)
  }

  function Backoff(pace: Pace, attempts: nat): nat {
    var wait := pace.retryDelay * Multiplier(attempts);
    if wait < LONGEST_DELAY then wait else LONGEST_DELAY
  }

  function AfterSeeing(s: State, bytes: Bytes, now: int): State {
    if s.current.Some? && s.current.value.candidate.contents == bytes then s
    else if s.current.None? && s.applied == bytes then s
    else s.(observed := s.observed + 1,
            current := Some(Observation(Candidate(s.observed + 1, bytes), now, now, 0, false)))
  }

  function AfterMissing(s: State): State {
    if s.current.Some? then s.(current := None, observed := s.observed + 1) else s
  }

  predicate Ready(pace: Pace, s: State, now: int) {
    && s.inFlight.None? && s.current.Some?
    && var c := s.current.value;
       c.candidate.contents != [] && c.candidate.contents != s.applied && !c.rejected
       && c.attempts <= pace.retryLimit && Elapsed(now, c.since) >= pace.delay && now >= c.retryAt
  }

  function AfterAsking(pace: Pace, s: State, now: int): State {
    if !Ready(pace, s, now) then s
    else
      var c := s.current.value;
      s.(current := Some(c.(attempts := c.attempts + 1)), inFlight := Some(c.candidate))
  }

  function AfterCompletion(pace: Pace, s: State, generation: nat, applied: bool, retryable: bool, now: int): State {
    if s.inFlight.None? || s.inFlight.value.generation != generation then s
    else
      var s' := s.(inFlight := None);
      if applied then s'.(applied := s.inFlight.value.contents, appliedGeneration := generation)
      else if s.current.Some? && s.current.value.candidate.generation == generation then
        var c := s.current.value;
        s'.(current := Some(c.(rejected := !retryable, retryAt := now + Backoff(pace, c.attempts))))
      else s'
  }

  datatype Event =
    | Observed(bytes: Bytes, now: int)
    | Missing
    | Asked(now: int)
    | Validated(generation: nat)
    | Completed(generation: nat, applied: bool, retryable: bool, now: int)

  function Step(pace: Pace, s: State, event: Event): State {
    match event
    case Observed(bytes, now) => AfterSeeing(s, bytes, now)
    case Missing => AfterMissing(s)
    case Asked(now) => AfterAsking(pace, s, now)
    case Validated(generation) => s.(validated := generation)
    case Completed(generation, applied, retryable, now) => AfterCompletion(pace, s, generation, applied, retryable, now)
  }

  /** The candidate handed out by this event, if any. */
  function Handed(pace: Pace, s: State, event: Event): Option<Candidate> {
    if event.Asked? && Ready(pace, s, event.now) then Some(s.current.value.candidate) else None
  }

  ghost predicate IsRun(pace: Pace, run: seq<State>, events: seq<Event>) {
    && |run| == |events| + 1 && run[0] == Start(run[0].applied)
    && forall i :: 0 <= i < |events| ==> run[i + 1] == Step(pace, run[i], events[i])
  }

  // ---- The tracker as the code keeps it ----------------------------------

  class ChangeTracker {
    const pace: Pace
    var observed: nat
    var validated: nat
    var appliedGeneration: nat
    var applied: Bytes
    var current: Option<Observation>
    var inFlight: Option<Candidate>

    constructor (bytes: Bytes, pace: Pace)
      ensures View() == Start(bytes) && this.pace == pace
    {
      this.pace := pace;
      observed, validated, appliedGeneration, applied, current, inFlight := 0, 0, 0, bytes, None, None;
    }

    function View(): State
      reads this
    {
      State(observed, validated, appliedGeneration, applied, current, inFlight)
    }

    method Observe(bytes: Bytes, now: int)
      modifies this`observed, this`current
      ensures View() == AfterSeeing(old(View()), bytes, now)
    {
      if current.Some? && current.value.candidate.contents == bytes {
        return;
      }
      if current.None? && applied == bytes {
        return;
      }
      observed := observed + 1;
      current := Some(Observation(Candidate(observed, bytes), now, now, 0, false));
    }

    method Unavailable()
      modifies this`observed, this`current
      ensures View() == AfterMissing(old(View()))
    {
      if current.Some? {
        current := None;
        observed := observed + 1;
      }
    }

    method Next(now: int) returns (candidate: Option<Candidate>)
      modifies this`current, this`inFlight
      ensures View() == AfterAsking(pace, old(View()), now)
      ensures candidate == Handed(pace, old(View()), Asked(now))
    {
      if inFlight.Some? || current.None? {
        return None;
      }
      var c := current.value;
      if c.candidate.contents == [] || c.candidate.contents == applied || c.rejected || c.attempts > pace.retryLimit
         || Elapsed(now, c.since) < pace.delay || now < c.retryAt {
        return None;
      }
      current := Some(c.(attempts := c.attempts + 1));
      inFlight := Some(c.candidate);
      candidate := inFlight;
    }

    method Complete(generation: nat, applied: bool, retryable: bool, now: int)
      modifies this`applied, this`appliedGeneration, this`current, this`inFlight
      ensures View() == AfterCompletion(pace, old(View()), generation, applied, retryable, now)
    {
      if inFlight.None? || inFlight.value.generation != generation {
        return;
      }
      var candidate := inFlight.value;
      inFlight := None;
      if applied {
        this.applied := candidate.contents;
        appliedGeneration := generation;
      } else if current.Some? && current.value.candidate.generation == generation {
        var c := current.value;
        current := Some(c.(rejected := !retryable, retryAt := now + Backoff(pace, c.attempts)));
      }
    }
  }

  // ---- The invariant -----------------------------------------------------

  predicate Inv(pace: Pace, s: State) {
    && s.appliedGeneration <= s.observed
    && (s.current.Some? ==>
          var c := s.current.value;
          && c.candidate.generation == s.observed && c.attempts <= pace.retryLimit + 1
          && (c.candidate.generation == s.appliedGeneration ==> c.candidate.contents == s.applied))
    && (s.inFlight.Some? ==>
          var f := s.inFlight.value;
          && s.appliedGeneration < f.generation <= s.observed && f.contents != [] && f.contents != s.applied
          && (s.current.Some? && s.current.value.candidate.generation == f.generation ==> s.current.value.candidate == f))
  }

  lemma StepKeepsInv(pace: Pace, s: State, event: Event)
    requires Inv(pace, s)
    ensures Inv(pace, Step(pace, s, event))
  {
  }

  lemma {:induction false} EveryRunKeepsInv(pace: Pace, run: seq<State>, events: seq<Event>, n: nat)
    requires IsRun(pace, run, events) && n < |run|
    ensures Inv(pace, run[n])
  {
    if n > 0 {
      EveryRunKeepsInv(pace, run, events, n - 1);
      StepKeepsInv(pace, run[n - 1], events[n - 1]);
    }
  }

  // ---- Main results ------------------------------------------------------

  /** A candidate handed out is the only one in flight, is not empty, and is not what is applied. */
  lemma OneInFlight(pace: Pace, run: seq<State>, events: seq<Event>, n: nat)
    requires IsRun(pace, run, events) && n < |events| && Handed(pace, run[n], events[n]).Some?
    ensures run[n].inFlight.None? && run[n + 1].inFlight == Handed(pace, run[n], events[n])
    ensures var c := Handed(pace, run[n], events[n]).value;
      c.contents != [] && c.contents != run[n].applied && c.generation > run[n].appliedGeneration
  {
    EveryRunKeepsInv(pace, run, events, n);
    EveryRunKeepsInv(pace, run, events, n + 1);
  }

  /** Between two handouts lies the completion of the first. */
  lemma {:induction false} CompletedBetween(pace: Pace, run: seq<State>, events: seq<Event>, i: nat, j: nat) returns (k: nat)
    requires IsRun(pace, run, events) && i < j < |events|
    requires Handed(pace, run[i], events[i]).Some? && run[j].inFlight.None?
    ensures i < k < j && events[k].Completed?
    ensures events[k].generation == Handed(pace, run[i], events[i]).value.generation
    ensures forall m :: i < m <= k ==> run[m].inFlight == Handed(pace, run[i], events[i])
    ensures run[k + 1].inFlight.None?
  {
    k := i + 1;
    while run[k + 1].inFlight.Some?
      invariant i < k < j && forall m :: i < m <= k ==> run[m].inFlight == Handed(pace, run[i], events[i])
      decreases j - k
    {
      assert run[k + 1] == Step(pace, run[k], events[k]);
      k := k + 1;
    }
    assert run[k + 1] == Step(pace, run[k], events[k]);
  }

  /** What is applied changes only when what is in flight is reported applied, and to just that;
      and applied generations only grow. */
  lemma AppliedChangesOnCompletion(pace: Pace, run: seq<State>, events: seq<Event>, n: nat)
    requires IsRun(pace, run, events) && n < |events|
    ensures (run[n + 1].applied == run[n].applied && run[n + 1].appliedGeneration == run[n].appliedGeneration)
            || (events[n].Completed? && events[n].applied && run[n].inFlight.Some?
                && events[n].generation == run[n].inFlight.value.generation
                && run[n + 1].applied == run[n].inFlight.value.contents
                && run[n + 1].appliedGeneration == run[n].inFlight.value.generation > run[n].appliedGeneration)
  {
    EveryRunKeepsInv(pace, run, events, n);
  }

  // ---- Stability ---------------------------------------------------------

  /** Event `m` is the observation the tracker still holds at `n`, and nothing else was seen since. */
  ghost predicate SeenSince(run: seq<State>, events: seq<Event>, m: nat, n: nat)
    requires m <= n < |run| && |run| == |events| + 1
  {
    && m < n && run[n].current.Some? && events[m].Observed?
    && events[m].bytes == run[n].current.value.candidate.contents && events[m].now == run[n].current.value.since
    && forall i :: m < i < n ==>
         events[i] != Missing && (events[i].Observed? ==> events[i].bytes == events[m].bytes)
  }

  lemma {:induction false} CurrentWasObserved(pace: Pace, run: seq<State>, events: seq<Event>, n: nat) returns (m: nat)
    requires IsRun(pace, run, events) && n < |run| && run[n].current.Some?
    ensures m <= n && SeenSince(run, events, m, n)
  {
    var event, s, s' := events[n - 1], run[n - 1], run[n];
    if s.current.Some? && s'.current.value.candidate == s.current.value.candidate {
      m := CurrentWasObserved(pace, run, events, n - 1);
      EveryRunKeepsInv(pace, run, events, n - 1);
      assert s'.current.value.since == s.current.value.since;
    } else {
      m := n - 1;
    }
  }

  /** A version is handed out only once it has been the only thing seen for the whole delay. */
  lemma HandedOutIsStable(pace: Pace, run: seq<State>, events: seq<Event>, n: nat) returns (m: nat)
    requires IsRun(pace, run, events) && n < |events| && Handed(pace, run[n], events[n]).Some?
    ensures m < n && SeenSince(run, events, m, n)
    ensures events[m].bytes == Handed(pace, run[n], events[n]).value.contents
    ensures Elapsed(events[n].now, events[m].now) >= pace.delay
  {
    m := CurrentWasObserved(pace, run, events, n);
  }

  // ---- Retries -----------------------------------------------------------

  /** How often generation `g` was handed out by the first `n` events. */
  ghost function Handouts(pace: Pace, run: seq<State>, events: seq<Event>, g: nat, n: nat): nat
    requires |run| == |events| + 1 && n <= |events|
  {
    if n == 0 then 0
    else
      var handed := Handed(pace, run[n - 1], events[n - 1]);
      Handouts(pace, run, events, g, n - 1) + if handed.Some? && handed.value.generation == g then 1 else 0
  }

  /** The attempts counted are the handouts made, for the version held now; a version not yet
      seen has had none, and one no longer held will have no more. */
  lemma {:induction false} AttemptsCountHandouts(pace: Pace, run: seq<State>, events: seq<Event>, g: nat, n: nat)
    requires IsRun(pace, run, events) && n <= |events|
    ensures Handouts(pace, run, events, g, n) <= pace.retryLimit + 1
    ensures g > run[n].observed ==> Handouts(pace, run, events, g, n) == 0
    ensures run[n].current.Some? && run[n].current.value.candidate.generation == g ==>
              Handouts(pace, run, events, g, n) == run[n].current.value.attempts
  {
    if n > 0 {
      AttemptsCountHandouts(pace, run, events, g, n - 1);
      EveryRunKeepsInv(pace, run, events, n - 1);
      EveryRunKeepsInv(pace, run, events, n);
    }
  }

  /** Every version is handed out at most once more than the retry limit. */
  lemma RetriesAreBounded(pace: Pace, run: seq<State>, events: seq<Event>, g: nat, n: nat)
    requires IsRun(pace, run, events) && n <= |events|
    ensures Handouts(pace, run, events, g, n) <= pace.retryLimit + 1
  {
    AttemptsCountHandouts(pace, run, events, g, n);
  }

  lemma {:induction false} ObservedGrows(pace: Pace, run: seq<State>, events: seq<Event>, i: nat, j: nat)
    requires IsRun(pace, run, events) && i <= j < |run|
    ensures run[i].observed <= run[j].observed
  {
    if i < j {
      ObservedGrows(pace, run, events, i, j - 1);
    }
  }

  /** A version held at both ends was held in between. */
  lemma HeldThroughout(pace: Pace, run: seq<State>, events: seq<Event>, i: nat, m: nat, j: nat, g: nat)
    requires IsRun(pace, run, events) && i <= m < j < |run|
    requires run[i].observed == run[j].observed == g && run[m].current.Some?
    requires run[m].current.value.candidate.generation == g
    ensures run[m + 1].current.Some? && run[m + 1].current.value.candidate == run[m].current.value.candidate
    ensures run[m + 1].observed == g
  {
    ObservedGrows(pace, run, events, i, m);
    ObservedGrows(pace, run, events, m, m + 1);
    ObservedGrows(pace, run, events, m + 1, j);
  }

  /** While its first handout is in flight, the version's record does not change. */
  lemma {:induction false} UnchangedInFlight(pace: Pace, run: seq<State>, events: seq<Event>, i: nat, m: nat, j: nat, g: nat)
    requires IsRun(pace, run, events) && i <= m <= j < |run| && run[i].observed == run[j].observed == g
    requires run[i].current.Some? && run[i].current.value.candidate.generation == g
    requires forall l :: i <= l <= m ==> run[l].inFlight == Some(run[i].current.value.candidate)
    ensures run[m].current == run[i].current
  {
    if i < m {
      UnchangedInFlight(pace, run, events, i, m - 1, j, g);
      HeldThroughout(pace, run, events, i, m - 1, j, g);
    }
  }

  /** Nor does it while nothing is in flight and nothing is handed out. */
  lemma {:induction false} UnchangedWhenIdle(pace: Pace, run: seq<State>, events: seq<Event>, i: nat, m: nat, j: nat, g: nat)
    requires IsRun(pace, run, events) && i <= m <= j < |run| && run[i].observed == run[j].observed == g
    requires run[i].current.Some? && run[i].current.value.candidate.generation == g && run[i].inFlight.None?
    requires forall l :: i <= l < m ==> Handed(pace, run[l], events[l]).None?
    ensures run[m].current == run[i].current && run[m].inFlight.None? && run[m].applied == run[i].applied
  {
    if i < m {
      UnchangedWhenIdle(pace, run, events, i, m - 1, j, g);
      HeldThroughout(pace, run, events, i, m - 1, j, g);
    }
  }

  /** Between two handouts of the same version the first was reported failed but retryable, and the
      second came no sooner than the backoff for the handouts made so far. */
  lemma RetriesAreSpaced(pace: Pace, run: seq<State>, events: seq<Event>, i: nat, j: nat) returns (k: nat)
    requires IsRun(pace, run, events) && i < j < |events|
    requires Handed(pace, run[i], events[i]).Some? && Handed(pace, run[j], events[j]).Some?
    requires Handed(pace, run[i], events[i]).value.generation == Handed(pace, run[j], events[j]).value.generation
    requires forall m :: i < m < j ==> Handed(pace, run[m], events[m]).None?
    ensures i < k < j && events[k].Completed? && !events[k].applied && events[k].retryable
    ensures var g := Handed(pace, run[i], events[i]).value.generation;
      events[j].now >= events[k].now + Backoff(pace, Handouts(pace, run, events, g, i + 1))
  {
    var g := Handed(pace, run[i], events[i]).value.generation;
    k := CompletedBetween(pace, run, events, i, j);
    EveryRunKeepsInv(pace, run, events, i + 1);
    EveryRunKeepsInv(pace, run, events, j);
    AttemptsCountHandouts(pace, run, events, g, i + 1);
    UnchangedInFlight(pace, run, events, i + 1, k, j, g);
    ObservedGrows(pace, run, events, i + 1, k + 1);
    ObservedGrows(pace, run, events, k + 1, j);
    UnchangedWhenIdle(pace, run, events, k + 1, j, j, g);
  }
}
