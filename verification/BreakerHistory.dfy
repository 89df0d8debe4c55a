/**
 What the breaker does, said in terms of its history alone.

 A run is a sequence of events. Settlements name the event that acquired the
 token, so the reference below needs no epoch, no probe generation, no
 in-flight flag and no counters: it reads them off the past. `Exec` is the same
 run on the real breaker.
 */
module BreakerHistory {
  import opened Options
  import opened CircuitBreaker

  datatype Event =
    | Acquired(now: int)
    | Settled(at: nat, outcome: Outcome, now: int)
    | Reported(now: int)

  type Run = seq<Event>

  /** Settlements only concern tokens handed out earlier; they may repeat and come late. */
  ghost predicate Legal(es: Run) {
    forall i :: 0 <= i < |es| && es[i].Settled? ==> es[i].at < i && es[es[i].at].Acquired?
  }

  function Front(es: Run): Run
    requires es != []
  {
    es[..|es| - 1]
  }

  function Last(es: Run): Event
    requires es != []
  {
    es[|es| - 1]
  }

  // ---------------------------------------------------------------------
  // The real breaker, run over a history
  // ---------------------------------------------------------------------

  /** `tokens[i]` is what event `i` handed to its caller. */
  datatype World = World(state: State, tokens: seq<Token>)

  function TokenOf(w: World, at: nat): Token {
    if at < |w.tokens| then w.tokens[at] else Zero
  }

  function Step(c: Config, w: World, e: Event): World {
    match e
    case Acquired(now) =>
      var a := Acquire(c, w.state, now);
      World(a.state, w.tokens + [a.token])
    case Settled(at, o, now) => World(Settle(c, w.state, TokenOf(w, at), o, now), w.tokens + [Zero])
    case Reported(now) => World(Report(c, w.state, now), w.tokens + [Zero])
  }

  function Exec(c: Config, es: Run): (w: World)
    ensures |w.tokens| == |es|
  {
    if es == [] then World(INITIAL, []) else Step(c, Exec(c, Front(es)), Last(es))
  }

  // ---------------------------------------------------------------------
  // The reference, read off the history
  // ---------------------------------------------------------------------

  /** The phase, from what happened since the phase was last entered. */
  ghost function PhaseOf(c: Config, es: Run): Phase
    decreases |es|, 2
  {
    if es == [] then Closed
    else
      var h, e := Front(es), Last(es);
      match PhaseOf(c, h)
      case Closed => if FailureCounts(c, h, e) && Failures(c, h) + 1 >= c.failureThreshold then Open else Closed
      case Open => if e.Acquired? && e.now - OpenedAt(c, h) >= c.halfOpenAfter then HalfOpen else Open
      case HalfOpen =>
        if SettlesProbe(c, h, e, Success) && Recoveries(c, h) + 1 >= c.successThreshold then Closed
        else if SettlesProbe(c, h, e, Failure) || (e.Reported? && OutstandingProbe(c, h) == None) then Open
        else HalfOpen
  }

  /** Number of events before the current phase was entered. */
  ghost function PhaseStart(c: Config, es: Run): (n: nat)
    ensures n <= |es|
    decreases |es|, 3
  {
    if es == [] then 0
    else if PhaseOf(c, es) != PhaseOf(c, Front(es)) then |es|
    else PhaseStart(c, Front(es))
  }

  /** In a closed circuit `e` settles, with outcome `o`, a request admitted since the circuit closed. */
  ghost predicate SettlesCurrent(c: Config, h: Run, e: Event, o: Outcome)
    decreases |h|, 4
  {
    e.Settled? && e.outcome == o && PhaseStart(c, h) <= e.at < |h| && h[e.at].Acquired?
  }

  ghost predicate FailureCounts(c: Config, h: Run, e: Event)
    decreases |h|, 5
  {
    e.Reported? || SettlesCurrent(c, h, e, Failure)
  }

  /** Failures that count, since the last success that counts or since closing. */
  ghost function Failures(c: Config, es: Run): nat
    decreases |es|, 4
  {
    if es == [] || PhaseStart(c, es) == |es| then 0
    else
      var h, e := Front(es), Last(es);
      if SettlesCurrent(c, h, e, Success) then 0
      else if FailureCounts(c, h, e) then Failures(c, h) + 1
      else Failures(c, h)
  }

  /** The event that was granted the recovery probe, until that grant is settled. */
  ghost function OutstandingProbe(c: Config, es: Run): Option<nat>
    decreases |es|, 3
  {
    if es == [] then None
    else
      var h, e := Front(es), Last(es);
      var p := OutstandingProbe(c, h);
      if e.Acquired? && PhaseOf(c, es) == HalfOpen && p == None then Some(|h|)
      else if e.Settled? && p == Some(e.at) then None
      else p
  }

  ghost predicate SettlesProbe(c: Config, h: Run, e: Event, o: Outcome)
    decreases |h|, 4
  {
    e.Settled? && e.outcome == o && OutstandingProbe(c, h) == Some(e.at)
  }

  /** Probe successes since the circuit became half-open. */
  ghost function Recoveries(c: Config, es: Run): nat
    decreases |es|, 4
  {
    if es == [] || PhaseStart(c, es) == |es| then 0
    else if SettlesProbe(c, Front(es), Last(es), Success) then Recoveries(c, Front(es)) + 1
    else Recoveries(c, Front(es))
  }

  /** When the circuit opened. */
  ghost function OpenedAt(c: Config, es: Run): int
    decreases |es|, 4
  {
    if es == [] then 0
    else if PhaseStart(c, es) == |es| then Last(es).now
    else OpenedAt(c, Front(es))
  }

  // ---------------------------------------------------------------------
  // Simulation
  // ---------------------------------------------------------------------

  ghost predicate EpochsAgree(c: Config, es: Run, w: World)
    requires |w.tokens| == |es|
  {
    forall k :: 0 <= k < |es| && w.tokens[k].Token? ==>
      && es[k].Acquired?
      && w.tokens[k].epoch <= w.state.epoch
      && (!w.tokens[k].probe ==> (w.tokens[k].epoch == w.state.epoch <==> PhaseStart(c, es) <= k))
  }

  ghost predicate GenerationsAgree(es: Run, w: World)
    requires |w.tokens| == |es|
  {
    forall k :: 0 <= k < |es| && w.tokens[k].Token? && w.tokens[k].probe ==>
      && 1 <= w.tokens[k].gen <= w.state.probeGen
      && (w.tokens[k].epoch == w.state.epoch ==> w.state.phase == HalfOpen)
  }

  ghost predicate ClosedAgree(c: Config, es: Run, w: World)
    requires |w.tokens| == |es|
  {
    forall k :: 0 <= k < |es| && es[k].Acquired? && PhaseStart(c, es) <= k && w.state.phase == Closed ==>
      w.tokens[k].Token? && !w.tokens[k].probe
  }

  /** Epochs and generations of the tokens handed out so far, against the history. */
  ghost predicate TokensAgree(c: Config, es: Run, w: World) {
    |w.tokens| == |es| && EpochsAgree(c, es, w) && GenerationsAgree(es, w) && ClosedAgree(c, es, w)
  }

  ghost predicate ProbeAgrees(c: Config, es: Run, w: World) {
    && |w.tokens| == |es|
    && (w.state.probeInFlight <==> OutstandingProbe(c, es).Some?)
    && (w.state.probeInFlight ==>
          var k := OutstandingProbe(c, es).value;
          && w.state.phase == HalfOpen
          && k < |es|
          && w.tokens[k] == Token(true, w.state.probeGen, w.state.epoch)
          && forall j :: 0 <= j < |es| && w.tokens[j].Token? && w.tokens[j].probe && j != k ==>
                           w.tokens[j].gen < w.state.probeGen)
  }

  ghost predicate CountersAgree(c: Config, es: Run, s: State) {
    && s.phase == PhaseOf(c, es)
    && (s.phase == Closed ==> s.fails == Failures(c, es) < c.failureThreshold)
    && (s.phase == HalfOpen ==> s.success == Recoveries(c, es) < c.successThreshold)
    && (s.phase == Open ==> s.lastErr == OpenedAt(c, es) && s.success == 0)
  }

  ghost predicate Simulates(c: Config, es: Run) {
    var w := Exec(c, es);
    CountersAgree(c, es, w.state) && ProbeAgrees(c, es, w) && TokensAgree(c, es, w)
  }

  lemma SettledTokenEffect(c: Config, h: Run, e: Event)
    requires Legal(h + [e]) && e.Settled? && Simulates(c, h)
    ensures var w := Exec(c, h);
            var t := TokenOf(w, e.at);
            && e.at < |h|
            && h[e.at].Acquired?
            && (w.state.phase == Closed && PhaseStart(c, h) <= e.at <==> t.Token? && !t.probe && t.epoch == w.state.epoch && w.state.phase == Closed)
            && (OutstandingProbe(c, h) == Some(e.at) <==> t.Token? && t.probe && w.state.probeInFlight && t.gen == w.state.probeGen)
  {
    assert (h + [e])[|h|] == e;
    assert h[e.at] == (h + [e])[e.at];
  }

  /** One event later: how each reading of the history moves. */
  lemma Unfold(c: Config, h: Run, e: Event)
    ensures var es := h + [e];
            && Exec(c, es) == Step(c, Exec(c, h), e)
            && (PhaseOf(c, es) == PhaseOf(c, h) ==> PhaseStart(c, es) == PhaseStart(c, h))
            && (PhaseOf(c, es) != PhaseOf(c, h) ==> PhaseStart(c, es) == |es|)
            && PhaseOf(c, es) ==
               (match PhaseOf(c, h)
                case Closed => if FailureCounts(c, h, e) && Failures(c, h) + 1 >= c.failureThreshold then Open else Closed
                case Open => if e.Acquired? && e.now - OpenedAt(c, h) >= c.halfOpenAfter then HalfOpen else Open
                case HalfOpen =>
                  if SettlesProbe(c, h, e, Success) && Recoveries(c, h) + 1 >= c.successThreshold then Closed
                  else if SettlesProbe(c, h, e, Failure) || (e.Reported? && OutstandingProbe(c, h) == None) then Open
                  else HalfOpen)
            && OutstandingProbe(c, es) ==
               (if e.Acquired? && PhaseOf(c, es) == HalfOpen && OutstandingProbe(c, h) == None then Some(|h|)
                else if e.Settled? && OutstandingProbe(c, h) == Some(e.at) then None
                else OutstandingProbe(c, h))
  {
    var es := h + [e];
    assert Front(es) == h && Last(es) == e;
  }

  lemma UnfoldCounts(c: Config, h: Run, e: Event)
    ensures var es := h + [e];
            && (PhaseOf(c, es) != PhaseOf(c, h) ==> Failures(c, es) == 0 && Recoveries(c, es) == 0 && OpenedAt(c, es) == e.now)
            && (PhaseOf(c, es) == PhaseOf(c, h) ==>
                  && Failures(c, es) ==
                     (if SettlesCurrent(c, h, e, Success) then 0
                      else if FailureCounts(c, h, e) then Failures(c, h) + 1
                      else Failures(c, h))
                  && Recoveries(c, es) == (if SettlesProbe(c, h, e, Success) then Recoveries(c, h) + 1 else Recoveries(c, h))
                  && OpenedAt(c, es) == OpenedAt(c, h))
  {
    var es := h + [e];
    assert Front(es) == h && Last(es) == e;
  }

  lemma StepPhase(c: Config, h: Run, e: Event)
    requires Legal(h + [e]) && Simulates(c, h)
    ensures Exec(c, h + [e]).state.phase == PhaseOf(c, h + [e])
  {
    Unfold(c, h, e);
    if e.Settled? {
      SettledTokenEffect(c, h, e);
    }
  }

  lemma StepCounters(c: Config, h: Run, e: Event)
    requires Legal(h + [e]) && Simulates(c, h)
    ensures CountersAgree(c, h + [e], Exec(c, h + [e]).state)
  {
    StepPhase(c, h, e);
    Unfold(c, h, e);
    UnfoldCounts(c, h, e);
    if e.Settled? {
      SettledTokenEffect(c, h, e);
    }
  }

  lemma StepProbe(c: Config, h: Run, e: Event)
    requires Legal(h + [e]) && Simulates(c, h)
    ensures ProbeAgrees(c, h + [e], Exec(c, h + [e]))
  {
    Unfold(c, h, e);
    StepPhase(c, h, e);
    if e.Settled? {
      SettledTokenEffect(c, h, e);
    }
  }

  /** The tokens stay, one is added, and the epoch counts the phase changes. */
  lemma StepWorld(c: Config, h: Run, e: Event)
    requires Legal(h + [e]) && Simulates(c, h)
    ensures var w, w' := Exec(c, h), Exec(c, h + [e]);
            && |w.tokens| == |h|
            && |w'.tokens| == |h| + 1
            && w.state.probeGen <= w'.state.probeGen
            && w'.state.epoch == w.state.epoch + (if w'.state.phase == w.state.phase then 0 else 1)
            && (forall k :: 0 <= k < |h| ==> w'.tokens[k] == w.tokens[k] && (h + [e])[k] == h[k])
            && (h + [e])[|h|] == e
  {
    Unfold(c, h, e);
  }

  lemma StepEpochs(c: Config, h: Run, e: Event)
    requires Legal(h + [e]) && Simulates(c, h)
    ensures |Exec(c, h + [e]).tokens| == |h| + 1 && EpochsAgree(c, h + [e], Exec(c, h + [e]))
  {
    Unfold(c, h, e);
    StepPhase(c, h, e);
    StepWorld(c, h, e);
  }

  lemma StepGenerations(c: Config, h: Run, e: Event)
    requires Legal(h + [e]) && Simulates(c, h)
    ensures |Exec(c, h + [e]).tokens| == |h| + 1 && GenerationsAgree(h + [e], Exec(c, h + [e]))
  {
    Unfold(c, h, e);
    StepPhase(c, h, e);
    StepWorld(c, h, e);
  }

  lemma StepClosed(c: Config, h: Run, e: Event)
    requires Legal(h + [e]) && Simulates(c, h)
    ensures |Exec(c, h + [e]).tokens| == |h| + 1 && ClosedAgree(c, h + [e], Exec(c, h + [e]))
  {
    Unfold(c, h, e);
    StepPhase(c, h, e);
    StepWorld(c, h, e);
  }

  lemma StepTokens(c: Config, h: Run, e: Event)
    requires Legal(h + [e]) && Simulates(c, h)
    ensures TokensAgree(c, h + [e], Exec(c, h + [e]))
  {
    StepClosed(c, h, e);
    StepEpochs(c, h, e);
    StepGenerations(c, h, e);
  }

  /** Every run of the real breaker is the run the history dictates. */
  lemma {:induction false} Refinement(c: Config, es: Run)
    requires Legal(es)
    ensures Simulates(c, es)
  {
    if es != [] {
      var h, e := Front(es), Last(es);
      assert es == h + [e];
      assert forall i :: 0 <= i < |h| ==> es[i] == h[i];
      Refinement(c, h);
      StepCounters(c, h, e);
      StepProbe(c, h, e);
      StepTokens(c, h, e);
    }
  }
}
