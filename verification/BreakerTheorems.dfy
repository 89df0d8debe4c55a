/** What holds over every run of the breaker, whatever its tokens are used for. */
module BreakerTheorems {
  import opened Options
  import opened CircuitBreaker
  import opened BreakerHistory

  lemma PrefixStep(c: Config, es: Run, n: nat)
    requires n < |es|
    ensures es[..n + 1] == es[..n] + [es[n]]
    ensures Exec(c, es[..n + 1]) == Step(c, Exec(c, es[..n]), es[n])
  {
    assert es[..n + 1] == es[..n] + [es[n]];
    Unfold(c, es[..n], es[n]);
  }

  /**
   The phase changes on exactly these events: Closed to Open at the
   failureThreshold-th failure that counts, Open to HalfOpen at the first
   acquisition after the interval, HalfOpen to Closed at the
   successThreshold-th probe success, HalfOpen to Open at any current failure.
   */
  lemma PhaseChangesExactly(c: Config, h: Run, e: Event)
    requires Legal(h + [e])
    ensures var p, q := Exec(c, h).state.phase, Exec(c, h + [e]).state.phase;
            && (p == Closed && q == Open <==> p == Closed && FailureCounts(c, h, e) && Failures(c, h) + 1 == c.failureThreshold)
            && (p == HalfOpen && q == Closed <==>
                  p == HalfOpen && SettlesProbe(c, h, e, Success) && Recoveries(c, h) + 1 == c.successThreshold)
            && (p == HalfOpen && q == Open <==>
                  && p == HalfOpen
                  && (SettlesProbe(c, h, e, Failure) || (e.Reported? && OutstandingProbe(c, h) == None)))
            && (p == Open && q == HalfOpen <==> p == Open && e.Acquired? && e.now - OpenedAt(c, h) >= c.halfOpenAfter)
            && (p == Open ==> q != Closed)
            && (p == Closed ==> q != HalfOpen)
            && (q == Closed && p != Closed ==> Exec(c, h + [e]).state.fails == 0)
  {
    assert (h + [e])[..|h|] == h;
    Refinement(c, h);
    Refinement(c, h + [e]);
    Unfold(c, h, e);
    UnfoldCounts(c, h, e);
  }

  ghost function StateAt(c: Config, es: Run, k: nat): State
    requires k <= |es|
  {
    Exec(c, es[..k]).state
  }

  /** The epoch counts the phase changes. */
  lemma EpochSteps(c: Config, es: Run, n: nat)
    requires n < |es|
    ensures var s, s' := StateAt(c, es, n), StateAt(c, es, n + 1);
            s'.epoch == s.epoch + if s'.phase == s.phase then 0 else 1
  {
    PrefixStep(c, es, n);
  }

  /** Two moments lie in the same epoch exactly when the phase never changed between them. */
  lemma {:induction false} EpochMarksPhase(c: Config, es: Run, i: nat, j: nat)
    requires i <= j <= |es|
    ensures StateAt(c, es, i).epoch <= StateAt(c, es, j).epoch
    ensures StateAt(c, es, i).epoch == StateAt(c, es, j).epoch <==>
            forall k :: i <= k <= j ==> StateAt(c, es, k).phase == StateAt(c, es, i).phase
    decreases j - i
  {
    if i < j {
      EpochMarksPhase(c, es, i, j - 1);
      EpochSteps(c, es, j - 1);
    }
  }

  lemma {:induction false} TokenFixedOnceMinted(c: Config, es: Run, k: nat, n: nat)
    requires k < n <= |es|
    ensures Exec(c, es[..n]).tokens[k] == Exec(c, es[..k + 1]).tokens[k]
    decreases n
  {
    if k + 1 < n {
      TokenFixedOnceMinted(c, es, k, n - 1);
      PrefixStep(c, es, n - 1);
      assert n - 1 + 1 == n;
    }
  }

  lemma PhaseSinceMinted(c: Config, es: Run, k: nat)
    requires k < |es|
    requires var w := Exec(c, es); w.tokens[k].Token? && w.tokens[k].epoch == w.state.epoch
    ensures forall n :: k + 1 <= n <= |es| ==> StateAt(c, es, n).phase == Exec(c, es).state.phase
  {
    assert es[..|es|] == es;
    TokenFixedOnceMinted(c, es, k, |es|);
    assert StateAt(c, es, |es|) == Exec(c, es).state;
    EpochMarksPhase(c, es, k + 1, |es|);
  }

  /**
   A token can move the breaker only if the phase has not changed since it was
   minted, never if it was minted in an open circuit, and a probe only while it
   is the newest grant and unsettled.
   */
  lemma OnlyCurrentTokensAct(c: Config, es: Run, k: nat, o: Outcome, now: int)
    requires Legal(es) && k < |es|
    requires var w := Exec(c, es); Settle(c, w.state, w.tokens[k], o, now) != w.state
    ensures var w := Exec(c, es);
            && es[k].Acquired?
            && w.state.phase != Open
            && (forall n :: k + 1 <= n <= |es| ==> StateAt(c, es, n).phase == w.state.phase)
            && (w.tokens[k].probe <==> w.state.phase == HalfOpen)
            && (w.tokens[k].probe ==> w.tokens[k].gen == w.state.probeGen && OutstandingProbe(c, es) == Some(k))
  {
    Refinement(c, es);
    PhaseSinceMinted(c, es, k);
  }

  /**
   Settling the same token twice the same way equals settling it once, except
   for a counted failure on a closed circuit that it does not open: that one
   counts twice.
   */
  lemma SettlingTwice(c: Config, es: Run, k: nat, o: Outcome, now: int)
    requires Legal(es) && k < |es|
    ensures var w := Exec(c, es);
            var t := w.tokens[k];
            var once := Settle(c, w.state, t, o, now);
            Settle(c, once, t, o, now) == once <==>
            !(w.state.phase == Closed && t.Token? && !t.probe && t.epoch == w.state.epoch
              && o == Failure && w.state.fails + 1 < c.failureThreshold)
  {
    Refinement(c, es);
  }

  lemma {:induction false} ProbeGrantNeverReturns(c: Config, es: Run, at: nat, i: nat, j: nat)
    requires at < i <= j <= |es|
    requires OutstandingProbe(c, es[..i]) != Some(at)
    ensures OutstandingProbe(c, es[..j]) != Some(at)
    decreases j
  {
    if i < j {
      ProbeGrantNeverReturns(c, es, at, i, j - 1);
      PrefixStep(c, es, j - 1);
      assert j - 1 + 1 == j;
      Unfold(c, es[..j - 1], es[j - 1]);
    }
  }

  /** However often a probe token is settled, at most one settlement moves the breaker. */
  lemma ProbeActsAtMostOnce(c: Config, es: Run, i: nat, j: nat)
    requires Legal(es) && i < j < |es|
    requires es[i].Settled? && es[j].Settled? && es[i].at == es[j].at
    requires var t := TokenOf(Exec(c, es), es[i].at); t.Token? && t.probe
    ensures Exec(c, es[..i + 1]).state == Exec(c, es[..i]).state || Exec(c, es[..j + 1]).state == Exec(c, es[..j]).state
  {
    var at := es[i].at;
    Refinement(c, es[..i]);
    Refinement(c, es[..j]);
    assert es[..|es|] == es;
    TokenFixedOnceMinted(c, es, at, i);
    TokenFixedOnceMinted(c, es, at, j);
    TokenFixedOnceMinted(c, es, at, |es|);
    PrefixStep(c, es, i);
    PrefixStep(c, es, j);
    Unfold(c, es[..i], es[i]);
    ProbeGrantNeverReturns(c, es, at, i + 1, j);
  }

  /** Admission is refused exactly while a probe is outstanding. */
  lemma RefusedExactlyWhileProbing(c: Config, es: Run, now: int)
    requires Legal(es)
    ensures !Acquire(c, Exec(c, es).state, now).ok <==> OutstandingProbe(c, es).Some?
    ensures Exec(c, es).state.probeInFlight <==> OutstandingProbe(c, es).Some?
    ensures Exec(c, es).state.probeInFlight ==> Exec(c, es).state.phase == HalfOpen
  {
    Refinement(c, es);
  }

  /** The router's test is exact: it accepts a circuit just when a request sent there would carry weight. */
  lemma RoutableMeansAccountable(c: Config, es: Run, now: int)
    requires Legal(es)
    ensures var a := Acquire(c, Exec(c, es).state, now);
            CanRoute(c, Exec(c, es).state, now) <==> a.ok && Settle(c, a.state, a.token, Failure, now) != a.state
  {
    Refinement(c, es);
  }

  /** Nothing that happens to an open circuit moves any part of it, in particular not its recovery clock. */
  lemma {:induction false} OpenCircuitStandsStill(c: Config, es: Run, i: nat, j: nat)
    requires Legal(es) && i <= j <= |es|
    requires forall n :: i <= n <= j ==> Exec(c, es[..n]).state.phase == Open
    ensures Exec(c, es[..j]).state == Exec(c, es[..i]).state
    decreases j
  {
    if i < j {
      OpenCircuitStandsStill(c, es, i, j - 1);
      Refinement(c, es[..j - 1]);
      PrefixStep(c, es, j - 1);
      assert j - 1 + 1 == j;
    }
  }

  // ---------------------------------------------------------------------
  // Recovery
  // ---------------------------------------------------------------------

  /** A late settlement: which event minted the token, how it is settled and when. */
  datatype Late = Late(at: nat, outcome: Outcome, now: int)

  /** One probe, with late settlements of older tokens before, during and after it. */
  datatype Round = Round(before: seq<Late>, acquireAt: int, during: seq<Late>, successAt: int, after: seq<Late>)

  ghost function SettleLate(c: Config, w: World, s: State, ls: seq<Late>): State
    decreases |ls|
  {
    if ls == [] then s
    else SettleLate(c, w, Settle(c, s, TokenOf(w, ls[0].at), ls[0].outcome, ls[0].now), ls[1..])
  }

  ghost function RunRound(c: Config, w: World, s: State, r: Round): State {
    var a := Acquire(c, SettleLate(c, w, s, r.before), r.acquireAt);
    SettleLate(c, w, Settle(c, SettleLate(c, w, a.state, r.during), a.token, Success, r.successAt), r.after)
  }

  ghost function RunRounds(c: Config, w: World, s: State, rs: seq<Round>): State {
    if rs == [] then s else RunRound(c, w, RunRounds(c, w, s, rs[..|rs| - 1]), rs[|rs| - 1])
  }

  /** No token minted before the circuit opened can act on `s` any more. */
  ghost predicate Deaf(w: World, s: State) {
    && (s.phase == Closed ==> w.state.epoch < s.epoch)
    && (s.probeInFlight ==> w.state.probeGen < s.probeGen)
  }

  lemma {:induction false} LateSettlementsAreInert(c: Config, es: Run, s: State, ls: seq<Late>)
    requires Legal(es) && Deaf(Exec(c, es), s)
    ensures SettleLate(c, Exec(c, es), s, ls) == s
    decreases |ls|
  {
    if ls != [] {
      Refinement(c, es);
      LateSettlementsAreInert(c, es, s, ls[1..]);
    }
  }

  ghost predicate Recovering(c: Config, w: World, s: State, n: nat) {
    && s.phase == HalfOpen
    && !s.probeInFlight
    && s.success == n
    && s.epoch == w.state.epoch + 1
    && s.probeGen == w.state.probeGen + n
  }

  lemma RoundAdvances(c: Config, es: Run, s: State, n: nat, r: Round)
    requires Legal(es) && n < c.successThreshold
    requires Exec(c, es).state.phase == Open
    requires (n == 0 && s == Exec(c, es).state && r.acquireAt - s.lastErr >= c.halfOpenAfter)
             || (n > 0 && Recovering(c, Exec(c, es), s, n))
    ensures var s' := RunRound(c, Exec(c, es), s, r);
            if n + 1 < c.successThreshold then Recovering(c, Exec(c, es), s', n + 1)
            else s'.phase == Closed && s'.fails == 0 && !s'.probeInFlight
  {
    Refinement(c, es);
    var w := Exec(c, es);
    LateSettlementsAreInert(c, es, s, r.before);
    var a := Acquire(c, s, r.acquireAt);
    LateSettlementsAreInert(c, es, a.state, r.during);
    var s1 := Settle(c, a.state, a.token, Success, r.successAt);
    LateSettlementsAreInert(c, es, s1, r.after);
  }

  /**
   From every reachable open circuit, once halfOpenAfter has passed,
   successThreshold probes that succeed close it, and no fewer do, whatever is
   done meanwhile with the tokens minted before.
   */
  lemma {:induction false} RecoveryAlwaysSucceeds(c: Config, es: Run, rs: seq<Round>)
    requires Legal(es) && Exec(c, es).state.phase == Open
    requires 1 <= |rs| <= c.successThreshold
    requires rs[0].acquireAt - Exec(c, es).state.lastErr >= c.halfOpenAfter
    ensures var s := RunRounds(c, Exec(c, es), Exec(c, es).state, rs);
            if |rs| < c.successThreshold then Recovering(c, Exec(c, es), s, |rs|)
            else s.phase == Closed && s.fails == 0 && !s.probeInFlight
    decreases |rs|
  {
    var w := Exec(c, es);
    var n := |rs| - 1;
    if n > 0 {
      RecoveryAlwaysSucceeds(c, es, rs[..n]);
    } else {
      assert RunRounds(c, w, w.state, rs[..n]) == w.state;
    }
    RoundAdvances(c, es, RunRounds(c, w, w.state, rs[..n]), n, rs[n]);
  }
}
