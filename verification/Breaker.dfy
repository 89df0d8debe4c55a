/**
 The circuit breaker that every upstream carries.

 `State` and the functions on it are the breaker's transition rules; class
 `Breaker` is the locked object that performs them step by step. Tokens are
 plain values: anybody may hold one for any length of time and settle it late,
 twice, or never. Time is an input of every operation that reads the clock.
 */
module CircuitBreaker {

  datatype Phase = Closed | Open | HalfOpen

  datatype RawConfig = RawConfig(failureThreshold: int, successThreshold: int, halfOpenAfter: int)

  /** Thresholds are at least one after defaulting and validation. */
  type Config = c: RawConfig
    | 1 <= c.failureThreshold && 1 <= c.successThreshold && 0 <= c.halfOpenAfter
    witness RawConfig(5, 2, 30)

  datatype Token = Zero | Token(probe: bool, gen: nat, epoch: nat)

  datatype Outcome = Success | Failure | Release

  datatype State = State(
    phase: Phase,
    fails: nat,
    success: nat,
    lastErr: int,
    probeInFlight: bool,
    probeGen: nat,
    epoch: nat)

  const INITIAL := State(Closed, 0, 0, 0, false, 0, 0)

  // ---------------------------------------------------------------------
  // Transition rules
  // ---------------------------------------------------------------------

  function Transition(s: State, p: Phase): State {
    if s.phase == p then s else s.(phase := p, epoch := s.epoch + 1)
  }

  function OpenUp(s: State): State {
    Transition(s, Open).(success := 0)
  }

  function RecordFailure(c: Config, s: State, now: int): State {
    var t := s.(fails := s.fails + 1, lastErr := now);
    if t.fails >= c.failureThreshold then OpenUp(t) else t
  }

  function FailAndOpen(s: State, now: int): State {
    OpenUp(s.(fails := s.fails + 1, lastErr := now))
  }

  function Settle(c: Config, s: State, t: Token, o: Outcome, now: int): State {
    match t
    case Zero => s
    case Token(true, gen, _) =>
      if !s.probeInFlight || s.probeGen != gen then s
      else
        var s1 := s.(probeInFlight := false);
        (match o
         case Success =>
           var s2 := s1.(success := s1.success + 1);
           if s2.success >= c.successThreshold then Transition(s2, Closed).(fails := 0) else s2
         case Failure => FailAndOpen(s1, now)
         case Release => s1)
    case Token(false, _, epoch) =>
      if s.epoch != epoch || s.phase != Closed then s
      else
        (match o
         case Success => s.(fails := 0)
         case Failure => RecordFailure(c, s, now)
         case Release => s)
  }

  /** Failure evidence from a request that holds no token any more. */
  function Report(c: Config, s: State, now: int): State {
    match s.phase
    case Closed => RecordFailure(c, s, now)
    case HalfOpen => if s.probeInFlight then s else FailAndOpen(s, now)
    case Open => s
  }

  function GrantProbe(s: State): (State, Token) {
    var s1 := s.(probeInFlight := true, probeGen := s.probeGen + 1);
    (s1, Token(true, s1.probeGen, s1.epoch))
  }

  datatype Admission = Admission(state: State, token: Token, ok: bool)

  function Acquire(c: Config, s: State, now: int): Admission {
    match s.phase
    case Open =>
      if now - s.lastErr >= c.halfOpenAfter then
        var (s1, t) := GrantProbe(Transition(s, HalfOpen).(success := 0));
        Admission(s1, t, true)
      else Admission(s, Token(false, 0, s.epoch), true)
    case HalfOpen =>
      if s.probeInFlight then Admission(s, Zero, false)
      else
        var (s1, t) := GrantProbe(s);
        Admission(s1, t, true)
    case Closed => Admission(s, Token(false, 0, s.epoch), true)
  }

  predicate CanRoute(c: Config, s: State, now: int) {
    match s.phase
    case Open => now - s.lastErr >= c.halfOpenAfter
    case HalfOpen => !s.probeInFlight
    case Closed => true
  }

  // ---------------------------------------------------------------------
  // The locked object
  // ---------------------------------------------------------------------

  class Breaker {
    const cfg: Config
    var cbState: Phase
    var cbFails: nat
    var cbSuccess: nat
    var cbLastErr: int
    var cbProbeInFlight: bool
    var cbProbeGen: nat
    var cbEpoch: nat

    ghost function View(): State
      reads this
    {
      State(cbState, cbFails, cbSuccess, cbLastErr, cbProbeInFlight, cbProbeGen, cbEpoch)
    }

    constructor (cfg: Config)
      ensures this.cfg == cfg && View() == INITIAL
    {
      this.cfg := cfg;
      cbState, cbFails, cbSuccess, cbLastErr := Closed, 0, 0, 0;
      cbProbeInFlight, cbProbeGen, cbEpoch := false, 0, 0;
    }

    method TransitionLocked(p: Phase)
      modifies this`cbState, this`cbEpoch
      ensures View() == Transition(old(View()), p)
    {
      if cbState != p {
        cbState := p;
        cbEpoch := cbEpoch + 1;
      }
    }

    method OpenLocked()
      modifies this`cbState, this`cbEpoch, this`cbSuccess
      ensures View() == OpenUp(old(View()))
    {
      TransitionLocked(Open);
      cbSuccess := 0;
    }

    method RecordFailureLocked(now: int)
      modifies this
      ensures View() == RecordFailure(cfg, old(View()), now)
    {
      cbFails := cbFails + 1;
      cbLastErr := now;
      if cbFails >= cfg.failureThreshold {
        OpenLocked();
      }
    }

    method FailAndOpenLocked(now: int)
      modifies this
      ensures View() == FailAndOpen(old(View()), now)
    {
      cbFails := cbFails + 1;
      cbLastErr := now;
      OpenLocked();
    }

    method SettleToken(t: Token, o: Outcome, now: int)
      modifies this
      ensures View() == Settle(cfg, old(View()), t, o, now)
    {
      if t.Zero? {
        return;
      }
      if t.probe {
        if !cbProbeInFlight || cbProbeGen != t.gen {
          return;
        }
        cbProbeInFlight := false;
        match o {
          case Success =>
            cbSuccess := cbSuccess + 1;
            if cbSuccess >= cfg.successThreshold {
              TransitionLocked(Closed);
              cbFails := 0;
            }
          case Failure => FailAndOpenLocked(now);
          case Release =>
        }
        return;
      }
      if cbEpoch != t.epoch || cbState != Closed {
        return;
      }
      match o {
        case Success => cbFails := 0;
        case Failure => RecordFailureLocked(now);
        case Release =>
      }
    }

    method CBFailure(now: int)
      modifies this
      ensures View() == Report(cfg, old(View()), now)
    {
      match cbState {
        case Closed => RecordFailureLocked(now);
        case HalfOpen =>
          if !cbProbeInFlight {
            FailAndOpenLocked(now);
          }
        case Open =>
      }
    }

    method GrantProbeLocked() returns (t: Token)
      modifies this`cbProbeInFlight, this`cbProbeGen
      ensures (View(), t) == GrantProbe(old(View()))
    {
      cbProbeInFlight := true;
      cbProbeGen := cbProbeGen + 1;
      t := Token(true, cbProbeGen, cbEpoch);
    }

    method TryAcquire(now: int) returns (t: Token, ok: bool)
      modifies this
      ensures Admission(View(), t, ok) == Acquire(cfg, old(View()), now)
    {
      match cbState {
        case Open =>
          if now - cbLastErr >= cfg.halfOpenAfter {
            TransitionLocked(HalfOpen);
            cbSuccess := 0;
            t := GrantProbeLocked();
            return t, true;
          }
          return Token(false, 0, cbEpoch), true;
        case HalfOpen =>
          if cbProbeInFlight {
            return Zero, false;
          }
          t := GrantProbeLocked();
          return t, true;
        case Closed =>
          return Token(false, 0, cbEpoch), true;
      }
    }

    method CanRouteNow(now: int) returns (b: bool)
      ensures b == CanRoute(cfg, View(), now)
    {
      match cbState {
        case Open => b := now - cbLastErr >= cfg.halfOpenAfter;
        case HalfOpen => b := !cbProbeInFlight;
        case Closed => b := true;
      }
    }
  }
}
