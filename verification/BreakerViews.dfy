/**
 One upstream's share of an interleaving: the calls its breaker saw, in order, are
 a legal history, and the breaker is where that history leads.
 */
module BreakerViews {
  import opened Options
  import opened Ledger
  import opened Interleaving
  import H = BreakerHistory
  import BT = BreakerTheorems
  import CB = CircuitBreaker

  /** The breaker's history, and which of its events handed out an attempt's token. */
  datatype View = View(events: H.Run, minted: map<(nat, nat), nat>)

  /** The breaker that an action calls, if any. */
  ghost function Caller(cfg: Configs, s: Sys, a: Action): Option<string>
    requires Enabled(cfg, s, a)
  {
    match a
    case Evidence(id, _) => Some(id)
    case Act(r, op, _) =>
      if (op.Enter? && op.gate != Unsent) || op.Settle? then Some(s.books[r][op.k].u.id) else None
  }

  /** A call as an event of the history; settling the zero token calls nothing. */
  ghost function EventOf(v: View, a: Action): Option<H.Event>
    requires a.Evidence? || a.op.Enter? || a.op.Settle?
  {
    match a
    case Evidence(_, now) => Some(H.Reported(now))
    case Act(r, op, now) =>
      if op.Enter? then Some(H.Acquired(now))
      else if (r, op.k) in v.minted then Some(H.Settled(v.minted[(r, op.k)], op.outcome, now))
      else None
  }

  ghost function Seen(v: View, a: Action): View
    requires a.Evidence? || a.op.Enter? || a.op.Settle?
  {
    var events := if EventOf(v, a).Some? then v.events + [EventOf(v, a).value] else v.events;
    var minted := if a.Act? && a.op.Enter? && a.op.gate == Admitted then v.minted[(a.req, a.op.k) := |v.events|] else v.minted;
    View(events, minted)
  }

  /** What one breaker saw of a run. */
  ghost function ViewOf(cfg: Configs, n: nat, run: seq<Action>, id: string): View
    requires Runs(cfg, n, run)
    decreases |run|
  {
    if run == [] then View([], map[])
    else
      var front, a := run[..|run| - 1], run[|run| - 1];
      var v := ViewOf(cfg, n, front, id);
      if Caller(cfg, After(cfg, n, front), a) == Some(id) then Seen(v, a) else v
  }

  /** The recorded tokens of this upstream's attempts are those the history handed out. */
  ghost predicate TokensMatch(c: CB.Config, s: Sys, v: View, id: string) {
    && (forall r: nat, k: nat :: (r, k) in v.minted ==>
          && IsAttempt(s, r, k)
          && s.books[r][k].u.id == id
          && v.minted[(r, k)] < |v.events|
          && v.events[v.minted[(r, k)]].Acquired?
          && H.TokenOf(H.Exec(c, v.events), v.minted[(r, k)]) == TokenAt(s, r, k))
    && (forall r: nat, k: nat :: IsAttempt(s, r, k) && s.books[r][k].u.id == id && TokenAt(s, r, k).Token? ==>
          (r, k) in v.minted)
  }

  ghost predicate Mirrors(c: CB.Config, s: Sys, v: View, id: string) {
    H.Legal(v.events) && H.Exec(c, v.events).state == BreakerOf(s, id) && TokensMatch(c, s, v, id)
  }

  /** Attempts stay where they are and keep their upstream; only a spawn adds one. */
  lemma AttemptsKept(cfg: Configs, s: Sys, a: Action)
    requires Enabled(cfg, s, a)
    ensures var s' := Step(cfg, s, a);
            forall r: nat, k: nat :: IsAttempt(s', r, k) ==>
              if IsAttempt(s, r, k) then s'.books[r][k].u == s.books[r][k].u else a.Act? && a.op.Spawn?
    ensures forall r: nat, k: nat :: IsAttempt(s, r, k) ==> IsAttempt(Step(cfg, s, a), r, k)
  {
  }

  /** Only an admission records a token, and only its own. */
  lemma TokensKept(cfg: Configs, s: Sys, a: Action, r: nat, k: nat)
    requires Enabled(cfg, s, a)
    requires !(a.Act? && a.op.Enter? && a.op.gate == Admitted && a.req == r && a.op.k == k)
    ensures TokenAt(Step(cfg, s, a), r, k) == TokenAt(s, r, k)
  {
  }

  /** An action that does not call the breaker leaves its tokens and its state alone. */
  lemma UnseenKeeps(cfg: Configs, s: Sys, a: Action, v: View, id: string)
    requires Enabled(cfg, s, a) && Recorded(s) && Mirrors(cfg(id), s, v, id)
    requires Caller(cfg, s, a) != Some(id)
    ensures Mirrors(cfg(id), Step(cfg, s, a), v, id)
  {
    var s' := Step(cfg, s, a);
    AttemptsKept(cfg, s, a);
    forall r: nat, k: nat | IsAttempt(s', r, k) && s'.books[r][k].u.id == id
      ensures TokenAt(s', r, k) == TokenAt(s, r, k)
    {
      TokensKept(cfg, s, a, r, k);
    }
    assert BreakerOf(s', id) == BreakerOf(s, id);
  }

  /** One more event: the tokens handed out so far stay, one is added, and the run stays legal. */
  lemma HistoryGrows(c: CB.Config, es: H.Run, e: H.Event)
    requires H.Legal(es) && (e.Settled? ==> e.at < |es| && es[e.at].Acquired?)
    ensures H.Legal(es + [e])
    ensures H.Exec(c, es + [e]) == H.Step(c, H.Exec(c, es), e)
    ensures forall i :: 0 <= i < |es| ==> (es + [e])[i] == es[i] && H.TokenOf(H.Exec(c, es + [e]), i) == H.TokenOf(H.Exec(c, es), i)
  {
    H.Unfold(c, es, e);
  }

  lemma EnterMirrors(cfg: Configs, s: Sys, a: Action, v: View, id: string)
    requires Enabled(cfg, s, a) && Recorded(s) && Mirrors(cfg(id), s, v, id)
    requires a.Act? && a.op.Enter? && Caller(cfg, s, a) == Some(id)
    ensures Mirrors(cfg(id), Step(cfg, s, a), Seen(v, a), id)
  {
    var s', v' := Step(cfg, s, a), Seen(v, a);
    HistoryGrows(cfg(id), v.events, H.Acquired(a.now));
    assert v'.events[|v.events|].Acquired?;
    AttemptsKept(cfg, s, a);
    forall r: nat, k: nat | !(a.op.gate == Admitted && a.req == r && a.op.k == k)
      ensures TokenAt(s', r, k) == TokenAt(s, r, k)
    {
      TokensKept(cfg, s, a, r, k);
    }
  }

  lemma SettleMirrors(cfg: Configs, s: Sys, a: Action, v: View, id: string)
    requires Enabled(cfg, s, a) && Mirrors(cfg(id), s, v, id)
    requires a.Act? && a.op.Settle? && Caller(cfg, s, a) == Some(id)
    ensures Mirrors(cfg(id), Step(cfg, s, a), Seen(v, a), id)
  {
    var s' := Step(cfg, s, a);
    if EventOf(v, a).Some? {
      HistoryGrows(cfg(id), v.events, EventOf(v, a).value);
    }
    AttemptsKept(cfg, s, a);
  }

  lemma EvidenceMirrors(cfg: Configs, s: Sys, a: Action, v: View, id: string)
    requires Enabled(cfg, s, a) && Mirrors(cfg(id), s, v, id) && a.Evidence? && a.id == id
    ensures Mirrors(cfg(id), Step(cfg, s, a), Seen(v, a), id)
  {
    var s' := Step(cfg, s, a);
    HistoryGrows(cfg(id), v.events, H.Reported(a.now));
    AttemptsKept(cfg, s, a);
    forall r: nat, k: nat ensures TokenAt(s', r, k) == TokenAt(s, r, k) {
      TokensKept(cfg, s, a, r, k);
    }
  }

  lemma {:induction false} RunMirrors(cfg: Configs, n: nat, run: seq<Action>, id: string)
    requires Runs(cfg, n, run)
    ensures Mirrors(cfg(id), After(cfg, n, run), ViewOf(cfg, n, run, id), id)
    decreases |run|
  {
    if run != [] {
      var front, a := run[..|run| - 1], run[|run| - 1];
      var s, v := After(cfg, n, front), ViewOf(cfg, n, front, id);
      RunMirrors(cfg, n, front, id);
      BooksExplainBreakers(cfg, n, front, id);
      if Caller(cfg, s, a) != Some(id) {
        UnseenKeeps(cfg, s, a, v, id);
      } else if a.Evidence? {
        EvidenceMirrors(cfg, s, a, v, id);
      } else if a.op.Enter? {
        EnterMirrors(cfg, s, a, v, id);
      } else {
        SettleMirrors(cfg, s, a, v, id);
      }
    }
  }

  /**
   In every interleaving each breaker is in the state that its own calls lead to,
   and those calls are a legal history: what is proved of every history holds of
   every upstream in every interleaving.
   */
  lemma BreakersFollowTheirHistory(cfg: Configs, n: nat, run: seq<Action>, id: string)
    requires Runs(cfg, n, run)
    ensures var es := ViewOf(cfg, n, run, id).events;
            && H.Legal(es)
            && BreakerOf(After(cfg, n, run), id) == H.Exec(cfg(id), es).state
            && H.CountersAgree(cfg(id), es, BreakerOf(After(cfg, n, run), id))
  {
    RunMirrors(cfg, n, run, id);
    H.Refinement(cfg(id), ViewOf(cfg, n, run, id).events);
  }

  /** In particular an admission is refused exactly while a probe handed out earlier is still unsettled. */
  lemma RefusalsExplained(cfg: Configs, n: nat, run: seq<Action>, id: string, now: int)
    requires Runs(cfg, n, run)
    ensures CB.Acquire(cfg(id), BreakerOf(After(cfg, n, run), id), now).ok <==>
            H.OutstandingProbe(cfg(id), ViewOf(cfg, n, run, id).events).None?
  {
    BreakersFollowTheirHistory(cfg, n, run, id);
    BT.RefusedExactlyWhileProbing(cfg(id), ViewOf(cfg, n, run, id).events, now);
  }
}
