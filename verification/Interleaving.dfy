/**
 Any number of requests over any number of upstreams, in any interleaving.

 Each request contributes the operations of its own trace; the breakers answer
 admissions and take settlements as they come; failure evidence without a token
 may arrive at any moment.
 */
module Interleaving {
  import opened Ledger
  import CB = CircuitBreaker

  type Configs = string -> CB.Config

  datatype Sys = Sys(
    breakers: map<string, CB.State>,
    active: map<string, int>,
    books: seq<Book>,
    tokens: map<(nat, nat), CB.Token>)

  datatype Action = Act(req: nat, op: Op, now: int) | Evidence(id: string, now: int)

  function BreakerOf(s: Sys, id: string): CB.State {
    if id in s.breakers then s.breakers[id] else CB.INITIAL
  }

  function ActiveOf(s: Sys, id: string): int {
    if id in s.active then s.active[id] else 0
  }

  function TokenAt(s: Sys, r: nat, k: nat): CB.Token {
    if (r, k) in s.tokens then s.tokens[(r, k)] else CB.Zero
  }

  function Start(n: nat): Sys {
    Sys(map[], map[], seq(n, _ => []), map[])
  }

  /** The operation fits the request's books, and an admission is what the breaker answers. */
  ghost predicate Enabled(cfg: Configs, s: Sys, a: Action) {
    a.Act? ==>
      && a.req < |s.books|
      && Allowed(s.books[a.req], a.op)
      && (a.op.Enter? && a.op.gate != Unsent ==>
            var id := s.books[a.req][a.op.k].u.id;
            a.op.gate == Admitted <==> CB.Acquire(cfg(id), BreakerOf(s, id), a.now).ok)
  }

  ghost function Step(cfg: Configs, s: Sys, a: Action): Sys
    requires Enabled(cfg, s, a)
  {
    match a
    case Evidence(id, now) => s.(breakers := s.breakers[id := CB.Report(cfg(id), BreakerOf(s, id), now)])
    case Act(r, op, now) =>
      var s1 := s.(books := s.books[r := Apply(s.books[r], op)]);
      (match op
       case Spawn(_) => s1
       case Enter(k, gate) =>
         var id := s.books[r][k].u.id;
         var adm := CB.Acquire(cfg(id), BreakerOf(s, id), now);
         (match gate
          case Unsent => s1
          case Refused => s1.(breakers := s.breakers[id := adm.state])
          case Admitted =>
            s1.(breakers := s.breakers[id := adm.state],
                tokens := s.tokens[(r, k) := adm.token],
                active := s.active[id := ActiveOf(s, id) + 1]))
       case Finish(k, reply) =>
         var id := s.books[r][k].u.id;
         if reply.Answered? then s1 else s1.(active := s.active[id := ActiveOf(s, id) - 1])
       case Close(k) =>
         var id := s.books[r][k].u.id;
         s1.(active := s.active[id := ActiveOf(s, id) - 1])
       case Settle(k, o) =>
         var id := s.books[r][k].u.id;
         s1.(breakers := s.breakers[id := CB.Settle(cfg(id), BreakerOf(s, id), TokenAt(s, r, k), o, now)]))
  }

  /** Every action of the run is enabled when its turn comes. */
  ghost predicate Runs(cfg: Configs, n: nat, run: seq<Action>)
    decreases |run|, 0
  {
    run == [] || (Runs(cfg, n, run[..|run| - 1]) && Enabled(cfg, After(cfg, n, run[..|run| - 1]), run[|run| - 1]))
  }

  ghost function After(cfg: Configs, n: nat, run: seq<Action>): Sys
    requires Runs(cfg, n, run)
    decreases |run|, 1
  {
    if run == [] then Start(n) else Step(cfg, After(cfg, n, run[..|run| - 1]), run[|run| - 1])
  }

  /** What one request did in the run. */
  function Project(run: seq<Action>, r: nat): Trace {
    if run == [] then []
    else
      var rest, a := Project(run[..|run| - 1], r), run[|run| - 1];
      if a.Act? && a.req == r then rest + [a.op] else rest
  }

  // ---------------------------------------------------------------------
  // Connection accounting
  // ---------------------------------------------------------------------

  ghost predicate Connected(a: Attempt, id: string) {
    a.u.id == id && (a.body == InFlight || a.body == Opened)
  }

  ghost function Connections(b: Book, id: string): nat {
    if b == [] then 0 else Connections(b[..|b| - 1], id) + (if Connected(b[|b| - 1], id) then 1 else 0)
  }

  ghost function TotalConnections(bs: seq<Book>, id: string): nat {
    if bs == [] then 0 else TotalConnections(bs[..|bs| - 1], id) + Connections(bs[|bs| - 1], id)
  }

  lemma {:induction false} ConnectionsUpdate(b: Book, k: nat, a: Attempt, id: string)
    requires k < |b|
    ensures Connections(b[k := a], id) ==
            Connections(b, id) - (if Connected(b[k], id) then 1 else 0) + (if Connected(a, id) then 1 else 0)
  {
    var n := |b| - 1;
    if k < n {
      ConnectionsUpdate(b[..n], k, a, id);
      assert b[k := a][..n] == b[..n][k := a];
    } else {
      assert b[k := a][..n] == b[..n];
    }
  }

  lemma {:induction false} TotalUpdate(bs: seq<Book>, r: nat, b: Book, id: string)
    requires r < |bs|
    ensures TotalConnections(bs[r := b], id) == TotalConnections(bs, id) - Connections(bs[r], id) + Connections(b, id)
  {
    var n := |bs| - 1;
    if r < n {
      TotalUpdate(bs[..n], r, b, id);
      assert bs[r := b][..n] == bs[..n][r := b];
    } else {
      assert bs[r := b][..n] == bs[..n];
    }
  }

  lemma {:induction false} QuietBookUnconnected(b: Book, id: string)
    requires AllQuiet(b)
    ensures Connections(b, id) == 0
  {
    if b != [] {
      assert forall k :: 0 <= k < |b| - 1 ==> b[..|b| - 1][k] == b[k];
      QuietBookUnconnected(b[..|b| - 1], id);
    }
  }

  lemma {:induction false} QuietBooksUnconnected(bs: seq<Book>, id: string)
    requires forall r :: 0 <= r < |bs| ==> AllQuiet(bs[r])
    ensures TotalConnections(bs, id) == 0
  {
    if bs != [] {
      QuietBooksUnconnected(bs[..|bs| - 1], id);
      QuietBookUnconnected(bs[|bs| - 1], id);
    }
  }

  lemma {:induction false} EmptyBooksUnconnected(n: nat, id: string)
    ensures TotalConnections(seq(n, _ => []), id) == 0
  {
    QuietBooksUnconnected(seq(n, _ => []), id);
  }

  /** The active counter is the number of attempts in flight or with an open body. */
  ghost predicate Counted(s: Sys, id: string) {
    ActiveOf(s, id) == TotalConnections(s.books, id)
  }

  /** How much an operation changes the connections of one upstream. */
  ghost function Change(b: Book, op: Op, id: string): int
    requires Allowed(b, op)
  {
    match op
    case Enter(k, gate) => if gate == Admitted && b[k].u.id == id then 1 else 0
    case Finish(k, reply) => if reply.Answered? || b[k].u.id != id then 0 else -1
    case Close(k) => if b[k].u.id == id then -1 else 0
    case _ => 0
  }

  lemma ApplyConnections(b: Book, op: Op, id: string)
    requires Allowed(b, op)
    ensures Connections(Apply(b, op), id) == Connections(b, id) + Change(b, op, id)
  {
    match op
    case Spawn(u) => assert Apply(b, op)[..|b|] == b;
    case Enter(k, _) => ConnectionsUpdate(b, k, Apply(b, op)[k], id);
    case Finish(k, _) => ConnectionsUpdate(b, k, Apply(b, op)[k], id);
    case Close(k) => ConnectionsUpdate(b, k, Apply(b, op)[k], id);
    case Settle(k, _) =>
      ConnectionsUpdate(b, k, Apply(b, op)[k], id);
      assert b[k := Apply(b, op)[k]] == Apply(b, op);
  }

  lemma StepCounts(cfg: Configs, s: Sys, a: Action, id: string)
    requires Enabled(cfg, s, a) && Counted(s, id)
    ensures Counted(Step(cfg, s, a), id)
  {
    if a.Act? {
      var b := s.books[a.req];
      TotalUpdate(s.books, a.req, Apply(b, a.op), id);
      ApplyConnections(b, a.op, id);
      assert ActiveOf(Step(cfg, s, a), id) == ActiveOf(s, id) + Change(b, a.op, id);
    }
  }

  // ---------------------------------------------------------------------
  // Probe ownership
  // ---------------------------------------------------------------------

  ghost predicate IsAttempt(s: Sys, r: nat, k: nat) {
    r < |s.books| && k < |s.books[r]|
  }

  /** Attempt `k` of request `r` holds the unsettled, newest probe of `id`. */
  ghost predicate Owner(s: Sys, id: string, r: nat, k: nat) {
    && IsAttempt(s, r, k)
    && s.books[r][k].u.id == id
    && s.books[r][k].token == Held
    && var t := TokenAt(s, r, k); t.Token? && t.probe && t.gen == BreakerOf(s, id).probeGen
  }

  ghost predicate HasProbe(s: Sys, id: string, r: nat, k: nat) {
    && IsAttempt(s, r, k)
    && s.books[r][k].u.id == id
    && TokenAt(s, r, k).Token?
    && TokenAt(s, r, k).probe
  }

  /** The flag says whether somebody owns the probe, and any unsettled probe is that one. */
  ghost predicate ProbeOwned(s: Sys, id: string) {
    var b := BreakerOf(s, id);
    && (b.probeInFlight ==> b.phase == CB.HalfOpen)
    && (b.probeInFlight ==> exists r: nat, k: nat :: Owner(s, id, r, k))
    && (forall r: nat, k: nat :: HasProbe(s, id, r, k) ==> TokenAt(s, r, k).gen <= b.probeGen)
    && (forall r: nat, k: nat :: HasProbe(s, id, r, k) && s.books[r][k].token == Held ==> b.probeInFlight && Owner(s, id, r, k))
    && (forall r: nat, k: nat, r': nat, k': nat ::
          HasProbe(s, id, r, k) && HasProbe(s, id, r', k') && TokenAt(s, r, k).gen == TokenAt(s, r', k').gen ==> r == r' && k == k')
  }

  /** A token is on record only for an attempt that was admitted. */
  ghost predicate Recorded(s: Sys) {
    forall r: nat, k: nat {:trigger TokenAt(s, r, k)} ::
      TokenAt(s, r, k).Token? ==> IsAttempt(s, r, k) && s.books[r][k].body != Waiting && s.books[r][k].token != NoToken
  }

  lemma StepRecorded(cfg: Configs, s: Sys, a: Action)
    requires Enabled(cfg, s, a) && Recorded(s)
    ensures Recorded(Step(cfg, s, a))
  {
    var s' := Step(cfg, s, a);
    forall r: nat, k: nat | TokenAt(s', r, k).Token?
      ensures IsAttempt(s', r, k) && s'.books[r][k].body != Waiting && s'.books[r][k].token != NoToken
    {
      assert TokenAt(s, r, k).Token? || (a.Act? && a.op.Enter? && a.req == r && a.op.k == k);
    }
  }

  /** Nothing about the probe of `id` moved. */
  lemma OwnershipUnmoved(s: Sys, s': Sys, id: string)
    requires ProbeOwned(s, id)
    requires var b, b' := BreakerOf(s, id), BreakerOf(s', id);
             && b'.probeInFlight == b.probeInFlight && b'.probeGen == b.probeGen
             && (b'.probeInFlight ==> b'.phase == CB.HalfOpen)
    requires forall r: nat, k: nat :: HasProbe(s', id, r, k) <==> HasProbe(s, id, r, k)
    requires forall r: nat, k: nat :: HasProbe(s, id, r, k) && HasProbe(s', id, r, k) ==>
               TokenAt(s', r, k) == TokenAt(s, r, k) && (s'.books[r][k].token == Held <==> s.books[r][k].token == Held)
    ensures ProbeOwned(s', id)
  {
    if BreakerOf(s', id).probeInFlight {
      var r: nat, k: nat :| Owner(s, id, r, k);
      assert HasProbe(s, id, r, k);
      assert Owner(s', id, r, k);
    }
  }

  ghost predicate GrantsProbe(cfg: Configs, s: Sys, a: Action, id: string)
    requires Enabled(cfg, s, a) && a.Act? && a.op.Enter?
  {
    && s.books[a.req][a.op.k].u.id == id
    && a.op.gate == Admitted
    && CB.Acquire(cfg(id), BreakerOf(s, id), a.now).token.Token?
    && CB.Acquire(cfg(id), BreakerOf(s, id), a.now).token.probe
  }

  lemma GrantOwns(cfg: Configs, s: Sys, a: Action, id: string)
    requires Enabled(cfg, s, a) && a.Act? && a.op.Enter? && Recorded(s) && ProbeOwned(s, id) && GrantsProbe(cfg, s, a, id)
    ensures ProbeOwned(Step(cfg, s, a), id)
  {
    var s' := Step(cfg, s, a);
    var r0, k0 := a.req, a.op.k;
    assert Owner(s', id, r0, k0);
    forall r: nat, k: nat | HasProbe(s', id, r, k)
      ensures (r, k) == (r0, k0) ||
              (HasProbe(s, id, r, k) && s.books[r][k].token != Held && TokenAt(s', r, k).gen <= BreakerOf(s, id).probeGen)
    {
    }
  }

  lemma PlainEnterOwns(cfg: Configs, s: Sys, a: Action, id: string)
    requires Enabled(cfg, s, a) && a.Act? && a.op.Enter? && Recorded(s) && ProbeOwned(s, id) && !GrantsProbe(cfg, s, a, id)
    ensures ProbeOwned(Step(cfg, s, a), id)
  {
    var s' := Step(cfg, s, a);
    forall r: nat, k: nat ensures HasProbe(s', id, r, k) <==> HasProbe(s, id, r, k) {
    }
    OwnershipUnmoved(s, s', id);
  }

  lemma EnterOwns(cfg: Configs, s: Sys, a: Action, id: string)
    requires Enabled(cfg, s, a) && a.Act? && a.op.Enter? && Recorded(s) && ProbeOwned(s, id)
    ensures ProbeOwned(Step(cfg, s, a), id)
  {
    if GrantsProbe(cfg, s, a, id) {
      GrantOwns(cfg, s, a, id);
    } else {
      PlainEnterOwns(cfg, s, a, id);
    }
  }

  lemma SettleOwns(cfg: Configs, s: Sys, a: Action, id: string)
    requires Enabled(cfg, s, a) && a.Act? && a.op.Settle? && Recorded(s) && ProbeOwned(s, id)
    ensures ProbeOwned(Step(cfg, s, a), id)
  {
    var s' := Step(cfg, s, a);
    var r0, k0 := a.req, a.op.k;
    var b := BreakerOf(s, id);
    var t := TokenAt(s, r0, k0);
    assert forall r: nat, k: nat :: IsAttempt(s', r, k) <==> IsAttempt(s, r, k);
    assert forall r: nat, k: nat :: IsAttempt(s, r, k) ==>
             s'.books[r][k].u == s.books[r][k].u && TokenAt(s', r, k) == TokenAt(s, r, k)
             && ((r, k) != (r0, k0) ==> s'.books[r][k] == s.books[r][k]);
    forall r: nat, k: nat ensures HasProbe(s', id, r, k) <==> HasProbe(s, id, r, k) {
    }
    if HasProbe(s, id, r0, k0) {
      assert s.books[r0][k0].token == Held;
      forall r: nat, k: nat | HasProbe(s', id, r, k) ensures s'.books[r][k].token != Held {
        if s.books[r][k].token == Held {
          assert Owner(s, id, r, k) && Owner(s, id, r0, k0);
        }
      }
    } else {
      OwnershipUnmoved(s, s', id);
    }
  }

  lemma OtherOwns(cfg: Configs, s: Sys, a: Action, id: string)
    requires Enabled(cfg, s, a) && Recorded(s) && ProbeOwned(s, id)
    requires a.Evidence? || a.op.Spawn? || a.op.Finish? || a.op.Close?
    ensures ProbeOwned(Step(cfg, s, a), id)
  {
    var s' := Step(cfg, s, a);
    forall r: nat, k: nat ensures HasProbe(s', id, r, k) <==> HasProbe(s, id, r, k) {
      assert TokenAt(s', r, k) == TokenAt(s, r, k);
      if a.Act? && a.op.Spawn? && a.req == r && k == |s.books[r]| {
        assert !TokenAt(s, r, k).Token?;
      }
    }
    OwnershipUnmoved(s, s', id);
  }

  // ---------------------------------------------------------------------
  // Over whole runs
  // ---------------------------------------------------------------------

  /** At every moment of every run the books explain the counters and the probe flags. */
  lemma {:induction false} BooksExplainBreakers(cfg: Configs, n: nat, run: seq<Action>, id: string)
    requires Runs(cfg, n, run)
    ensures var s := After(cfg, n, run); Recorded(s) && ProbeOwned(s, id) && Counted(s, id)
    decreases |run|
  {
    if run == [] {
      EmptyBooksUnconnected(n, id);
    } else {
      var s, a := After(cfg, n, run[..|run| - 1]), run[|run| - 1];
      BooksExplainBreakers(cfg, n, run[..|run| - 1], id);
      StepRecorded(cfg, s, a);
      StepCounts(cfg, s, a, id);
      if a.Act? && a.op.Enter? {
        EnterOwns(cfg, s, a, id);
      } else if a.Act? && a.op.Settle? {
        SettleOwns(cfg, s, a, id);
      } else {
        OtherOwns(cfg, s, a, id);
      }
    }
  }

  /** The probe flag is up exactly when one attempt of one request owns the live probe, and never two. */
  lemma ProbeHasOneOwner(cfg: Configs, n: nat, run: seq<Action>, id: string)
    requires Runs(cfg, n, run)
    ensures var s := After(cfg, n, run);
            && (BreakerOf(s, id).probeInFlight <==> exists r: nat, k: nat :: Owner(s, id, r, k))
            && (forall r: nat, k: nat, r': nat, k': nat :: Owner(s, id, r, k) && Owner(s, id, r', k') ==> r == r' && k == k')
  {
    BooksExplainBreakers(cfg, n, run, id);
    var s := After(cfg, n, run);
    assert forall r: nat, k: nat :: Owner(s, id, r, k) ==> HasProbe(s, id, r, k);
  }

  /** Each request's books are what its own trace plays to. */
  lemma {:induction false} BooksFollowTraces(cfg: Configs, n: nat, run: seq<Action>, r: nat)
    requires Runs(cfg, n, run) && r < n
    ensures |After(cfg, n, run).books| == n
    ensures Follows(Project(run, r)) && After(cfg, n, run).books[r] == Play(Project(run, r))
    decreases |run|
  {
    if run != [] {
      BooksFollowTraces(cfg, n, run[..|run| - 1], r);
      var t, a := Project(run[..|run| - 1], r), run[|run| - 1];
      if a.Act? && a.req == r {
        var t' := Log(t, a.op);
        assert t' == Project(run, r);
      }
    }
  }

  /** When every request has played a trace that leaves nothing owed, no probe is stranded and no connection counted. */
  lemma NothingStranded(cfg: Configs, n: nat, run: seq<Action>, id: string)
    requires Runs(cfg, n, run)
    requires forall r: nat :: r < n ==> Follows(Project(run, r)) && AllQuiet(Play(Project(run, r)))
    ensures var s := After(cfg, n, run); !BreakerOf(s, id).probeInFlight && ActiveOf(s, id) == 0
  {
    BooksExplainBreakers(cfg, n, run, id);
    var s := After(cfg, n, run);
    BooksCount(cfg, n, run);
    forall r: nat | r < n ensures AllQuiet(s.books[r]) {
      BooksFollowTraces(cfg, n, run, r);
    }
    QuietBooksUnconnected(s.books, id);
  }

  lemma {:induction false} BooksCount(cfg: Configs, n: nat, run: seq<Action>)
    requires Runs(cfg, n, run)
    ensures |After(cfg, n, run).books| == n
    decreases |run|
  {
    if run != [] {
      BooksCount(cfg, n, run[..|run| - 1]);
    }
  }
}
