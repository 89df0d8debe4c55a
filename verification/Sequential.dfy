/**
 The sequential retry loop. Promotion replaces the rest of its candidate list, so
 the loop is written in two parts: over the first candidates, and over the archive
 candidates that follow them.
 */
module Sequential {
  import opened Options
  import opened Selection
  import opened PoolOrder
  import opened Ledger
  import opened Dispatch
  import CB = CircuitBreaker

  /**
   Each upstream is dispatched to at most once, at most maxAttempts + 1 times in
   all, promotion happens at most once, and after it (or under proactive
   routing) only archive upstreams are used. Every attempt is closed and settled
   as its reply deserves, except the one returned, which is the last one and the
   only answer below 500 besides the one promotion gave up. Promotion happens
   exactly if a pruned answer comes in, the pool has archive upstreams and routing
   was not proactive. The answer it gives up is gone for good: the dispatch then
   fails exactly if no later attempt answers below 500.
   */
  ghost predicate SequentialResult(pool: seq<Upstream>, requiresArchive: bool, maxAttempts: nat, b: Book, ret: Return, promoted: Option<nat>) {
    && Accounted(b, ret)
    && DistinctAttempts(b)
    && (forall k :: 0 <= k < |b| ==> b[k].u in pool)
    && |b| <= maxAttempts + 1
    && (|b| == maxAttempts + 1 ==> promoted == Some(maxAttempts - 1))
    && (requiresArchive && HasArchive(pool) ==> promoted == None && forall k :: 0 <= k < |b| ==> b[k].u.archive)
    && (promoted.Some? <==> HasArchive(pool) && !requiresArchive && exists k :: 0 <= k < |b| && GotPruned(b[k]))
    && (promoted.Some? ==> promoted.value < |b| && GotPruned(b[promoted.value]))
    && (promoted.Some? ==> forall k :: promoted.value < k < |b| ==> b[k].u.archive)
    && (promoted.Some? ==> Done(b[promoted.value]))
    && (promoted.Some? ==> (ret == Error <==> forall k :: promoted.value < k < |b| ==> !Succeeded(b[k])))
    && (forall k :: 0 <= k < |b| && !(ret.Returned? && ret.k == k) ==> Done(b[k]))
    && (ret.Returned? ==> ret == Returned(|b| - 1, true, true) && Succeeded(b[ret.k]))
    && (ret.Returned? && GotPruned(b[ret.k]) ==> promoted.Some? || requiresArchive || !HasArchive(pool))
    && (forall k :: 0 <= k < |b| && Succeeded(b[k]) ==> (ret.Returned? && ret.k == k) || promoted == Some(k))
  }

  // ---------------------------------------------------------------------
  // Which upstreams are attempted, and in which order
  // ---------------------------------------------------------------------

  /** What the first candidates were chosen from: statuses, head reporters, forks and readiness at that moment. */
  datatype Choice = Choice(ctx: Context, seen: set<string>, forked: set<string>, ready: set<string>, sel: seq<Upstream>)

  /** The first candidates and, once promoted, the archive candidates that replace the rest of them. */
  datatype Plan = Plan(first: seq<Upstream>, choice: Choice, archive: seq<Upstream>, archiveCtx: Context)

  ghost predicate ChosenFirst(pool: seq<Upstream>, proactive: bool, preferHead: bool, prefer: string, maxAttempts: nat, c: Choice, first: seq<Upstream>) {
    && (if proactive then Picked(Archives(pool), c.ctx, false, {}, maxAttempts, c.sel)
        else Picked(pool, c.ctx, preferHead, c.seen, maxAttempts, c.sel))
    && Fronted(pool, c.sel, prefer, maxAttempts, c.forked, c.ready, first)
    && (pool != [] ==> first != [])
    && Distinct(first)
  }

  /** The budget that is left for archive upstreams when attempt `p` is given up. */
  function Remaining(maxAttempts: nat, p: nat): nat {
    if maxAttempts - (p + 1) > 1 then maxAttempts - (p + 1) else 1
  }

  ghost predicate ArchiveOk(pool: seq<Upstream>, n: nat, archive: seq<Upstream>) {
    archive != [] && |archive| <= n && Distinct(archive) && forall u :: u in archive ==> u in pool && u.archive
  }

  /** The archive candidates of a promotion at attempt `p`. */
  ghost predicate ChosenArchive(pool: seq<Upstream>, maxAttempts: nat, p: nat, plan: Plan) {
    var n := if maxAttempts <= p + 1 then 1 else maxAttempts - p - 1;
    && ArchiveOk(pool, n, plan.archive)
    && Picked(Archives(pool), plan.archiveCtx, false, {}, n, plan.archive)
  }

  /** All that may be attempted: the first candidates or, after promotion at `p`, those up to it and the archive ones not among them. */
  ghost function FullRoute(promoted: Option<nat>, plan: Plan): seq<Upstream>
    requires promoted.Some? ==> promoted.value < |plan.first|
  {
    match promoted
    case None => plan.first
    case Some(p) => plan.first[..p + 1] + Untried(plan.archive, Ids(plan.first[..p + 1]))
  }

  /** Done, uncancelled, and nothing sent after a wait during which the client left. */
  ghost predicate Clean(b: Book, retry: bool, left: nat -> bool) {
    && AllDone(b, |b|)
    && (forall k :: 0 <= k < |b| ==> !Cancelled(b[k]))
    && (retry ==> forall k :: 0 < k < |b| ==> !left(k))
  }

  /**
   The route is followed in order and, unless the client is gone, to its end before
   the client gets an error. Nothing is sent after a cancelled attempt or after a
   wait during which the client left.
   */
  ghost predicate Pursued(b: Book, ret: Return, route: seq<Upstream>, retry: bool, left: nat -> bool, gone: bool) {
    && Line(b) <= route
    && (!gone && ret == Error ==> Line(b) == route)
    && (gone ==> ret == Error && b != [] && (Cancelled(b[|b| - 1]) || (retry && left(|b|))))
    && (b != [] && Cancelled(b[|b| - 1]) ==> gone)
    && (forall k :: 0 <= k < |b| - 1 ==> !Cancelled(b[k]))
    && (retry ==> forall k :: 0 < k < |b| ==> !left(k))
  }

  /** From attempt `from` on: done but for the one returned, which is the last and the only answer below 500. */
  ghost predicate Concluded(b: Book, ret: Return, from: nat) {
    && (forall k :: 0 <= k < |b| && !(ret.Returned? && ret.k == k) ==> Done(b[k]))
    && (forall k :: from <= k < |b| && Succeeded(b[k]) ==> ret.Returned? && ret.k == k)
    && (ret.Returned? ==>
          && from < |b| && ret == Returned(|b| - 1, true, true)
          && b[ret.k].token == Held && b[ret.k].body == Opened && Succeeded(b[ret.k]))
  }

  /** What the dispatch leaves behind, in terms of its candidate lists. */
  ghost predicate Outcome(pool: seq<Upstream>, requiresArchive: bool, maxAttempts: nat, retry: bool, left: nat -> bool,
                          b: Book, ret: Return, promoted: Option<nat>, gone: bool, plan: Plan) {
    match promoted
    case None =>
      && Pursued(b, ret, plan.first, retry, left, gone)
      && Concluded(b, ret, 0)
      && (ret.Returned? && GotPruned(b[ret.k]) ==> requiresArchive || !HasArchive(pool))
    case Some(p) =>
      && HasArchive(pool) && !requiresArchive
      && ChosenArchive(pool, maxAttempts, p, plan)
      && GivenUp(b, p, ret, plan, retry, left, gone)
  }

  /** The first candidates up to `p`, whose pruned answer is given up, then the archive ones. */
  ghost predicate GivenUp(b: Book, p: nat, ret: Return, plan: Plan, retry: bool, left: nat -> bool, gone: bool) {
    && p < |plan.first| && p < |b| && GotPruned(b[p]) && (forall k :: 0 <= k < p ==> !Succeeded(b[k]))
    && Pursued(b, ret, FullRoute(Some(p), plan), retry, left, gone)
    && Concluded(b, ret, p + 1)
  }

  ghost predicate FirstOk(pool: seq<Upstream>, requiresArchive: bool, maxAttempts: nat, first: seq<Upstream>) {
    Distinct(first) && |first| <= maxAttempts && forall u :: u in first ==> u in pool && (HasArchive(pool) && requiresArchive ==> u.archive)
  }

  lemma {:induction false} UntriedMembers(ups: seq<Upstream>, tried: set<string>)
    requires Distinct(ups)
    ensures Distinct(Untried(ups, tried)) && |Untried(ups, tried)| <= |ups|
    ensures forall u :: u in Untried(ups, tried) ==> u in ups && u.id !in tried
  {
    KeepDistinct(ups, Fresh(tried));
  }

  lemma IdsSnoc(ups: seq<Upstream>, i: nat)
    requires i < |ups|
    ensures Ids(ups[..i + 1]) == Ids(ups[..i]) + {ups[i].id}
  {
    assert ups[..i + 1] == ups[..i] + [ups[i]];
  }

  /** In a list without repeats an upstream is not among the ones before it. */
  lemma NotBefore(ups: seq<Upstream>, i: nat)
    requires Distinct(ups) && i < |ups|
    ensures ups[i].id !in Ids(ups[..i])
  {
  }

  lemma IdsConcat(a: seq<Upstream>, b: seq<Upstream>)
    ensures Ids(a + b) == Ids(a) + Ids(b)
  {
  }

  /** The route never visits an upstream twice, and keeps to the budget. */
  lemma RouteOk(pool: seq<Upstream>, maxAttempts: nat, p: nat, plan: Plan)
    requires FirstOk(pool, false, maxAttempts, plan.first) && p < |plan.first| && ArchiveOk(pool, Remaining(maxAttempts, p), plan.archive)
    ensures var route := FullRoute(Some(p), plan);
            && Distinct(route)
            && (forall k :: 0 <= k < |route| ==> route[k] in pool)
            && |route| <= maxAttempts + 1
            && (|route| == maxAttempts + 1 ==> p == maxAttempts - 1)
            && (forall k :: p < k < |route| ==> route[k].archive)
  {
    var head := plan.first[..p + 1];
    var rest := Untried(plan.archive, Ids(head));
    UntriedMembers(plan.archive, Ids(head));
    forall i, j | 0 <= i < |head| && 0 <= j < |rest| ensures head[i].id != rest[j].id {
      assert head[i] in head && rest[j] in rest;
    }
    forall k | p < k < |head + rest| ensures (head + rest)[k] in plan.archive {
      assert rest[k - |head|] in rest;
    }
  }

  lemma OnLine(b: Book, route: seq<Upstream>, k: nat)
    requires Line(b) <= route && k < |b|
    ensures k < |route| && b[k].u == route[k]
  {
    assert Line(b)[k] == route[k];
  }

  /** Which upstreams the attempts went to. */
  ghost predicate Spread(pool: seq<Upstream>, requiresArchive: bool, maxAttempts: nat, b: Book, promoted: Option<nat>) {
    && DistinctAttempts(b)
    && (forall k :: 0 <= k < |b| ==> b[k].u in pool)
    && |b| <= maxAttempts + 1
    && (|b| == maxAttempts + 1 ==> promoted == Some(maxAttempts - 1))
    && (requiresArchive && HasArchive(pool) ==> promoted == None && forall k :: 0 <= k < |b| ==> b[k].u.archive)
    && (promoted.Some? ==> forall k :: promoted.value < k < |b| ==> b[k].u.archive)
  }

  lemma SpreadFirst(pool: seq<Upstream>, requiresArchive: bool, maxAttempts: nat, b: Book, first: seq<Upstream>)
    requires FirstOk(pool, requiresArchive, maxAttempts, first) && Line(b) <= first
    ensures Spread(pool, requiresArchive, maxAttempts, b, None)
  {
    LineDistinct(b, first);
    forall k | 0 <= k < |b| ensures b[k].u in first {
      OnLine(b, first, k);
      assert first[k] in first;
    }
  }

  lemma SpreadPromoted(pool: seq<Upstream>, requiresArchive: bool, maxAttempts: nat, b: Book, p: nat, plan: Plan)
    requires FirstOk(pool, requiresArchive, maxAttempts, plan.first) && HasArchive(pool) && !requiresArchive
    requires p < |plan.first| && ArchiveOk(pool, Remaining(maxAttempts, p), plan.archive) && Line(b) <= FullRoute(Some(p), plan)
    ensures Spread(pool, requiresArchive, maxAttempts, b, Some(p))
  {
    var route := FullRoute(Some(p), plan);
    RouteOk(pool, maxAttempts, p, plan);
    LineDistinct(b, route);
    forall k | 0 <= k < |b| ensures k < |route| && b[k].u == route[k] {
      OnLine(b, route, k);
    }
  }

  lemma ResultFirst(pool: seq<Upstream>, requiresArchive: bool, maxAttempts: nat, b: Book, ret: Return)
    requires Spread(pool, requiresArchive, maxAttempts, b, None) && Concluded(b, ret, 0)
    requires ret.Returned? && GotPruned(b[ret.k]) ==> requiresArchive || !HasArchive(pool)
    ensures SequentialResult(pool, requiresArchive, maxAttempts, b, ret, None)
  {
  }

  lemma ResultPromoted(pool: seq<Upstream>, requiresArchive: bool, maxAttempts: nat, b: Book, ret: Return, p: nat)
    requires Spread(pool, requiresArchive, maxAttempts, b, Some(p)) && Concluded(b, ret, p + 1) && HasArchive(pool) && !requiresArchive
    requires p < |b| && GotPruned(b[p]) && forall k :: 0 <= k < p ==> !Succeeded(b[k])
    ensures SequentialResult(pool, requiresArchive, maxAttempts, b, ret, Some(p))
  {
  }

  lemma ResultHolds(pool: seq<Upstream>, requiresArchive: bool, maxAttempts: nat, retry: bool, left: nat -> bool,
                    b: Book, ret: Return, promoted: Option<nat>, gone: bool, plan: Plan)
    requires FirstOk(pool, requiresArchive, maxAttempts, plan.first)
    requires Outcome(pool, requiresArchive, maxAttempts, retry, left, b, ret, promoted, gone, plan)
    ensures SequentialResult(pool, requiresArchive, maxAttempts, b, ret, promoted)
  {
    if promoted == None {
      SpreadFirst(pool, requiresArchive, maxAttempts, b, plan.first);
      ResultFirst(pool, requiresArchive, maxAttempts, b, ret);
    } else {
      SpreadPromoted(pool, requiresArchive, maxAttempts, b, promoted.value, plan);
      ResultPromoted(pool, requiresArchive, maxAttempts, b, ret, promoted.value);
    }
  }

  lemma LineDistinct(b: Book, route: seq<Upstream>)
    requires Line(b) <= route && Distinct(route)
    ensures DistinctAttempts(b)
  {
    forall i, j | 0 <= i < j < |b| ensures b[i].u.id != b[j].u.id {
      OnLine(b, route, i);
      OnLine(b, route, j);
    }
  }

  // ---------------------------------------------------------------------
  // The loop
  // ---------------------------------------------------------------------

  /** What one attempt leads to: promotion, the result, or the next candidate. */
  ghost predicate Led(pool: seq<Upstream>, requiresArchive: bool, maxAttempts: nat, i: nat, archiveBiased: bool, promote: bool, plan: Plan, plan': Plan,
                      a: Attempt, ret: Option<Return>) {
    if promote then
      && ret == None && !archiveBiased && HasArchive(pool)
      && Done(a) && GotPruned(a)
      && plan' == plan.(archive := plan'.archive, archiveCtx := plan'.archiveCtx)
      && ChosenArchive(pool, maxAttempts, i, plan')
    else
      && plan' == plan
      && (Succeeded(a) <==> ret.Some? && ret.value.Returned?)
      && (Cancelled(a) <==> ret == Some(Error))
      && (Succeeded(a) ==> a.token == Held && a.body == Opened && (GotPruned(a) ==> archiveBiased || !HasArchive(pool)))
      && (!Succeeded(a) ==> Done(a))
  }

  /** Gives up a pruned answer for the archive upstreams, if there are any. */
  method TryPromote(pool: seq<Upstream>, maxAttempts: nat, i: nat, t: Trace, ghost b: Book, u: Upstream, res: Result, ghost plan: Plan)
    returns (t': Trace, ok: bool, archiveUps: seq<Upstream>, ghost plan': Plan)
    requires Distinct(pool) && Follows(t) && Play(t) == b + [Landed(u, res)]
    requires res.Response? && res.status < 500 && res.pruned
    ensures ok <==> HasArchive(pool)
    ensures !ok ==> t' == t
    ensures ok ==> Follows(t') && Play(t') == b + [Landed(u, res).(body := Shut, token := Settled(CB.Release))]
    ensures ok ==> plan' == plan.(archive := archiveUps, archiveCtx := plan'.archiveCtx) && ChosenArchive(pool, maxAttempts, i, plan')
  {
    t', ok, archiveUps, plan' := t, false, [], plan;
    if HasArchive(pool) {
      var ctx: Context := *;
      archiveUps := SelectArchive(pool, ctx, Remaining(maxAttempts, i));
      if |archiveUps| > 0 {
        t' := CloseAndSettle(t, CountSpawns(t) - 1, CB.Release);
        plan' := plan.(archive := archiveUps, archiveCtx := ctx);
        ok := true;
      }
    }
  }

  /** One turn of the loop on an upstream not tried before: one attempt, and what it leads to. */
  method Turn(pool: seq<Upstream>, ghost requiresArchive: bool, maxAttempts: nat, u: Upstream, i: nat, t: Trace, archiveBiased: bool, ghost plan: Plan)
    returns (t': Trace, promote: bool, archiveUps: seq<Upstream>, ret: Option<Return>, ghost plan': Plan, ghost a: Attempt)
    requires Distinct(pool) && Follows(t)
    ensures Follows(t') && Play(t') == Play(t) + [a] && a.u == u
    ensures Led(pool, requiresArchive, maxAttempts, i, archiveBiased, promote, plan, plan', a, ret)
    ensures promote ==> plan'.archive == archiveUps
    ensures ret.Some? ==> ret.value == Error || ret.value == Returned(|Play(t)|, true, true)
  {
    promote, archiveUps, ret, plan' := false, [], None, plan;
    ghost var b := Play(t);
    var k := CountSpawns(t);
    var res;
    t', res := Forward(t, u);
    a := Landed(u, res);
    if res.Response? && res.status < 500 {
      if !archiveBiased && res.pruned {
        t', promote, archiveUps, plan' := TryPromote(pool, maxAttempts, i, t', b, u, res, plan);
        if promote {
          a := Landed(u, res).(body := Shut, token := Settled(CB.Release));
          return;
        }
        plan' := plan;
      }
      ret := Some(Returned(k, true, true));
      return;
    }
    t' := WriteOff(t', u, res);
    a := Written(u, res);
    assert Play(t') == b + [a];
    if res == Failed(true) {
      ret := Some(Error);
    }
  }

  lemma LineSnoc(b: Book, a: Attempt)
    ensures Line(b + [a]) == Line(b) + [a.u]
  {
  }

  /** An attempt that ends the dispatch: the answer is handed over, or the client is gone. */
  lemma EndsWith(pool: seq<Upstream>, requiresArchive: bool, maxAttempts: nat, retry: bool, left: nat -> bool, i: nat, archiveBiased: bool,
                 b: Book, route: seq<Upstream>, from: nat, plan: Plan, a: Attempt, ret: Return)
    requires Clean(b, retry, left) && from <= |b| && (forall k :: from <= k < |b| ==> !Succeeded(b[k])) && (retry && b != [] ==> !left(|b|))
    requires Led(pool, requiresArchive, maxAttempts, i, archiveBiased, false, plan, plan, a, Some(ret))
    requires ret == Error || ret == Returned(|b|, true, true)
    requires Line(b) + [a.u] <= route
    ensures Pursued(b + [a], ret, route, retry, left, ret == Error) && Concluded(b + [a], ret, from)
  {
    LineSnoc(b, a);
  }

  lemma CleanSnoc(b: Book, a: Attempt, retry: bool, left: nat -> bool)
    requires Clean(b, retry, left) && Done(a) && !Cancelled(a) && (retry && b != [] ==> !left(|b|))
    ensures Clean(b + [a], retry, left)
  {
  }

  /** The first `i` candidates were tried and none answered. */
  ghost predicate FirstInv(b: Book, first: seq<Upstream>, i: nat, retry: bool, left: nat -> bool) {
    i <= |first| && Line(b) == first[..i] && Clean(b, retry, left) && forall k :: 0 <= k < |b| ==> !Succeeded(b[k])
  }

  /** The first candidates up to `p` were tried, and the answer of that one was given up. */
  ghost predicate PromotedAt(pool: seq<Upstream>, requiresArchive: bool, maxAttempts: nat, b: Book, p: nat, retry: bool, left: nat -> bool, plan: Plan) {
    && p < |plan.first| && Line(b) == plan.first[..p + 1] && Clean(b, retry, left)
    && GotPruned(b[p]) && (forall k :: 0 <= k < p ==> !Succeeded(b[k]))
    && HasArchive(pool) && !requiresArchive && ChosenArchive(pool, maxAttempts, p, plan)
  }

  lemma FirstGoesOn(b: Book, first: seq<Upstream>, i: nat, retry: bool, left: nat -> bool, a: Attempt)
    requires FirstInv(b, first, i, retry, left) && i < |first| && a.u == first[i] && (retry && i > 0 ==> !left(i))
    requires Done(a) && !Cancelled(a)
    ensures |b| == i && Line(b + [a]) == first[..i + 1] && Clean(b + [a], retry, left)
    ensures !Succeeded(a) ==> FirstInv(b + [a], first, i + 1, retry, left)
  {
    assert |Line(b)| == i;
    LineSnoc(b, a);
    CleanSnoc(b, a, retry, left);
  }

  /** One of the first candidates. */
  method FirstTurn(pool: seq<Upstream>, requiresArchive: bool, maxAttempts: nat, retry: bool, left: nat -> bool, t: Trace, i: nat, u: Upstream, ghost plan: Plan)
    returns (t': Trace, promote: bool, archiveUps: seq<Upstream>, ret: Option<Return>, ghost plan': Plan)
    requires Distinct(pool) && Follows(t) && FirstInv(Play(t), plan.first, i, retry, left) && i < |plan.first| && u == plan.first[i]
    ensures Follows(t') && (promote ==> ret == None) && (!promote ==> plan' == plan) && plan'.first == plan.first && plan'.choice == plan.choice
    ensures !promote && ret == None ==> FirstInv(Play(t'), plan.first, i + 1, retry, left)
    ensures promote ==> PromotedAt(pool, requiresArchive, maxAttempts, Play(t'), i, retry, left, plan') && plan'.archive == archiveUps
    ensures ret.Some? ==> Outcome(pool, requiresArchive, maxAttempts, retry, left, Play(t'), ret.value, None, ret.value == Error, plan)
  {
    t', promote, archiveUps, ret, plan' := t, false, [], None, plan;
    ghost var b := Play(t);
    assert |Line(b)| == i;
    if i > 0 && retry && left(CountSpawns(t)) {
      ret := Some(Error);
      return;
    }
    ghost var a;
    var archiveBiased := HasArchive(pool) && requiresArchive;
    t', promote, archiveUps, ret, plan', a := Turn(pool, requiresArchive, maxAttempts, u, i, t, archiveBiased, plan);
    if ret.Some? {
      EndsWith(pool, requiresArchive, maxAttempts, retry, left, i, archiveBiased, b, plan.first, 0, plan, a, ret.value);
    } else {
      FirstGoesOn(b, plan.first, i, retry, left, a);
    }
  }

  /** The loop over the first candidates, up to the result or to promotion. */
  method PursueFirst(pool: seq<Upstream>, requiresArchive: bool, maxAttempts: nat, retry: bool, left: nat -> bool, first: seq<Upstream>, ghost start: Plan)
    returns (t: Trace, ret: Return, gone: bool, promoted: Option<nat>, archiveUps: seq<Upstream>, tried: set<string>, ghost plan: Plan)
    requires Distinct(pool) && Distinct(first) && start.first == first
    ensures Follows(t) && plan.first == first && plan.choice == start.choice
    ensures promoted == None ==> Outcome(pool, requiresArchive, maxAttempts, retry, left, Play(t), ret, None, gone, plan)
    ensures promoted.Some? ==>
              && PromotedAt(pool, requiresArchive, maxAttempts, Play(t), promoted.value, retry, left, plan)
              && plan.archive == archiveUps && tried == Ids(first[..promoted.value + 1])
  {
    t, ret, gone, promoted, archiveUps, tried, plan := [], Error, false, None, [], {}, start;
    assert Line([]) == [];
    for i := 0 to |first|
      invariant Follows(t) && FirstInv(Play(t), first, i, retry, left) && tried == Ids(first[..i]) && plan == start
    {
      NotBefore(first, i);
      IdsSnoc(first, i);
      if first[i].id in tried {
        assert false;  // the first candidates are free of repeats
      }
      tried := tried + {first[i].id};
      var promote, done;
      t, promote, archiveUps, done, plan := FirstTurn(pool, requiresArchive, maxAttempts, retry, left, t, i, first[i], plan);
      if promote {
        promoted := Some(i);
        return;
      }
      if done.Some? {
        ret, gone := done.value, done.value == Error;
        return;
      }
    }
    assert first[..|first|] == first;
  }

  /** The archive candidates before `j` that were not tried before were tried and none answered. */
  ghost predicate ArchiveInv(b: Book, b0: Book, archive: seq<Upstream>, j: nat, retry: bool, left: nat -> bool) {
    && j <= |archive| && b0 <= b
    && Line(b) == Line(b0) + Untried(archive[..j], Ids(Line(b0)))
    && Clean(b, retry, left)
    && forall k :: |b0| <= k < |b| ==> !Succeeded(b[k])
  }

  lemma ArchiveGoesOn(b: Book, b0: Book, archive: seq<Upstream>, j: nat, retry: bool, left: nat -> bool, a: Attempt)
    requires ArchiveInv(b, b0, archive, j, retry, left) && b0 != [] && j < |archive| && a.u == archive[j] && (retry ==> !left(|b|))
    requires a.u.id !in Ids(Line(b0)) && Done(a) && !Cancelled(a) && !Succeeded(a)
    ensures ArchiveInv(b + [a], b0, archive, j + 1, retry, left)
  {
    LineSnoc(b, a);
    CleanSnoc(b, a, retry, left);
    UntriedSnoc(archive, Ids(Line(b0)), j);
  }

  lemma ArchiveStops(b: Book, b0: Book, archive: seq<Upstream>, j: nat, retry: bool, left: nat -> bool)
    requires ArchiveInv(b, b0, archive, j, retry, left)
    ensures var route := Line(b0) + Untried(archive, Ids(Line(b0)));
            && Line(b) <= route
            && (j == |archive| ==> Pursued(b, Error, route, retry, left, false))
            && (retry && b != [] && left(|b|) ==> Pursued(b, Error, route, retry, left, true))
            && Concluded(b, Error, |b0|)
  {
    UntriedPrefix(archive, Ids(Line(b0)), j);
    assert j == |archive| ==> archive[..j] == archive;
  }

  lemma ArchiveEnds(pool: seq<Upstream>, maxAttempts: nat, retry: bool, left: nat -> bool, b: Book, b0: Book, archive: seq<Upstream>, j: nat, plan: Plan, a: Attempt, ret: Return)
    requires ArchiveInv(b, b0, archive, j, retry, left) && b0 != [] && j < |archive| && a.u == archive[j] && (retry ==> !left(|b|))
    requires a.u.id !in Ids(Line(b0)) && Led(pool, false, maxAttempts, j, true, false, plan, plan, a, Some(ret))
    requires ret == Error || ret == Returned(|b|, true, true)
    ensures Pursued(b + [a], ret, Line(b0) + Untried(archive, Ids(Line(b0))), retry, left, ret == Error) && Concluded(b + [a], ret, |b0|)
  {
    var ids := Ids(Line(b0));
    UntriedSnoc(archive, ids, j);
    UntriedPrefix(archive, ids, j + 1);
    assert Line(b) + [a.u] == Line(b0) + Untried(archive[..j + 1], ids);
    EndsWith(pool, false, maxAttempts, retry, left, j, true, b, Line(b0) + Untried(archive, ids), |b0|, plan, a, ret);
  }

  /** One of the archive candidates, not tried before. */
  method ArchiveTurn(pool: seq<Upstream>, maxAttempts: nat, retry: bool, left: nat -> bool, t: Trace, ghost b0: Book, archiveUps: seq<Upstream>, j: nat, ghost plan: Plan)
    returns (t': Trace, ret: Option<Return>)
    requires Distinct(pool) && Follows(t) && b0 != [] && ArchiveInv(Play(t), b0, archiveUps, j, retry, left)
    requires j < |archiveUps| && archiveUps[j].id !in Ids(Line(b0))
    ensures Follows(t') && b0 <= Play(t')
    ensures ret == None ==> ArchiveInv(Play(t'), b0, archiveUps, j + 1, retry, left)
    ensures ret.Some? ==>
              && Pursued(Play(t'), ret.value, Line(b0) + Untried(archiveUps, Ids(Line(b0))), retry, left, ret.value == Error)
              && Concluded(Play(t'), ret.value, |b0|)
  {
    t', ret := t, None;
    ghost var b := Play(t);
    if retry && left(CountSpawns(t)) {
      ArchiveStops(b, b0, archiveUps, j, retry, left);
      ret := Some(Error);
      return;
    }
    var promote, more;
    ghost var plan', a;
    t', promote, more, ret, plan', a := Turn(pool, false, maxAttempts, archiveUps[j], j, t, true, plan);
    if ret == None {
      ArchiveGoesOn(b, b0, archiveUps, j, retry, left, a);
    } else {
      ArchiveEnds(pool, maxAttempts, retry, left, b, b0, archiveUps, j, plan, a, ret.value);
    }
  }

  /** The rest of the loop after promotion: the archive candidates that were not tried before. */
  method PursueArchive(pool: seq<Upstream>, maxAttempts: nat, retry: bool, left: nat -> bool, t: Trace, archiveUps: seq<Upstream>, tried0: set<string>, ghost plan: Plan)
    returns (t': Trace, ret: Return, gone: bool)
    requires Distinct(pool) && Distinct(archiveUps) && Follows(t) && Play(t) != [] && tried0 == Ids(Line(Play(t)))
    requires Clean(Play(t), retry, left)
    ensures Follows(t') && Play(t) <= Play(t')
    ensures Pursued(Play(t'), ret, Line(Play(t)) + Untried(archiveUps, tried0), retry, left, gone)
    ensures Concluded(Play(t'), ret, |Play(t)|)
  {
    t', ret, gone := t, Error, false;
    ghost var b0, head := Play(t), Line(Play(t));
    var tried := tried0;
    assert Untried(archiveUps[..0], tried0) == [] && head + archiveUps[..0] == head;
    for j := 0 to |archiveUps|
      invariant Follows(t') && ArchiveInv(Play(t'), b0, archiveUps, j, retry, left) && tried == Ids(head + archiveUps[..j])
    {
      NextArchive(head, archiveUps, j);
      if archiveUps[j].id in tried {
        continue;
      }
      tried := tried + {archiveUps[j].id};
      var done;
      t', done := ArchiveTurn(pool, maxAttempts, retry, left, t', b0, archiveUps, j, plan);
      if done.Some? {
        return t', done.value, done.value == Error;
      }
    }
    ArchiveStops(Play(t'), b0, archiveUps, |archiveUps|, retry, left);
  }

  /** Among the archive candidates only those tried before the promotion are passed over. */
  lemma NextArchive(head: seq<Upstream>, archive: seq<Upstream>, j: nat)
    requires Distinct(archive) && j < |archive|
    ensures archive[j].id in Ids(head + archive[..j]) <==> archive[j].id in Ids(head)
    ensures Ids(head + archive[..j + 1]) == Ids(head + archive[..j]) + {archive[j].id}
    ensures archive[j].id in Ids(head) ==> Untried(archive[..j + 1], Ids(head)) == Untried(archive[..j], Ids(head))
    ensures archive[j].id in Ids(head) ==> Ids(head + archive[..j + 1]) == Ids(head + archive[..j])
  {
    NotBefore(archive, j);
    IdsSnoc(archive, j);
    IdsConcat(head, archive[..j]);
    IdsConcat(head, archive[..j + 1]);
    UntriedSnoc(archive, Ids(head), j);
  }

  lemma BothParts(retry: bool, left: nat -> bool, b0: Book, b: Book, ret: Return, p: nat, gone: bool, plan: Plan)
    requires p < |plan.first| && Line(b0) == plan.first[..p + 1] && b0 <= b
    requires GotPruned(b0[p]) && forall k :: 0 <= k < p ==> !Succeeded(b0[k])
    requires Pursued(b, ret, Line(b0) + Untried(plan.archive, Ids(Line(b0))), retry, left, gone) && Concluded(b, ret, |b0|)
    ensures GivenUp(b, p, ret, plan, retry, left, gone)
  {
    assert |Line(b0)| == p + 1;
    assert b[p] == b0[p] && forall k :: 0 <= k < p ==> b[k] == b0[k];
    assert Line(b0) + Untried(plan.archive, Ids(Line(b0))) == FullRoute(Some(p), plan);
  }

  /** The loop, before and after promotion. */
  method Pursue(pool: seq<Upstream>, requiresArchive: bool, maxAttempts: nat, retry: bool, left: nat -> bool, first: seq<Upstream>, ghost start: Plan)
    returns (t: Trace, ret: Return, promoted: Option<nat>, gone: bool, ghost plan: Plan)
    requires Distinct(pool) && Distinct(first) && start.first == first
    ensures Follows(t) && plan.first == first && plan.choice == start.choice
    ensures Outcome(pool, requiresArchive, maxAttempts, retry, left, Play(t), ret, promoted, gone, plan)
  {
    var archiveUps, tried;
    t, ret, gone, promoted, archiveUps, tried, plan := PursueFirst(pool, requiresArchive, maxAttempts, retry, left, first, start);
    if promoted.Some? {
      ghost var b0 := Play(t);
      assert b0 != [] by {
        assert |Line(b0)| == promoted.value + 1;
      }
      t, ret, gone := PursueArchive(pool, maxAttempts, retry, left, t, archiveUps, tried, plan);
      BothParts(retry, left, b0, Play(t), ret, promoted.value, gone, plan);
    }
  }

  /**
   The sequential dispatch. `left(n)` says whether the client is gone during the
   wait before attempt `n`, and `gone` whether that, or a cancelled attempt, ended
   the dispatch.
   */
  method ExecuteSequential(pool: seq<Upstream>, requiresArchive: bool, preferHead: bool, preferID: string,
                           maxAttempts: nat, retry: bool, left: nat -> bool)
    returns (t: Trace, ret: Return, promoted: Option<nat>, gone: bool, ghost plan: Plan)
    requires Distinct(pool) && maxAttempts >= 1
    ensures Follows(t) && SequentialResult(pool, requiresArchive, maxAttempts, Play(t), ret, promoted)
    ensures Outcome(pool, requiresArchive, maxAttempts, retry, left, Play(t), ret, promoted, gone, plan)
    ensures var proactive := HasArchive(pool) && requiresArchive;
            ChosenFirst(pool, proactive, preferHead, ArchivePreference(pool, proactive, preferID), maxAttempts, plan.choice, plan.first)
  {
    var proactive := HasArchive(pool) && requiresArchive;
    var prefer := ArchivePreference(pool, proactive, preferID);
    ghost var choice;
    var ups;
    ups, choice := FirstCandidates(pool, proactive, preferHead, prefer, maxAttempts);
    t, ret, promoted, gone, plan := Pursue(pool, requiresArchive, maxAttempts, retry, left, ups, Plan(ups, choice, [], choice.ctx));
    ResultHolds(pool, requiresArchive, maxAttempts, retry, left, Play(t), ret, promoted, gone, plan);
  }

  method FirstCandidates(pool: seq<Upstream>, proactive: bool, preferHead: bool, prefer: string, maxAttempts: nat)
    returns (ups: seq<Upstream>, ghost choice: Choice)
    requires Distinct(pool) && maxAttempts >= 1
    requires proactive ==> HasArchive(pool) && (prefer == "" || exists u :: u in pool && u.id == prefer && u.archive)
    ensures Distinct(ups) && |ups| <= maxAttempts && forall u :: u in ups ==> u in pool && (proactive ==> u.archive)
    ensures ChosenFirst(pool, proactive, preferHead, prefer, maxAttempts, choice, ups)
  {
    var ctx: Context := *;
    var seen: set<string> := *;
    var forked: set<string> := *;
    var ready: set<string> := *;
    if proactive {
      ups := SelectArchive(pool, ctx, maxAttempts);
    } else {
      ups := Select(pool, ctx, preferHead, seen, maxAttempts);
    }
    choice := Choice(ctx, seen, forked, ready, ups);
    if |ups| == 0 {
      return;
    }
    ups := EnsurePreferredFirst(pool, ups, prefer, maxAttempts, forked, ready);
    if proactive {
      forall u | u in ups ensures u.archive {
      }
    }
  }

  // ---------------------------------------------------------------------
  // Pruned answers
  // ---------------------------------------------------------------------

  lemma FirstTwoDiffer(b: Book)
    requires DistinctAttempts(b)
    ensures |b| >= 2 ==> b[0].u.id != b[1].u.id
  {
  }

  /**
   With one upstream, an archive one, the archive set holds only what was already
   tried: a pruned answer is given up for nothing and the client gets an error.
   */
  lemma SolePrunedAnswerIsLost(u: Upstream, maxAttempts: nat, b: Book, ret: Return, promoted: Option<nat>)
    requires u.archive && SequentialResult([u], false, maxAttempts, b, ret, promoted)
    ensures (exists k :: 0 <= k < |b| && GotPruned(b[k])) ==> ret == Error && promoted == Some(0) && |b| == 1
  {
    assert u in [u] && HasArchive([u]);
    FirstTwoDiffer(b);
    assert forall k :: 0 <= k < |b| ==> b[k].u in [u] && b[k].u.id == u.id;
  }

  lemma LostIsAResult(u: Upstream, a: Attempt)
    requires u.archive && a.u == u && GotPruned(a) && Done(a)
    ensures SequentialResult([u], false, 1, [a], Error, Some(0))
  {
    assert u in [u] && HasArchive([u]);
    assert GotPruned([a][0]);
  }

  /** And such a dispatch exists: one 404 that looks pruned, closed and released. */
  lemma SolePrunedAnswerHappens(u: Upstream) returns (t: Trace)
    requires u.archive
    ensures Follows(t) && Play(t) == [Attempt(u, Settled(CB.Release), Shut, Some(Answered(404, true)))]
    ensures SequentialResult([u], false, 1, Play(t), Error, Some(0))
  {
    t := Log([], Spawn(u));
    t := Log(t, Enter(0, Admitted));
    t := Log(t, Finish(0, Answered(404, true)));
    t := Log(t, Close(0));
    t := Log(t, Settle(0, CB.Release));
    LostIsAResult(u, Attempt(u, Settled(CB.Release), Shut, Some(Answered(404, true))));
  }

  /** While without archive upstreams a pruned answer is returned as any other. */
  lemma PrunedAnswerKeptWithoutArchive(pool: seq<Upstream>, requiresArchive: bool, maxAttempts: nat, b: Book, ret: Return, promoted: Option<nat>, k: nat)
    requires SequentialResult(pool, requiresArchive, maxAttempts, b, ret, promoted)
    requires !HasArchive(pool) && k < |b| && GotPruned(b[k])
    ensures ret == Returned(k, true, true)
  {
  }
}
