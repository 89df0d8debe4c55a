/** The pass over the archive upstreams that follows a hedged race, and the pinned dispatches. */
module ArchivePass {
  import opened Options
  import opened Selection
  import opened PoolOrder
  import opened Ledger
  import opened Dispatch
  import CB = CircuitBreaker

  ghost predicate Extends(b: Book, b': Book) {
    |b| <= |b'| && b'[..|b|] == b
  }

  /** The attempts from `from` on are done and went, once each, to the first `i` of `ups` outside `tried`; no unpruned answer was passed over. */
  ghost predicate PassInv(b: Book, from: nat, ups: seq<Upstream>, i: nat, tried: set<string>) {
    && from <= |b|
    && i <= |ups|
    && (forall k :: from <= k < |b| ==> Done(b[k]) && b[k].u in ups[..i] && b[k].u.id !in tried)
    && (forall k :: from <= k < |b| && Succeeded(b[k]) ==> GotPruned(b[k]))
    && (forall k, l :: from <= k < l < |b| ==> b[k].u.id != b[l].u.id)
  }

  /** In the order of the list, those tried before left out, and none cancelled. */
  ghost predicate PassLine(b: Book, from: nat, ups: seq<Upstream>, i: nat, tried: set<string>) {
    from <= |b| && i <= |ups| && Line(b[from..]) == Untried(ups[..i], tried) && forall k :: from <= k < |b| ==> !Cancelled(b[k])
  }

  /**
   The archive candidates not tried before are attempted in order and, unless the
   last attempt was cancelled, all of them before the pass gives up.
   */
  ghost predicate Passed(b: Book, b': Book, tried: set<string>, archive: seq<Upstream>, ret: Return) {
    && |b| <= |b'|
    && Line(b'[|b|..]) <= Untried(archive, tried)
    && (ret == Error ==> Line(b'[|b|..]) == Untried(archive, tried) || (|b| < |b'| && Cancelled(b'[|b'| - 1])))
    && (forall k :: |b| <= k < |b'| - 1 ==> !Cancelled(b'[k]))
  }

  lemma PassAttempted(b: Book, from: nat, ups: seq<Upstream>, i: nat, tried: set<string>, a: Attempt)
    requires PassLine(b, from, ups, i, tried) && i < |ups| && a.u == ups[i] && a.u.id !in tried
    ensures Line((b + [a])[from..]) == Untried(ups[..i + 1], tried) <= Untried(ups, tried)
    ensures !Cancelled(a) ==> PassLine(b + [a], from, ups, i + 1, tried)
  {
    assert (b + [a])[from..] == b[from..] + [a];
    assert Line(b[from..] + [a]) == Line(b[from..]) + [a.u];
    UntriedSnoc(ups, tried, i);
    UntriedPrefix(ups, tried, i + 1);
  }

  lemma PassEnds(b: Book, b': Book, a: Attempt, ups: seq<Upstream>, i: nat, tried: set<string>, ret: Return)
    requires |b| <= |b'| && PassLine(b', |b|, ups, i, tried) && i < |ups| && a.u == ups[i] && a.u.id !in tried
    requires ret == Error ==> Cancelled(a)
    ensures Passed(b, b' + [a], tried, ups, ret)
  {
    PassAttempted(b', |b|, ups, i, tried, a);
  }

  lemma PassExtends(b: Book, b0: Book, ups: seq<Upstream>, i: nat, tried: set<string>, a: Attempt)
    requires Distinct(ups) && i < |ups| && Extends(b0, b) && PassInv(b, |b0|, ups, i, tried)
    requires a.u == ups[i] && a.u.id !in tried && Done(a) && (Succeeded(a) ==> GotPruned(a))
    ensures Extends(b0, b + [a]) && PassInv(b + [a], |b0|, ups, i + 1, tried)
  {
    assert (b + [a])[..|b0|] == b[..|b0|];
    forall k | |b0| <= k < |b| ensures b[k].u.id != a.u.id && b[k].u in ups[..i + 1] {
      assert b[k].u in ups[..i];
      var j :| 0 <= j < i && ups[..i][j] == b[k].u;
      assert ups[..i + 1][j] == ups[j] == b[k].u;
    }
    assert ups[..i + 1][i] == a.u;
  }

  /** The new attempts go to untried archive upstreams, once each; an unpruned answer below 500 is returned, all else is done. */
  ghost predicate ArchiveResult(b: Book, b': Book, tried: set<string>, ret: Return) {
    && Extends(b, b')
    && (forall k :: |b| <= k < |b'| ==> b'[k].u.archive && b'[k].u.id !in tried)
    && (forall k, l :: |b| <= k < l < |b'| ==> b'[k].u.id != b'[l].u.id)
    && (forall k :: |b| <= k < |b'| && !(ret.Returned? && ret.k == k) ==> Done(b'[k]))
    && (ret.Returned? ==>
          && |b| < |b'|
          && ret == Returned(|b'| - 1, true, true)
          && b'[ret.k].token == Held && b'[ret.k].body == Opened
          && Succeeded(b'[ret.k]) && !GotPruned(b'[ret.k]))
    && (forall k :: |b| <= k < |b'| && Succeeded(b'[k]) && !GotPruned(b'[k]) ==> ret == Returned(k, true, true))
  }

  /** One archive attempt: an unpruned answer below 500 is kept open, anything else is closed and settled. */
  method TryArchive(t: Trace, u: Upstream) returns (t': Trace, ghost a: Attempt, won: bool, cancelled: bool)
    requires Follows(t)
    ensures Follows(t') && Play(t') == Play(t) + [a] && a.u == u
    ensures (won <==> Succeeded(a) && !GotPruned(a)) && (cancelled <==> Cancelled(a))
    ensures if won then a.token == Held && a.body == Opened else Done(a)
  {
    ghost var b := Play(t);
    var k := CountSpawns(t);
    var res;
    t', res := Forward(t, u);
    won, cancelled := false, res == Failed(true);
    if res.Response? && res.status < 500 {
      won := !res.pruned;
      if !won {
        t' := CloseAndSettle(t', k, CB.Release);
      }
    } else {
      t' := WriteOff(t', u, res);
    }
    a := Play(t')[k];
    assert Play(t') == b + [a];
  }

  lemma PassWins(b: Book, b0: Book, ups: seq<Upstream>, i: nat, tried: set<string>, a: Attempt)
    requires Distinct(ups) && i < |ups| && Extends(b0, b) && PassInv(b, |b0|, ups, i, tried)
    requires forall u :: u in ups ==> u.archive
    requires a.u == ups[i] && a.u.id !in tried
    requires a.token == Held && a.body == Opened && Succeeded(a) && !GotPruned(a)
    ensures ArchiveResult(b0, b + [a], tried, Returned(|b|, true, true))
  {
    forall k | |b0| <= k < |b| ensures b[k].u.id != a.u.id && b[k].u.archive {
      assert b[k].u in ups[..i];
      var j :| 0 <= j < i && ups[..i][j] == b[k].u;
      assert ups[j] == b[k].u;
    }
    assert (b + [a])[..|b0|] == b[..|b0|];
  }

  lemma PassFails(b: Book, b0: Book, ups: seq<Upstream>, i: nat, tried: set<string>)
    requires Extends(b0, b) && PassInv(b, |b0|, ups, i, tried)
    requires forall u :: u in ups ==> u.archive
    ensures ArchiveResult(b0, b, tried, Error)
  {
    forall k | |b0| <= k < |b| ensures b[k].u.archive {
      assert b[k].u in ups[..i];
    }
  }

  /** The `i`-th archive upstream's turn: nothing if it was tried before. */
  method PassTurn(t: Trace, ghost b0: Book, ups: seq<Upstream>, i: nat, tried: set<string>)
    returns (t': Trace, ret: Option<Return>)
    requires Follows(t) && Distinct(ups) && i < |ups| && forall u :: u in ups ==> u.archive
    requires Extends(b0, Play(t)) && PassInv(Play(t), |b0|, ups, i, tried) && PassLine(Play(t), |b0|, ups, i, tried)
    ensures Follows(t')
    ensures ret == None ==>
              && Extends(b0, Play(t')) && PassInv(Play(t'), |b0|, ups, i + 1, tried)
              && PassLine(Play(t'), |b0|, ups, i + 1, tried)
    ensures ret.Some? ==> ArchiveResult(b0, Play(t'), tried, ret.value) && Passed(b0, Play(t'), tried, ups, ret.value)
  {
    t', ret := t, None;
    ghost var b := Play(t);
    if ups[i].id !in tried {
      var k := CountSpawns(t);
      var won, cancelled;
      ghost var a;
      t', a, won, cancelled := TryArchive(t, ups[i]);
      if won {
        PassWins(b, b0, ups, i, tried, a);
        PassEnds(b0, b, a, ups, i, tried, Returned(k, true, true));
        return t', Some(Returned(k, true, true));
      }
      PassExtends(b, b0, ups, i, tried, a);
      PassAttempted(b, |b0|, ups, i, tried, a);
      if cancelled {
        PassFails(b + [a], b0, ups, i + 1, tried);
        PassEnds(b0, b, a, ups, i, tried, Error);
        ret := Some(Error);
      }
    } else {
      UntriedSnoc(ups, tried, i);
      assert forall k :: |b0| <= k < |b| ==> b[k].u in ups[..i] && ups[..i] <= ups[..i + 1];
    }
  }

  method PromoteToArchive(t: Trace, pool: seq<Upstream>, tried: set<string>, maxAttempts: nat)
    returns (t': Trace, ret: Return, ghost archive: seq<Upstream>, ghost ctx: Context)
    requires Follows(t) && Distinct(pool)
    ensures Follows(t') && ArchiveResult(Play(t), Play(t'), tried, ret)
    ensures Picked(Archives(pool), ctx, false, {}, if maxAttempts < 1 then 1 else maxAttempts, archive)
    ensures Passed(Play(t), Play(t'), tried, archive, ret)
  {
    t' := t;
    ghost var b0 := Play(t);
    var at: Context := *;
    var ups := SelectArchive(pool, at, if maxAttempts < 1 then 1 else maxAttempts);
    archive, ctx := ups, at;
    assert Line(b0[|b0|..]) == [] == Untried(ups[..0], tried);
    for i := 0 to |ups|
      invariant Follows(t') && Extends(b0, Play(t')) && PassInv(Play(t'), |b0|, ups, i, tried) && PassLine(Play(t'), |b0|, ups, i, tried)
    {
      var done;
      t', done := PassTurn(t', b0, ups, i, tried);
      if done.Some? {
        return t', done.value, archive, ctx;
      }
    }
    PassFails(Play(t'), b0, ups, |ups|, tried);
    assert ups[..|ups|] == ups;
    ret := Error;
  }

  // ---------------------------------------------------------------------
  // Pinned dispatch
  // ---------------------------------------------------------------------

  lemma OneAttempt(u: Upstream, res: Result)
    ensures res.Response? ==> Accounted([Landed(u, res)], Returned(0, true, true)) && IsAnswer([Landed(u, res)][0])
    ensures !res.Response? ==>
              Accounted([Written(u, res)], Error) && AllDone([Written(u, res)], 1) && !IsAnswer([Written(u, res)][0]) && Written(u, res).u == u
  {
  }

  /** One named upstream: its answer is handed over unsettled whatever the status, its failure is settled. */
  method ExecutePinned(pool: seq<Upstream>, id: string) returns (t: Trace, ret: Return)
    ensures Follows(t) && Accounted(Play(t), ret) && |Play(t)| == if ByID(pool, id).Some? then 1 else 0
    ensures ret.Returned? ==> ret.tokenHeld && ret.bodyOpen
    ensures ret == Error ==> AllDone(Play(t), |Play(t)|)
    ensures ret == Error <==> forall k :: 0 <= k < |Play(t)| ==> !IsAnswer(Play(t)[k])
    ensures forall k :: 0 <= k < |Play(t)| ==> Play(t)[k].u in pool && Play(t)[k].u.id == id
  {
    t := [];
    match ByID(pool, id) {
      case None => return t, Error;
      case Some(u) =>
        var res;
        t, res := Forward(t, u);
        assert Play(t) == [Landed(u, res)];
        OneAttempt(u, res);
        if res.Response? {
          return t, Returned(0, true, true);
        }
        t := WriteOff(t, u, res);
        assert Play(t) == [Written(u, res)];
        return t, Error;
    }
  }

  /** The response kept back while later candidates are tried; its token is settled already when it was a 5xx. */
  ghost predicate Buffered(b: Book, last: Option<nat>, lastHeld: bool) {
    last.Some? ==>
      && last.value < |b|
      && b[last.value].body == Opened
      && b[last.value].reply.Some? && b[last.value].reply.value.Answered?
      && (if lastHeld then b[last.value].token == Held && GotPruned(b[last.value])
          else b[last.value].token == Settled(CB.Failure) && !Succeeded(b[last.value]))
  }

  /** Everything but the buffered response is done, and no unpruned answer was passed over. */
  ghost predicate PinnedInv(b: Book, ups: seq<Upstream>, i: nat, last: Option<nat>, lastHeld: bool) {
    && |b| == i <= |ups|
    && (forall k :: 0 <= k < |b| ==> b[k].u == ups[k])
    && (forall k :: 0 <= k < |b| && last != Some(k) ==> Done(b[k]))
    && (forall k :: 0 <= k < |b| ==> Succeeded(b[k]) ==> GotPruned(b[k]))
    && Buffered(b, last, lastHeld)
  }

  /** The buffered response is the last one that came in, and nothing was cancelled. */
  ghost predicate Latest(b: Book, last: Option<nat>) {
    && (forall k :: 0 <= k < |b| && IsAnswer(b[k]) ==> last.Some? && k <= last.value)
    && (forall k :: 0 <= k < |b| ==> !Cancelled(b[k]))
  }

  /** The books after the buffered response is closed and a token it still holds is released. */
  ghost function Dropped(b: Book, last: Option<nat>, lastHeld: bool): Book
    requires last.Some? ==> last.value < |b|
  {
    match last
    case None => b
    case Some(k) => b[k := b[k].(body := Shut, token := if lastHeld then Settled(CB.Release) else b[k].token)]
  }

  lemma DropClears(b: Book, ups: seq<Upstream>, i: nat, last: Option<nat>, lastHeld: bool, a: Attempt)
    requires PinnedInv(b, ups, i, last, lastHeld)
    ensures PinnedInv(Dropped(b, last, lastHeld), ups, i, None, false)
    ensures forall k :: 0 <= k < |b| ==> Dropped(b, last, lastHeld)[k].reply == b[k].reply
    ensures Dropped(b + [a], last, lastHeld) == Dropped(b, last, lastHeld) + [a]
  {
  }

  method DropBuffered(t: Trace, last: Option<nat>, lastHeld: bool) returns (t': Trace)
    requires Follows(t) && Buffered(Play(t), last, lastHeld)
    ensures Follows(t') && Play(t') == Dropped(Play(t), last, lastHeld)
  {
    t' := t;
    if last.Some? {
      t' := Log(t', Close(last.value));
      if lastHeld {
        t' := Log(t', Settle(last.value, CB.Release));
      }
    }
  }

  /**
   Everything is done except the returned response, which is open; its token is
   held below 500 and already charged from 500 on. An unpruned answer below 500
   is never passed over. Unless the client is gone, the last response that came in
   is returned, and an error means that every candidate was tried and none
   responded.
   */
  ghost predicate PinnedResult(b: Book, ups: seq<Upstream>, ret: Return, gone: bool) {
    && Accounted(b, ret)
    && |b| <= |ups|
    && (forall k :: 0 <= k < |b| ==> b[k].u == ups[k])
    && (forall k :: 0 <= k < |b| && !(ret.Returned? && ret.k == k) ==> Done(b[k]))
    && (ret.Returned? ==>
          && ret.bodyOpen
          && b[ret.k].reply.Some? && b[ret.k].reply.value.Answered?
          && (ret.tokenHeld <==> Succeeded(b[ret.k]))
          && (!ret.tokenHeld ==> b[ret.k].token == Settled(CB.Failure)))
    && (forall k :: 0 <= k < |b| && Succeeded(b[k]) && !GotPruned(b[k]) ==> ret == Returned(k, true, true))
    && (gone ==> ret == Error)
    && (!gone ==> Latest(b, if ret.Returned? then Some(ret.k) else None))
    && (!gone && ret == Error ==> |b| == |ups|)
    && (forall k :: 0 <= k < |b| - 1 ==> !Cancelled(b[k]))
  }

  lemma PinnedKeeps(b: Book, ups: seq<Upstream>, i: nat, a: Attempt, held: bool)
    requires PinnedInv(b, ups, i, None, false) && i < |ups| && a.u == ups[i]
    requires Buffered([a], Some(0), held)
    ensures PinnedInv(b + [a], ups, i + 1, Some(i), held)
  {
  }

  lemma PinnedWins(b: Book, ups: seq<Upstream>, i: nat, a: Attempt)
    requires PinnedInv(b, ups, i, None, false) && i < |ups| && a.u == ups[i] && forall k :: 0 <= k < |b| ==> !Cancelled(b[k])
    requires a.token == Held && a.body == Opened && Succeeded(a)
    ensures PinnedResult(b + [a], ups, Returned(i, true, true), false)
  {
  }

  lemma PinnedMoves(b: Book, ups: seq<Upstream>, i: nat, last: Option<nat>, lastHeld: bool, a: Attempt)
    requires PinnedInv(b, ups, i, last, lastHeld) && i < |ups| && a.u == ups[i]
    requires Done(a) && !Succeeded(a)
    ensures PinnedInv(b + [a], ups, i + 1, last, lastHeld)
  {
  }

  lemma PinnedEnds(b: Book, ups: seq<Upstream>, i: nat)
    requires PinnedInv(b, ups, i, None, false) && forall k :: 0 <= k < |b| - 1 ==> !Cancelled(b[k])
    ensures PinnedResult(b, ups, Error, true)
  {
  }

  lemma PinnedFinishes(b: Book, ups: seq<Upstream>, last: Option<nat>, lastHeld: bool)
    requires PinnedInv(b, ups, |ups|, last, lastHeld) && Latest(b, last)
    ensures PinnedResult(b, ups, if last.Some? then Returned(last.value, lastHeld, true) else Error, false)
  {
  }

  /** The buffered response is dropped for the new one. */
  lemma Replaces(b: Book, ups: seq<Upstream>, i: nat, last: Option<nat>, lastHeld: bool, a: Attempt, held: bool)
    requires PinnedInv(b, ups, i, last, lastHeld) && Latest(b, last) && i < |ups| && a.u == ups[i] && IsAnswer(a)
    ensures var d := Dropped(b, last, lastHeld) + [a];
            && Dropped(b + [a], last, lastHeld) == d
            && Latest(d, Some(i))
            && (Buffered([a], Some(0), held) ==> PinnedInv(d, ups, i + 1, Some(i), held))
            && (a.token == Held && a.body == Opened && Succeeded(a) ==> PinnedResult(d, ups, Returned(i, true, true), false))
  {
    DropClears(b, ups, i, last, lastHeld, a);
    var dropped := Dropped(b, last, lastHeld);
    assert forall k :: 0 <= k < |b| ==> !Cancelled(dropped[k]);
    if a.token == Held && a.body == Opened && Succeeded(a) {
      PinnedWins(dropped, ups, i, a);
    }
    if Buffered([a], Some(0), held) {
      PinnedKeeps(dropped, ups, i, a, held);
    }
  }

  lemma MovesOn(b: Book, ups: seq<Upstream>, i: nat, last: Option<nat>, lastHeld: bool, a: Attempt)
    requires PinnedInv(b, ups, i, last, lastHeld) && Latest(b, last) && i < |ups| && a.u == ups[i]
    requires Done(a) && !IsAnswer(a)
    ensures PinnedInv(b + [a], ups, i + 1, last, lastHeld)
    ensures !Cancelled(a) ==> Latest(b + [a], last)
    ensures var d := Dropped(b + [a], last, lastHeld);
            |d| == i + 1 && d[i] == a && PinnedResult(d, ups, Error, true)
  {
    PinnedMoves(b, ups, i, last, lastHeld, a);
    DropClears(b + [a], ups, i + 1, last, lastHeld, a);
    PinnedEnds(Dropped(b + [a], last, lastHeld), ups, i + 1);
  }

  /** A response: it replaces what is buffered, and wins unless it is a failure or looks pruned. */
  method PinnedAnswer(t: Trace, ghost b: Book, ups: seq<Upstream>, i: nat, last: Option<nat>, lastHeld: bool, res: Result)
    returns (t': Trace, won: bool)
    requires i < |ups| && PinnedInv(b, ups, i, last, lastHeld) && Latest(b, last) && res.Response?
    requires Follows(t) && Play(t) == b + [Landed(ups[i], res)]
    ensures Follows(t') && |Play(t')| == i + 1
    ensures !won ==> PinnedInv(Play(t'), ups, i + 1, Some(i), res.status < 500) && Latest(Play(t'), Some(i))
    ensures won ==> PinnedResult(Play(t'), ups, Returned(i, true, true), false)
  {
    t' := t;
    if res.status >= 500 {
      t' := Log(t', Settle(i, CB.Failure));
    }
    ghost var a := Landed(ups[i], res).(token := if res.status >= 500 then Settled(CB.Failure) else Held);
    assert Play(t') == b + [a];
    t' := DropBuffered(t', last, lastHeld);
    Replaces(b, ups, i, last, lastHeld, a, res.status < 500);
    won := res.status < 500 && !(i < |ups| - 1 && res.pruned);
  }

  /** One candidate: its result, or what is buffered for the next turn. */
  method PinnedTurn(t: Trace, ups: seq<Upstream>, i: nat, last: Option<nat>, lastHeld: bool)
    returns (t': Trace, last': Option<nat>, lastHeld': bool, ret: Option<Return>)
    requires Follows(t) && i < |ups| && PinnedInv(Play(t), ups, i, last, lastHeld) && Latest(Play(t), last)
    ensures Follows(t')
    ensures ret == None ==> PinnedInv(Play(t'), ups, i + 1, last', lastHeld') && Latest(Play(t'), last')
    ensures ret.Some? ==> PinnedResult(Play(t'), ups, ret.value, ret.value == Error)
    ensures |Play(t')| == i + 1 && (ret == Some(Error) ==> Cancelled(Play(t')[i]))
  {
    last', lastHeld', ret := last, lastHeld, None;
    var u := ups[i];
    var res;
    ghost var b := Play(t);
    t', res := Forward(t, u);
    if res.Response? {
      var won;
      t', won := PinnedAnswer(t', b, ups, i, last, lastHeld, res);
      if won {
        ret := Some(Returned(i, true, true));
      } else {
        last', lastHeld' := Some(i), res.status < 500;
      }
      return;
    }
    t' := WriteOff(t', u, res);
    assert Play(t') == b + [Written(u, res)];
    MovesOn(b, ups, i, last, lastHeld, Written(u, res));
    if res == Failed(true) {
      t' := DropBuffered(t', last, lastHeld);
      ret := Some(Error);
    }
  }

  /**
   A selector's candidates in order: the first unpruned answer below 500 wins;
   otherwise the last buffered response, or an error when there is none. `left(n)`
   says whether the client is gone during the wait before candidate `n`.
   */
  method ExecuteSelectedCandidates(ups: seq<Upstream>, retry: bool, left: nat -> bool) returns (t: Trace, ret: Return, gone: bool)
    ensures Follows(t) && PinnedResult(Play(t), ups, ret, gone)
    ensures retry ==> forall k :: 0 < k < |Play(t)| ==> !left(k)
    ensures gone ==> Play(t) != [] && (Cancelled(Play(t)[|Play(t)| - 1]) || (retry && |Play(t)| < |ups| && left(|Play(t)|)))
  {
    t, gone := [], false;
    var last: Option<nat>, lastHeld := None, false;
    for i := 0 to |ups|
      invariant Follows(t) && PinnedInv(Play(t), ups, i, last, lastHeld) && Latest(Play(t), last)
      invariant retry ==> forall k :: 0 < k < i ==> !left(k)
    {
      if i > 0 && retry && left(i) {
        DropClears(Play(t), ups, i, last, lastHeld, Landed(ups[i], NotSent));
        t := DropBuffered(t, last, lastHeld);
        PinnedEnds(Play(t), ups, i);
        return t, Error, true;
      }
      var done;
      t, last, lastHeld, done := PinnedTurn(t, ups, i, last, lastHeld);
      if done.Some? {
        return t, done.value, done.value == Error;
      }
    }
    PinnedFinishes(Play(t), ups, last, lastHeld);
    if last.Some? {
      return t, Returned(last.value, lastHeld, true), false;
    }
    ret := Error;
  }
}
