/**
 The hedged race: parallel attempts whose goroutines, replies and timer come in
 any order, with losers drained after the winner has been handed over.
 */
module Hedge {
  import opened Options
  import opened Selection
  import opened PoolOrder
  import opened Ledger
  import opened Dispatch
  import opened ArchivePass
  import CB = CircuitBreaker

  /** Where a hedged attempt is: not yet admitted, in flight, in the result channel, or received by the main loop. */
  datatype Stage = Pending | Flying | Arrived | Taken

  type Race = seq<Stage>

  function StageCost(s: Stage): nat {
    match s
    case Pending => 3
    case Flying => 2
    case Arrived => 1
    case Taken => 0
  }

  /** Steps left until everything is received. */
  function Cost(race: Race): nat {
    if race == [] then 0 else Cost(race[..|race| - 1]) + StageCost(race[|race| - 1])
  }

  lemma {:induction false} CostUpdate(race: Race, k: nat, s: Stage)
    requires k < |race|
    ensures Cost(race[k := s]) == Cost(race) - StageCost(race[k]) + StageCost(s)
  {
    var n := |race| - 1;
    if k < n {
      CostUpdate(race[..n], k, s);
      assert race[k := s][..n] == race[..n][k := s];
    } else {
      assert race[k := s][..n] == race[..n];
    }
  }

  lemma {:induction false} CostZero(race: Race)
    ensures Cost(race) == 0 <==> forall k :: 0 <= k < |race| ==> race[k] == Taken
  {
    if race != [] {
      CostZero(race[..|race| - 1]);
    }
  }

  /** A result as `forward` leaves it. */
  ghost predicate Untouched(a: Attempt) {
    || (a.token == NoToken && a.body == NoBody && a.reply == None)
    || (a.token == Held && a.reply.Some? && a.body == (if a.reply.value.Answered? then Opened else Shut))
  }

  ghost predicate AtStage(a: Attempt, s: Stage) {
    match s
    case Pending => a.body == Waiting && a.token == NoToken && a.reply == None
    case Flying => a.body == InFlight && a.token == Held && a.reply == None
    case Arrived => Untouched(a)
    case Taken => true
  }

  ghost predicate InRace(b: Book, race: Race) {
    |race| <= |b| && forall k :: 0 <= k < |race| ==> AtStage(b[k], race[k])
  }

  /** A goroutine is admitted, or its reply comes in. */
  method GoroutineStep(t: Trace, race: Race, idx: nat) returns (t': Trace, race': Race)
    requires Follows(t) && InRace(Play(t), race) && idx < |race| && race[idx] in {Pending, Flying}
    ensures Follows(t') && |Play(t')| == |Play(t)| && InRace(Play(t'), race')
    ensures Play(t') == Play(t)[idx := Play(t')[idx]] && Play(t')[idx].u == Play(t)[idx].u
    ensures |race'| == |race| && race' == race[idx := race'[idx]] && race'[idx] in {Flying, Arrived}
    ensures Cost(race') < Cost(race)
  {
    var s: Stage;
    if race[idx] == Pending {
      var gate: Gate := *;
      t' := Log(t, Enter(idx, gate));
      s := if gate == Admitted then Flying else Arrived;
    } else {
      var reply: Reply := *;
      t' := Log(t, Finish(idx, reply));
      s := Arrived;
    }
    CostUpdate(race, idx, s);
    race' := race[idx := s];
  }

  /** Closes and settles a received attempt that is not kept. One that was never admitted has nothing to settle. */
  method Conclude(t: Trace, idx: nat, o: CB.Outcome) returns (t': Trace)
    requires Follows(t) && idx < |Play(t)| && Untouched(Play(t)[idx])
    ensures Follows(t') && |Play(t')| == |Play(t)|
    ensures Play(t') == Play(t)[idx := Play(t')[idx]]
    ensures Play(t')[idx].u == Play(t)[idx].u && Play(t')[idx].reply == Play(t)[idx].reply
    ensures Quiet(Play(t')[idx])
    ensures Play(t')[idx].token == (if Play(t)[idx].reply.Some? then Settled(o) else NoToken)
  {
    t' := t;
    var reply := ReplyOf(t, idx);
    if reply.Some? {
      if reply.value.Answered? {
        t' := Log(t', Close(idx));
      }
      t' := Log(t', Settle(idx, o));
    }
  }

  /** The reply recorded for attempt `k`. */
  function ReplyOf(t: Trace, k: nat): (r: Option<Reply>)
    ensures Follows(t) ==> r == if k < |Play(t)| then Play(t)[k].reply else None
  {
    if t == [] then None
    else
      var op := t[|t| - 1];
      if op.Finish? && op.k == k then Some(op.reply) else ReplyOf(t[..|t| - 1], k)
  }

  /** The pruned answer kept back while the race goes on. */
  ghost predicate KeptBack(b: Book, race: Race, pruning: Option<nat>) {
    pruning.Some? ==>
      && pruning.value < |race| <= |b| && race[pruning.value] == Taken
      && b[pruning.value].token == Held && b[pruning.value].body == Opened && GotPruned(b[pruning.value])
  }

  /** What has been received is done, except for what is kept back; no unpruned answer was passed over. */
  ghost predicate RaceInv(b: Book, ups: seq<Upstream>, race: Race, pruning: Option<nat>, tried: set<string>) {
    && |b| == |race| <= |ups|
    && (forall k :: 0 <= k < |b| ==> b[k].u == ups[k])
    && InRace(b, race)
    && KeptBack(b, race, pruning)
    && (forall k :: 0 <= k < |b| && race[k] == Taken ==> b[k].u.id in tried && (Succeeded(b[k]) ==> GotPruned(b[k])))
    && (forall k :: 0 <= k < |b| && race[k] == Taken && pruning != Some(k) ==> Done(b[k]))
  }

  /** What the race leaves behind: losers still to be drained, everything else accounted for. */
  ghost predicate RaceResult(b: Book, race: Race, ret: Return) {
    && InRace(b, race)
    && (ret.Returned? ==>
          && ret.k < |b|
          && (ret.k < |race| ==> race[ret.k] == Taken)
          && IsAnswer(b[ret.k]) && b[ret.k].body !in {Waiting, InFlight}
          && (ret.tokenHeld <==> b[ret.k].token == Held) && (ret.bodyOpen <==> b[ret.k].body == Opened))
    && forall k :: 0 <= k < |b| && (k < |race| ==> race[k] == Taken) && !(ret.Returned? && ret.k == k) ==> Quiet(b[k])
  }

  /** Closes and releases the pruned answer that was kept back. */
  method DropPruned(t: Trace, ghost ups: seq<Upstream>, race: Race, pruning: Option<nat>, ghost tried: set<string>)
    returns (t': Trace)
    requires Follows(t) && RaceInv(Play(t), ups, race, pruning, tried)
    ensures Follows(t') && RaceInv(Play(t'), ups, race, None, tried)
    ensures forall k :: 0 <= k < |race| && race[k] != Taken ==> Play(t')[k] == Play(t)[k]
  {
    t' := t;
    if pruning.Some? {
      t' := CloseAndSettle(t, pruning.value, CB.Release);
    }
  }

  /** The winner is the answer just received; everything received before is done. */
  ghost predicate Won(b: Book, ups: seq<Upstream>, race: Race, idx: nat, keepPruned: bool) {
    && idx < |race| == |b| <= |ups|
    && RaceResult(b, race, Returned(idx, true, true))
    && (forall k :: 0 <= k < |b| ==> b[k].u == ups[k])
    && Succeeded(b[idx])
    && (keepPruned ==> !GotPruned(b[idx]))
    && forall k :: 0 <= k < |b| && race[k] == Taken && k != idx ==> Done(b[k]) && (Succeeded(b[k]) ==> GotPruned(b[k]))
  }

  /** A result that does not end the race: the first pruned answer is kept back, the rest is closed and settled. */
  method Take(t: Trace, ups: seq<Upstream>, race: Race, pruning: Option<nat>, ghost tried: set<string>, idx: nat)
    returns (t': Trace, pruning': Option<nat>)
    requires Follows(t) && RaceInv(Play(t), ups, race, pruning, tried) && idx < |race| && race[idx] == Arrived
    requires Succeeded(Play(t)[idx]) ==> GotPruned(Play(t)[idx])
    ensures Follows(t') && RaceInv(Play(t'), ups, race[idx := Taken], pruning', tried + {ups[idx].id})
    ensures NoneBelow500(Play(t), race, pruning) ==> NoneBelow500(Play(t'), race[idx := Taken], pruning')
  {
    t', pruning' := t, pruning;
    var reply := ReplyOf(t, idx);
    if reply.Some? && reply.value.Answered? && reply.value.status < 500 && pruning == None {
      pruning' := Some(idx);
      return;
    }
    var o := CB.Release;
    if reply.Some? {
      o := Verdict(reply.value);
    }
    t' := Conclude(t, idx, o);
  }

  /** The main loop takes one result out of the channel. */
  method Receive(t: Trace, ups: seq<Upstream>, race: Race, pruning: Option<nat>, ghost tried: set<string>, idx: nat, keepPruned: bool)
    returns (t': Trace, pruning': Option<nat>, won: bool)
    requires Follows(t) && RaceInv(Play(t), ups, race, pruning, tried) && idx < |race| && race[idx] == Arrived
    ensures Follows(t')
    ensures !won ==> RaceInv(Play(t'), ups, race[idx := Taken], pruning', tried + {ups[idx].id})
    ensures !won && NoneBelow500(Play(t), race, pruning) ==> NoneBelow500(Play(t'), race[idx := Taken], pruning')
    ensures won ==> Won(Play(t'), ups, race[idx := Taken], idx, keepPruned)
  {
    var reply := ReplyOf(t, idx);
    won := reply.Some? && reply.value.Answered? && reply.value.status < 500 && !(keepPruned && reply.value.pruned);
    if won {
      t' := DropPruned(t, ups, race, pruning, tried);
      pruning' := None;
      return;
    }
    t', pruning' := Take(t, ups, race, pruning, tried, idx);
  }

  /**
   What a hedged dispatch leaves behind. No upstream is used twice. Received
   attempts are closed and settled as their replies deserve, except the returned
   one and the pruned answer that was read in full (success) or not (failure)
   before the archive pass. Attempts still racing are left to the drain. An
   unpruned answer below 500 that was received is the one returned, and a pruned
   one that was read is returned if no archive upstream answers.
   */
  ghost predicate HedgeResult(b: Book, ups: seq<Upstream>, race: Race, ret: Return, read: Option<nat>) {
    && RaceResult(b, race, ret)
    && |race| <= |ups| && (forall k :: 0 <= k < |race| ==> b[k].u == ups[k])
    && DistinctAttempts(b)
    && (read.Some? ==>
          && read.value < |race|
          && GotPruned(b[read.value])
          && b[read.value].body == Shut
          && b[read.value].token in {Settled(CB.Success), Settled(CB.Failure)})
    && (read.Some? ==> forall k :: 0 <= k < |race| ==> race[k] == Taken)
    && (forall k :: 0 <= k < |b| && (k < |race| ==> race[k] == Taken) && read != Some(k) && !(ret.Returned? && ret.k == k) ==> Done(b[k]))
    && (forall k :: |race| <= k < |b| ==> read.Some? && b[k].u.archive)
    && (ret.Returned? && read != Some(ret.k) ==> ret.tokenHeld && ret.bodyOpen && Succeeded(b[ret.k]))
    && (ret.Returned? && read == Some(ret.k) ==> !ret.tokenHeld && !ret.bodyOpen && b[ret.k].token == Settled(CB.Success))
    && (read.Some? && ret.Returned? && ret.k != read.value ==> !GotPruned(b[ret.k]))
    && (forall k :: 0 <= k < |b| && (k < |race| ==> race[k] == Taken) && Succeeded(b[k]) && !GotPruned(b[k]) ==>
          ret == Returned(k, true, true))
    && (read.Some? && b[read.value].token == Settled(CB.Success) ==> ret.Returned?)
  }

  /** While nothing is kept back, no answer below 500 has been received. */
  ghost predicate NoneBelow500(b: Book, race: Race, pruning: Option<nat>) {
    pruning == None ==> forall k :: 0 <= k < |race| <= |b| && race[k] == Taken ==> !Succeeded(b[k])
  }

  /**
   After the race, the archive candidates that were not in it: in order and, unless
   an attempt was cancelled, all of them before the dispatch falls back or fails.
   */
  ghost predicate ArchiveTail(b: Book, raced: nat, tried: set<string>, archive: seq<Upstream>, ret: Return) {
    && raced <= |b|
    && Line(b[raced..]) <= Untried(archive, tried)
    && (ret == Error || ret.k < raced ==> Line(b[raced..]) == Untried(archive, tried) || (raced < |b| && Cancelled(b[|b| - 1])))
    && (forall k :: raced <= k < |b| - 1 ==> !Cancelled(b[k]))
  }

  /** Who was received is who was tried. */
  ghost predicate Received(ups: seq<Upstream>, race: Race, tried: set<string>) {
    |race| <= |ups| && tried == set k | 0 <= k < |race| && race[k] == Taken :: ups[k].id
  }

  lemma ReceivedOne(ups: seq<Upstream>, race: Race, tried: set<string>, idx: nat)
    requires Received(ups, race, tried) && idx < |race|
    ensures Received(ups, race[idx := Taken], tried + {ups[idx].id})
  {
    var race' := race[idx := Taken];
    forall id ensures id in tried + {ups[idx].id} <==> exists k :: 0 <= k < |race'| && race'[k] == Taken && ups[k].id == id {
      if id in tried {
        var k :| 0 <= k < |race| && race[k] == Taken && ups[k].id == id;
        assert race'[k] == Taken;
      }
      if id == ups[idx].id {
        assert race'[idx] == Taken;
      }
    }
  }

  lemma ReceivedSame(ups: seq<Upstream>, race: Race, race': Race, tried: set<string>)
    requires Received(ups, race, tried) && |race| <= |race'| <= |ups|
    requires forall k :: 0 <= k < |race'| ==> (race'[k] == Taken <==> k < |race| && race[k] == Taken)
    ensures Received(ups, race', tried)
  {
  }

  lemma ReceivedAll(ups: seq<Upstream>, race: Race, tried: set<string>)
    requires Received(ups, race, tried) && forall k :: 0 <= k < |race| ==> race[k] == Taken
    ensures tried == Ids(ups[..|race|])
  {
    forall id ensures id in tried <==> id in Ids(ups[..|race|]) {
      if id in tried {
        var k :| 0 <= k < |race| && race[k] == Taken && ups[k].id == id;
        assert ups[..|race|][k] in ups[..|race|];
      }
      if id in Ids(ups[..|race|]) {
        var u :| u in ups[..|race|] && u.id == id;
        var k :| 0 <= k < |race| && ups[..|race|][k] == u;
        assert race[k] == Taken && ups[k].id == id;
      }
    }
  }

  /** Reads the pruned answer that was kept back, charging it for any read error, then tries the archive upstreams before falling back to it. */
  method AfterRace(t: Trace, pool: seq<Upstream>, ghost ups: seq<Upstream>, race: Race, p: nat, tried: set<string>, attempts: nat, readable: bool)
    returns (t': Trace, ret: Return, ghost archive: seq<Upstream>, ghost ctx: Context)
    requires Follows(t) && Distinct(pool) && Distinct(ups) && RaceInv(Play(t), ups, race, Some(p), tried)
    requires forall k :: 0 <= k < |race| ==> race[k] == Taken
    ensures Follows(t') && HedgeResult(Play(t'), ups, race, ret, Some(p))
    ensures Play(t')[p].token == Settled(if readable then CB.Success else CB.Failure)
    ensures Picked(Archives(pool), ctx, false, {}, if attempts < 1 then 1 else attempts, archive)
    ensures ArchiveTail(Play(t'), |race|, tried, archive, ret)
  {
    ghost var b := Play(t);
    t' := Log(t, Close(p));
    t' := Log(t', Settle(p, if readable then CB.Success else CB.Failure));
    ghost var b1 := Play(t');
    assert b1 == b[p := b1[p]];
    t', ret, archive, ctx := PromoteToArchive(t', pool, tried, attempts);
    ArchiveAfterRace(b, b1, Play(t'), ups, race, p, tried, ret, readable);
    if ret == Error && readable {
      ret := Returned(p, false, false);
    }
  }

  lemma ArchiveAfterRace(b: Book, b1: Book, b2: Book, ups: seq<Upstream>, race: Race, p: nat, tried: set<string>, ret: Return, readable: bool)
    requires Distinct(ups) && RaceInv(b, ups, race, Some(p), tried)
    requires forall k :: 0 <= k < |race| ==> race[k] == Taken
    requires b1 == b[p := b[p].(body := Shut, token := Settled(if readable then CB.Success else CB.Failure))]
    requires ArchiveResult(b1, b2, tried, ret)
    ensures HedgeResult(b2, ups, race, if ret == Error && readable then Returned(p, false, false) else ret, Some(p))
    ensures b2[p] == b1[p]
  {
    forall k | 0 <= k < |b| ensures b2[k] == b1[k] {
      assert b2[..|b1|][k] == b2[k];
    }
  }

  lemma RaceWon(b: Book, ups: seq<Upstream>, race: Race, idx: nat, keepPruned: bool)
    requires Distinct(ups) && Won(b, ups, race, idx, keepPruned)
    ensures HedgeResult(b, ups, race, Returned(idx, true, true), None)
  {
  }

  lemma RaceLeft(b: Book, ups: seq<Upstream>, race: Race, tried: set<string>)
    requires Distinct(ups) && RaceInv(b, ups, race, None, tried)
    ensures HedgeResult(b, ups, race, Error, None)
  {
  }

  lemma Fired(b: Book, ups: seq<Upstream>, race: Race, pruning: Option<nat>, tried: set<string>)
    requires RaceInv(b, ups, race, pruning, tried) && |race| < |ups| && NoneBelow500(b, race, pruning)
    ensures RaceInv(b + [Attempt(ups[|race|], NoToken, Waiting, None)], ups, race + [Pending], pruning, tried)
    ensures NoneBelow500(b + [Attempt(ups[|race|], NoToken, Waiting, None)], race + [Pending], pruning)
  {
    var b', race' := b + [Attempt(ups[|race|], NoToken, Waiting, None)], race + [Pending];
    assert forall k :: 0 <= k < |b| ==> b'[k] == b[k] && race'[k] == race[k];
    assert AtStage(b'[|b|], race'[|b|]);
  }

  lemma Stepped(b: Book, b': Book, ups: seq<Upstream>, race: Race, race': Race, pruning: Option<nat>, tried: set<string>, idx: nat)
    requires RaceInv(b, ups, race, pruning, tried) && idx < |race| && race[idx] != Taken && NoneBelow500(b, race, pruning)
    requires |b'| == |b| && b' == b[idx := b'[idx]] && b'[idx].u == b[idx].u
    requires |race'| == |race| && race' == race[idx := race'[idx]] && race'[idx] != Taken && InRace(b', race')
    ensures RaceInv(b', ups, race', pruning, tried) && NoneBelow500(b', race', pruning)
  {
  }

  /** One turn of the select loop: a goroutine moves, a result is received, the timer fires, or the client is gone. */
  method RaceTurn(t: Trace, ups: seq<Upstream>, maxFire: nat, race: Race, pruning: Option<nat>, tried: set<string>, keepPruned: bool, gone: bool)
    returns (t': Trace, race': Race, pruning': Option<nat>, tried': set<string>, ret: Option<Return>)
    requires Distinct(ups) && 1 <= |race| <= maxFire <= |ups| && (Cost(race) > 0 || |race| < maxFire)
    requires Follows(t) && RaceInv(Play(t), ups, race, pruning, tried) && NoneBelow500(Play(t), race, pruning) && Received(ups, race, tried)
    ensures Follows(t') && |race| <= |race'| <= maxFire
    ensures ret == None ==>
              && RaceInv(Play(t'), ups, race', pruning', tried')
              && NoneBelow500(Play(t'), race', pruning') && Received(ups, race', tried')
              && 4 * (maxFire - |race'|) + Cost(race') < 4 * (maxFire - |race|) + Cost(race)
    ensures ret.Some? ==>
              && HedgeResult(Play(t'), ups, race', ret.value, None)
              && (ret.value.Returned? && keepPruned ==> !GotPruned(Play(t')[ret.value.k]))
              && (ret.value == Error ==> gone)
  {
    t', race', pruning', tried', ret := t, race, pruning, tried, None;
    if gone {
      t' := DropPruned(t, ups, race, pruning, tried);
      RaceLeft(Play(t'), ups, race, tried);
      ret := Some(Error);
      return;
    }
    var timer: bool := *;
    if |race| < maxFire && (timer || Cost(race) == 0) {
      t', race' := Fire(t, ups, race, pruning, tried);
      return;
    }
    CostZero(race);
    var idx :| 0 <= idx < |race| && race[idx] != Taken;
    if race[idx] == Arrived {
      t', race', pruning', tried', ret := TakeResult(t, ups, race, pruning, tried, idx, keepPruned);
      CostUpdate(race, idx, Taken);
    } else {
      t', race' := Move(t, ups, race, pruning, tried, idx);
    }
  }

  /** The timer fires the next attempt. */
  method Fire(t: Trace, ups: seq<Upstream>, race: Race, ghost pruning: Option<nat>, ghost tried: set<string>) returns (t': Trace, race': Race)
    requires |race| < |ups|
    requires Follows(t) && RaceInv(Play(t), ups, race, pruning, tried) && NoneBelow500(Play(t), race, pruning) && Received(ups, race, tried)
    ensures Follows(t') && race' == race + [Pending] && Cost(race') == Cost(race) + 3
    ensures RaceInv(Play(t'), ups, race', pruning, tried) && NoneBelow500(Play(t'), race', pruning) && Received(ups, race', tried)
  {
    Fired(Play(t), ups, race, pruning, tried);
    t' := Log(t, Spawn(ups[|race|]));
    race' := race + [Pending];
    ReceivedSame(ups, race, race', tried);
    assert race'[..|race|] == race;
  }

  /** A goroutine gets on. */
  method Move(t: Trace, ups: seq<Upstream>, race: Race, ghost pruning: Option<nat>, ghost tried: set<string>, idx: nat) returns (t': Trace, race': Race)
    requires idx < |race| && race[idx] in {Pending, Flying}
    requires Follows(t) && RaceInv(Play(t), ups, race, pruning, tried) && NoneBelow500(Play(t), race, pruning) && Received(ups, race, tried)
    ensures Follows(t') && |race'| == |race| && Cost(race') < Cost(race)
    ensures RaceInv(Play(t'), ups, race', pruning, tried) && NoneBelow500(Play(t'), race', pruning) && Received(ups, race', tried)
  {
    t', race' := GoroutineStep(t, race, idx);
    Stepped(Play(t), Play(t'), ups, race, race', pruning, tried, idx);
    ReceivedSame(ups, race, race', tried);
  }

  /** A result is taken out of the channel. */
  method TakeResult(t: Trace, ups: seq<Upstream>, race: Race, pruning: Option<nat>, tried: set<string>, idx: nat, keepPruned: bool)
    returns (t': Trace, race': Race, pruning': Option<nat>, tried': set<string>, ret: Option<Return>)
    requires Distinct(ups) && idx < |race| <= |ups| && race[idx] == Arrived
    requires Follows(t) && RaceInv(Play(t), ups, race, pruning, tried) && NoneBelow500(Play(t), race, pruning) && Received(ups, race, tried)
    ensures Follows(t') && race' == race[idx := Taken]
    ensures ret == None ==>
              && RaceInv(Play(t'), ups, race', pruning', tried')
              && NoneBelow500(Play(t'), race', pruning') && Received(ups, race', tried')
    ensures ret.Some? ==>
              && ret.value == Returned(idx, true, true)
              && HedgeResult(Play(t'), ups, race', ret.value, None)
              && (keepPruned ==> !GotPruned(Play(t')[idx]))
  {
    var won;
    t', pruning', won := Receive(t, ups, race, pruning, tried, idx, keepPruned);
    race', tried', ret := race[idx := Taken], tried + {ups[idx].id}, None;
    ReceivedOne(ups, race, tried, idx);
    if won {
      RaceWon(Play(t'), ups, race', idx, keepPruned);
      ret := Some(Returned(idx, true, true));
    }
  }

  /** The first attempt, fired at once. */
  method StartRace(ups: seq<Upstream>) returns (t: Trace, race: Race)
    requires ups != []
    ensures Follows(t) && race == [Pending] && RaceInv(Play(t), ups, race, None, {})
  {
    t := Log([], Spawn(ups[0]));
    race := [Pending];
    Fired([], ups, [], None, {});
    assert [] + [Pending] == race;
  }

  /** Everything is received and nothing won: the pruned answer kept back, if any, decides. */
  method FinishRace(t: Trace, pool: seq<Upstream>, ghost ups: seq<Upstream>, race: Race, pruning: Option<nat>, tried: set<string>, attempts: nat, readable: bool)
    returns (t': Trace, ret: Return, ghost archive: seq<Upstream>, ghost ctx: Context)
    requires Follows(t) && Distinct(pool) && Distinct(ups) && RaceInv(Play(t), ups, race, pruning, tried) && Cost(race) == 0
    ensures Follows(t') && HedgeResult(Play(t'), ups, race, ret, pruning)
    ensures ret.Returned? && GotPruned(Play(t')[ret.k]) ==> pruning == Some(ret.k)
    ensures pruning == None ==> t' == t && ret == Error
    ensures pruning.Some? ==>
              && Play(t')[pruning.value].token == Settled(if readable then CB.Success else CB.Failure)
              && Picked(Archives(pool), ctx, false, {}, if attempts < 1 then 1 else attempts, archive)
              && ArchiveTail(Play(t'), |race|, tried, archive, ret)
  {
    CostZero(race);
    if pruning.Some? {
      t', ret, archive, ctx := AfterRace(t, pool, ups, race, pruning.value, tried, attempts, readable);
    } else {
      var at: Context := *;
      t', ret, archive, ctx := t, Error, [], at;
    }
  }

  /** The race until it is decided, left or over; `left(n)` says whether the client is gone by turn `n`. */
  method RunRace(ups: seq<Upstream>, maxFire: nat, keepPruned: bool, left: nat -> bool)
    returns (t: Trace, race: Race, pruning: Option<nat>, tried: set<string>, done: Option<Return>)
    requires Distinct(ups) && 1 <= maxFire <= |ups|
    ensures Follows(t) && 1 <= |race| <= maxFire
    ensures done.Some? ==>
              && HedgeResult(Play(t), ups, race, done.value, None)
              && (done.value.Returned? && keepPruned ==> !GotPruned(Play(t)[done.value.k]))
              && (done.value == Error ==> exists n: nat :: left(n))
    ensures done == None ==>
              && |race| == maxFire && Cost(race) == 0 && Received(ups, race, tried)
              && RaceInv(Play(t), ups, race, pruning, tried) && NoneBelow500(Play(t), race, pruning)
  {
    t, race := StartRace(ups);
    pruning, tried, done := None, {}, None;
    var turn := 0;
    while Cost(race) > 0 || |race| < maxFire
      invariant 1 <= |race| <= maxFire && done == None && Received(ups, race, tried)
      invariant Follows(t) && RaceInv(Play(t), ups, race, pruning, tried) && NoneBelow500(Play(t), race, pruning)
      decreases 4 * (maxFire - |race|) + Cost(race)
    {
      t, race, pruning, tried, done := RaceTurn(t, ups, maxFire, race, pruning, tried, keepPruned, left(turn));
      if done.Some? {
        return;
      }
      turn := turn + 1;
    }
  }

  /** The race is over: everything fired was received, and no answer below 500 is left but one that could not be read. */
  ghost predicate NothingCame(b: Book, race: Race, read: Option<nat>) {
    && (forall k :: 0 <= k < |race| ==> race[k] == Taken)
    && (read == None ==> forall k :: 0 <= k < |b| ==> !Succeeded(b[k]))
    && (read.Some? ==> read.value < |b| && b[read.value].token == Settled(CB.Failure))
  }

  /** The racers in their order, with the forks and readiness that decided it, and the archive candidates that follow the race. */
  datatype Lineup = Lineup(ups: seq<Upstream>, forked: set<string>, ready: set<string>, archive: seq<Upstream>, archiveCtx: Context)

  /**
   A hedged dispatch. `left(n)` says whether the client is gone by turn `n` of the
   race, `readable` whether the body of a pruned answer kept back can be read.
   Unless the client is gone the dispatch fails only if nothing came of all it
   fired.
   */
  method ExecuteHedge(pool: seq<Upstream>, sel: seq<Upstream>, maxCount: nat, preferID: string, maxAttempts: nat, archiveBiased: bool, left: nat -> bool, readable: bool)
    returns (t: Trace, ret: Return, race: Race, gone: bool, ghost line: Lineup, ghost read: Option<nat>)
    requires Distinct(pool) && Distinct(sel) && |sel| >= 2 && forall u :: u in sel ==> u in pool
    ensures forall u :: u in line.ups ==> u in pool && (u in sel || (preferID != "" && u.id == preferID))
    ensures Fronted(pool, sel, preferID, if maxCount + 1 > |sel| then |sel| else maxCount + 1, line.forked, line.ready, line.ups)
    ensures Follows(t) && HedgeResult(Play(t), line.ups, race, ret, read)
    ensures |race| <= maxCount + 1
    ensures gone ==> ret == Error && exists n: nat :: left(n)
    ensures read.Some? ==>
              && Play(t)[read.value].token == Settled(if readable then CB.Success else CB.Failure)
              && Picked(Archives(pool), line.archiveCtx, false, {}, if |race| < maxAttempts then maxAttempts else |race|, line.archive)
              && ArchiveTail(Play(t), |race|, Ids(line.ups[..|race|]), line.archive, ret)
    ensures !gone && ret == Error ==> NothingCame(Play(t), race, read) && |race| == if maxCount + 1 > |sel| then |sel| else maxCount + 1
    ensures ret.Returned? && GotPruned(Play(t)[ret.k]) ==> read == Some(ret.k) || archiveBiased || !HasArchive(pool)
  {
    var maxFire := if maxCount + 1 > |sel| then |sel| else maxCount + 1;
    var forked: set<string> := *;
    var ready: set<string> := *;
    var order := EnsurePreferredFirst(pool, sel, preferID, maxFire, forked, ready);
    ghost var archive, ctx;
    t, ret, race, gone, read, archive, ctx := RaceToEnd(pool, order, maxFire, !archiveBiased && HasArchive(pool), maxAttempts, left, readable);
    line := Lineup(order, forked, ready, archive, ctx);
  }

  /** The race and what follows it. */
  method RaceToEnd(pool: seq<Upstream>, ups: seq<Upstream>, maxFire: nat, keepPruned: bool, maxAttempts: nat, left: nat -> bool, readable: bool)
    returns (t: Trace, ret: Return, race: Race, gone: bool, ghost read: Option<nat>, ghost archive: seq<Upstream>, ghost ctx: Context)
    requires Distinct(pool) && Distinct(ups) && 1 <= maxFire <= |ups|
    ensures Follows(t) && HedgeResult(Play(t), ups, race, ret, read) && |race| <= maxFire
    ensures gone ==> ret == Error && exists n: nat :: left(n)
    ensures !gone && ret == Error ==> NothingCame(Play(t), race, read) && |race| == maxFire
    ensures read.Some? ==>
              && |race| == maxFire
              && Play(t)[read.value].token == Settled(if readable then CB.Success else CB.Failure)
              && Picked(Archives(pool), ctx, false, {}, if maxFire < maxAttempts then maxAttempts else maxFire, archive)
              && ArchiveTail(Play(t), |race|, Ids(ups[..|race|]), archive, ret)
    ensures ret.Returned? && GotPruned(Play(t)[ret.k]) ==> read == Some(ret.k) || !keepPruned
  {
    var pruning, tried, done;
    t, race, pruning, tried, done := RunRace(ups, maxFire, keepPruned, left);
    gone := done == Some(Error);
    if done.Some? {
      var at: Context := *;
      return t, done.value, race, gone, None, [], at;
    }
    CostZero(race);
    ReceivedAll(ups, race, tried);
    read := pruning;
    t, ret, archive, ctx := FinishRace(t, pool, ups, race, pruning, tried, if maxFire < maxAttempts then maxAttempts else maxFire, readable);
  }
}
