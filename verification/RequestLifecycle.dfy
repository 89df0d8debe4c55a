/**
 A request from dispatch to the last body closed: the dispatch loops, the
 consumer that reads and settles what they return, and the drain of a hedged
 race running beside it.
 */
module RequestLifecycle {
  import opened Options
  import opened Selection
  import opened PoolOrder
  import opened Ledger
  import opened Dispatch
  import opened Sequential
  import opened ArchivePass
  import opened Hedge
  import opened Interleaving
  import CB = CircuitBreaker

  datatype Consumer = Handler | Multiplexed | Prewarm

  datatype Reading = ReadInFull | Broken(clientGone: bool)

  /** The consumers and statuses for which a read that was cancelled is the upstream's fault all the same. */
  predicate ChargesCancelledRead(c: Consumer, status: nat) {
    c == Multiplexed || (c == Prewarm && (status >= 500 || 200 <= status < 300))
  }

  /** How a consumer settles what it was handed: by status once read, never a success unread. */
  function ConsumerVerdict(c: Consumer, status: nat, r: Reading): (o: CB.Outcome)
    ensures o == CB.Success <==> r == ReadInFull && status < 500 && (c == Prewarm ==> 200 <= status < 300)
    ensures o == CB.Failure ==> r.Broken? || status >= 500
    ensures o == CB.Release ==> (c == Prewarm && !(200 <= status < 300) && status < 500) || r == Broken(true)
    ensures r == Broken(true) ==> (o == CB.Failure <==> ChargesCancelledRead(c, status))
    ensures status >= 500 && r != Broken(true) ==> o == CB.Failure
  {
    match c
    case Prewarm =>
      if !(200 <= status < 300) then (if status >= 500 then CB.Failure else CB.Release)
      else if r == ReadInFull then CB.Success else CB.Failure
    case Handler =>
      if r == Broken(true) then CB.Release
      else if r.Broken? || status >= 500 then CB.Failure
      else CB.Success
    case Multiplexed =>
      if r.Broken? || status >= 500 then CB.Failure else CB.Success
  }

  /** The body is closed and the token settled; `pc` counts how much of it is done. */
  ghost predicate ConsumerAt(b: Book, ret: Return, pc: nat, closeFirst: bool, o: CB.Outcome) {
    ret.Returned? ==>
      && ret.k < |b|
      && IsAnswer(b[ret.k]) && b[ret.k].body !in {Waiting, InFlight}
      && (b[ret.k].body == Opened ==> ret.bodyOpen && (if closeFirst then pc == 0 else pc <= 1))
      && (ret.bodyOpen && (if closeFirst then pc == 0 else pc <= 1) ==> b[ret.k].body == Opened)
      && (b[ret.k].token == Held <==> ret.tokenHeld && (if closeFirst then pc <= 1 else pc == 0))
      && (ret.tokenHeld && b[ret.k].token != Held ==> b[ret.k].token == Settled(o))
  }

  /** Drained losers are released, never charged or credited. */
  ghost predicate Drained(b: Book, start: Race, race: Race) {
    && |race| == |start| <= |b|
    && forall k :: 0 <= k < |race| && start[k] != Taken && race[k] == Taken ==>
         Quiet(b[k]) && (b[k].token == NoToken || b[k].token == Settled(CB.Release))
  }

  ghost predicate WindingDown(b: Book, start: Race, race: Race, ret: Return, pc: nat, closeFirst: bool, o: CB.Outcome) {
    && InRace(b, race)
    && Drained(b, start, race)
    && (ret.Returned? && ret.k < |race| ==> race[ret.k] == Taken && start[ret.k] == Taken)
    && ConsumerAt(b, ret, pc, closeFirst, o)
    && forall k :: 0 <= k < |b| && (k < |race| ==> race[k] == Taken) && !(ret.Returned? && ret.k == k) ==> Quiet(b[k])
  }

  method ConsumerStep(t: Trace, ret: Return, pc: nat, closeFirst: bool, o: CB.Outcome) returns (t': Trace)
    requires Follows(t) && pc < 2 && ConsumerAt(Play(t), ret, pc, closeFirst, o)
    ensures Follows(t') && ConsumerAt(Play(t'), ret, pc + 1, closeFirst, o)
    ensures |Play(t')| == |Play(t)|
    ensures ret.Returned? ==> Play(t')[ret.k].reply == Play(t)[ret.k].reply
    ensures ret.Returned? && !ret.tokenHeld ==> Play(t')[ret.k].token == Play(t)[ret.k].token
    ensures forall k :: 0 <= k < |Play(t)| && !(ret.Returned? && ret.k == k) ==> Play(t')[k] == Play(t)[k]
  {
    t' := t;
    if ret.Returned? {
      if (pc == 0) == closeFirst {
        if ret.bodyOpen {
          t' := Log(t, Close(ret.k));
        }
      } else if ret.tokenHeld {
        t' := Log(t, Settle(ret.k, o));
      }
    }
  }

  method DrainStep(t: Trace, ghost start: Race, race: Race, idx: nat) returns (t': Trace, race': Race)
    requires Follows(t) && InRace(Play(t), race) && Drained(Play(t), start, race)
    requires idx < |race| && race[idx] != Taken && start[idx] != Taken
    ensures Follows(t') && InRace(Play(t'), race') && Drained(Play(t'), start, race')
    ensures |Play(t')| == |Play(t)| && Play(t') == Play(t)[idx := Play(t')[idx]]
    ensures |race'| == |race| && race' == race[idx := race'[idx]] && Cost(race') < Cost(race)
    ensures race'[idx] == Taken ==> Quiet(Play(t')[idx])
  {
    if race[idx] == Arrived {
      t' := Conclude(t, idx, CB.Release);
      CostUpdate(race, idx, Taken);
      race' := race[idx := Taken];
    } else {
      t', race' := GoroutineStep(t, race, idx);
    }
  }

  /** Attempts outside the race keep what is known of them; all but the returned one keep everything. */
  ghost predicate Untold(b: Book, b': Book, start: Race, ret: Return) {
    && |b'| == |b|
    && (forall k :: 0 <= k < |b| && (k < |start| ==> start[k] == Taken) ==> b'[k].reply == b[k].reply)
    && (forall k :: 0 <= k < |b| && (k < |start| ==> start[k] == Taken) && !(ret.Returned? && ret.k == k) ==> b'[k] == b[k])
    && (ret.Returned? && ret.k < |b| && !ret.tokenHeld ==> b'[ret.k].token == b[ret.k].token)
  }

  ghost predicate WindInv(b: Book, b': Book, start: Race, race: Race, ret: Return, pc: nat, closeFirst: bool, o: CB.Outcome) {
    && |race| == |start|
    && (forall k :: 0 <= k < |race| && start[k] == Taken ==> race[k] == Taken)
    && WindingDown(b', start, race, ret, pc, closeFirst, o)
    && Untold(b, b', start, ret)
  }

  lemma WindEnds(b: Book, b': Book, start: Race, race: Race, ret: Return, closeFirst: bool, o: CB.Outcome)
    requires WindInv(b, b', start, race, ret, 2, closeFirst, o) && Cost(race) == 0
    ensures AllQuiet(b')
    ensures ret.Returned? && ret.tokenHeld ==> b'[ret.k].token == Settled(o)
    ensures forall k :: 0 <= k < |start| && start[k] != Taken ==> b'[k].token == NoToken || b'[k].token == Settled(CB.Release)
  {
    CostZero(race);
    forall k | 0 <= k < |b'| ensures Quiet(b'[k]) {
      if ret.Returned? && ret.k == k {
      } else {
        assert k < |race| ==> race[k] == Taken;
      }
    }
  }

  lemma DrainKeeps(b: Book, b1: Book, b2: Book, start: Race, race: Race, race': Race, ret: Return, pc: nat, closeFirst: bool, o: CB.Outcome, idx: nat)
    requires WindInv(b, b1, start, race, ret, pc, closeFirst, o)
    requires idx < |race| && race[idx] != Taken
    requires InRace(b2, race') && Drained(b2, start, race')
    requires |b2| == |b1| && b2 == b1[idx := b2[idx]]
    requires |race'| == |race| && race' == race[idx := race'[idx]]
    requires race'[idx] == Taken ==> Quiet(b2[idx])
    ensures WindInv(b, b2, start, race', ret, pc, closeFirst, o)
  {
  }

  /** The consumer or the drain makes one step. */
  method WindStep(ghost b: Book, t: Trace, ghost start: Race, race: Race, ret: Return, pc: nat, closeFirst: bool, o: CB.Outcome)
    returns (t': Trace, race': Race, pc': nat)
    requires Follows(t) && pc <= 2 && WindInv(b, Play(t), start, race, ret, pc, closeFirst, o) && (Cost(race) > 0 || pc < 2)
    ensures Follows(t') && pc' <= 2 && WindInv(b, Play(t'), start, race', ret, pc', closeFirst, o)
    ensures Cost(race') + 2 - pc' < Cost(race) + 2 - pc
  {
    var consumerFirst: bool := *;
    t', race', pc' := t, race, pc;
    if pc < 2 && (consumerFirst || Cost(race) == 0) {
      t' := ConsumerStep(t, ret, pc, closeFirst, o);
      pc' := pc + 1;
    } else {
      CostZero(race);
      var idx :| 0 <= idx < |race| && race[idx] != Taken;
      t', race' := DrainStep(t, start, race, idx);
      DrainKeeps(b, Play(t), Play(t'), start, race, race', ret, pc, closeFirst, o, idx);
    }
  }

  /** The consumer and the drain side by side, in any order, until both are through. */
  method WindDown(t: Trace, start: Race, ret: Return, closeFirst: bool, o: CB.Outcome) returns (t': Trace)
    requires Follows(t) && RaceResult(Play(t), start, ret)
    ensures Follows(t') && AllQuiet(Play(t')) && Untold(Play(t), Play(t'), start, ret)
    ensures ret.Returned? && ret.tokenHeld ==> Play(t')[ret.k].token == Settled(o)
    ensures forall k :: 0 <= k < |start| && start[k] != Taken ==>
              Play(t')[k].token == NoToken || Play(t')[k].token == Settled(CB.Release)
  {
    t' := t;
    var race, pc := start, 0;
    while Cost(race) > 0 || pc < 2
      invariant pc <= 2 && Follows(t') && WindInv(Play(t), Play(t'), start, race, ret, pc, closeFirst, o)
      decreases Cost(race) + 2 - pc
    {
      t', race, pc := WindStep(Play(t), t', start, race, ret, pc, closeFirst, o);
    }
    WindEnds(Play(t), Play(t'), start, race, ret, closeFirst, o);
  }

  // ---------------------------------------------------------------------
  // Whole requests
  // ---------------------------------------------------------------------

  datatype Route =
    | ToUpstream(id: string)
    | ToSelector(matching: set<string>)
    | Hedged(maxCount: nat)
    | Sequentially

  lemma AccountedIsRaceResult(b: Book, ret: Return)
    requires Accounted(b, ret)
    ensures RaceResult(b, [], ret)
  {
  }

  ghost predicate ArchiveOnly(b: Book) {
    forall k :: 0 <= k < |b| ==> b[k].u.archive
  }

  lemma HedgeIsFair(b: Book, ups: seq<Upstream>, race: Race, ret: Return, read: Option<nat>)
    requires HedgeResult(b, ups, race, ret, read)
    ensures AllFair(b) && forall k :: 0 <= k < |b| ==> FairlyCharged(b[k], true)
  {
    forall k | 0 <= k < |b| ensures Fair(b[k]) && FairlyCharged(b[k], true) {
      if k < |race| && race[k] != Taken {
        assert AtStage(b[k], race[k]);
      }
    }
  }

  lemma HedgeIsArchive(b: Book, ups: seq<Upstream>, race: Race, ret: Return, read: Option<nat>)
    requires HedgeResult(b, ups, race, ret, read) && forall u :: u in ups ==> u.archive
    ensures ArchiveOnly(b)
  {
    forall k | 0 <= k < |b| ensures b[k].u.archive {
      if k < |race| {
        assert b[k].u == ups[k] && ups[k] in ups;
      }
    }
  }

  /** Whoever is at fault and not left to the consumer or to the drain is charged. */
  ghost predicate Charged(b: Book, race: Race, ret: Return) {
    forall k :: 0 <= k < |b| && (k < |race| ==> race[k] == Taken) && !HandedOver(ret, k) && AtFault(b[k]) ==> b[k].token == Settled(CB.Failure)
  }

  /** A reply comes only to an attempt that was admitted with a token. */
  ghost predicate Backed(b: Book) {
    forall k :: 0 <= k < |b| && b[k].reply.Some? ==> b[k].token != NoToken
  }

  lemma {:induction false} RepliesBacked(t: Trace)
    requires Follows(t)
    ensures Backed(Play(t)) && forall k :: 0 <= k < |Play(t)| && Play(t)[k].body == InFlight ==> Play(t)[k].token != NoToken
  {
    if t != [] {
      RepliesBacked(t[..|t| - 1]);
    }
  }

  lemma HedgeCharges(b: Book, ups: seq<Upstream>, race: Race, ret: Return, read: Option<nat>)
    requires HedgeResult(b, ups, race, ret, read) && Backed(b)
    ensures Charged(b, race, ret)
  {
    forall k | 0 <= k < |b| && (k < |race| ==> race[k] == Taken) && !HandedOver(ret, k) && AtFault(b[k]) ensures b[k].token == Settled(CB.Failure) {
      assert Done(b[k]);
      DoneMeans(b[k]);
    }
  }

  lemma PinnedCharges(b: Book, ups: seq<Upstream>, ret: Return, gone: bool)
    requires PinnedResult(b, ups, ret, gone) && Backed(b)
    ensures Charged(b, [], ret)
  {
    forall k | 0 <= k < |b| && !HandedOver(ret, k) && AtFault(b[k]) ensures b[k].token == Settled(CB.Failure) {
      if !(ret.Returned? && ret.k == k) {
        DoneMeans(b[k]);
      }
    }
  }

  lemma DoneCharges(b: Book, ret: Return)
    requires Backed(b) && forall k :: 0 <= k < |b| && !HandedOver(ret, k) ==> Done(b[k])
    ensures Charged(b, [], ret)
  {
    forall k | 0 <= k < |b| && !HandedOver(ret, k) && AtFault(b[k]) ensures b[k].token == Settled(CB.Failure) {
      DoneMeans(b[k]);
    }
  }

  // ---------------------------------------------------------------------
  // Routes
  // ---------------------------------------------------------------------

  /**
   A request, with what the world does to it: `left(n)` says whether the client is
   gone at the `n`-th wait or turn, `readable` whether a pruned answer kept back can
   be read, `reading` how the read of the returned body goes.
   */
  datatype Request = Request(
    pool: seq<Upstream>,
    route: Route,
    requiresArchive: bool,
    preferHead: bool,
    preferID: string,
    maxAttempts: nat,
    retry: bool,
    consumer: Consumer,
    left: nat -> bool,
    readable: bool,
    reading: Reading)
  {
    predicate Proactive() {
      HasArchive(pool) && requiresArchive
    }

    function Preference(): string {
      ArchivePreference(pool, Proactive(), preferID)
    }
  }

  /** How a request was dispatched. */
  datatype How =
    | Pinned
    | OneByOne(ups: seq<Upstream>, ctx: Context, gone: bool)
    | Raced(sel: seq<Upstream>, ctx: Context, seen: set<string>, line: Lineup, read: Option<nat>, gone: bool)
    | InTurn(promoted: Option<nat>, gone: bool, plan: Plan, sel: seq<Upstream>, ctx: Context, seen: set<string>)

  function Matches(matching: set<string>): Upstream -> bool {
    (u: Upstream) => u.id in matching
  }

  /** The selection a hedged or sequential request starts from. */
  ghost predicate StartsFrom(q: Request, n: nat, ctx: Context, seen: set<string>, sel: seq<Upstream>) {
    if q.Proactive() then Picked(Archives(q.pool), ctx, false, {}, n, sel) else Picked(q.pool, ctx, q.preferHead, seen, n, sel)
  }

  ghost predicate PinnedRoute(q: Request, b: Book, ret: Return) {
    && q.route.ToUpstream?
    && |b| == (if ByID(q.pool, q.route.id).Some? then 1 else 0)
    && (forall k :: 0 <= k < |b| ==> b[k].u.id == q.route.id)
    && (ret == Error <==> forall k :: 0 <= k < |b| ==> !IsAnswer(b[k]))
  }

  ghost predicate SelectorRoute(q: Request, b: Book, ret: Return, ups: seq<Upstream>, ctx: Context, gone: bool) {
    && q.route.ToSelector?
    && Picked(Keep(q.pool, Matches(q.route.matching)), ctx, false, {}, q.maxAttempts, ups)
    && PinnedResult(b, ups, ret, gone)
    && (gone ==> b != [] && (Cancelled(b[|b| - 1]) || (q.retry && |b| < |ups| && q.left(|b|))))
  }

  ghost predicate RacedRoute(q: Request, b: Book, ret: Return, race: Race, how: How)
    requires how.Raced?
  {
    && q.route.Hedged? && |how.sel| > 1
    && StartsFrom(q, q.route.maxCount + 1, how.ctx, how.seen, how.sel)
    && Fronted(q.pool, how.sel, q.Preference(), if q.route.maxCount + 1 > |how.sel| then |how.sel| else q.route.maxCount + 1,
               how.line.forked, how.line.ready, how.line.ups)
    && HedgeResult(b, how.line.ups, race, ret, how.read)
    && (how.gone ==> ret == Error && exists n: nat :: q.left(n))
    && (!how.gone && ret == Error ==> NothingCame(b, race, how.read))
    && (how.read.Some? ==> ArchiveTail(b, |race|, Ids(how.line.ups[..|race|]), how.line.archive, ret))
  }

  ghost predicate InTurnResult(q: Request, b: Book, ret: Return, promoted: Option<nat>, gone: bool, plan: Plan) {
    && ChosenFirst(q.pool, q.Proactive(), q.preferHead, q.Preference(), q.maxAttempts, plan.choice, plan.first)
    && Outcome(q.pool, q.requiresArchive, q.maxAttempts, q.retry, q.left, b, ret, promoted, gone, plan)
  }

  /** A hedged request goes one by one only if there are not two candidates to race. */
  ghost predicate InTurnRoute(q: Request, b: Book, ret: Return, how: How)
    requires how.InTurn?
  {
    && (q.route.Sequentially? ||
        (q.route.Hedged? && |how.sel| <= 1 && StartsFrom(q, q.route.maxCount + 1, how.ctx, how.seen, how.sel)))
    && InTurnResult(q, b, ret, how.promoted, how.gone, how.plan)
  }

  /** The request went the way its route says, and what came of it is what that way promises. */
  ghost predicate Routed(q: Request, b: Book, ret: Return, race: Race, how: How) {
    match how
    case Pinned => PinnedRoute(q, b, ret)
    case OneByOne(ups, ctx, gone) => SelectorRoute(q, b, ret, ups, ctx, gone)
    case Raced(_, _, _, _, _, _) => RacedRoute(q, b, ret, race, how)
    case InTurn(_, _, _, _, _, _) => InTurnRoute(q, b, ret, how)
  }

  /** What every route leaves behind. */
  ghost predicate Settles(q: Request, b: Book, ret: Return, race: Race) {
    && RaceResult(b, race, ret)
    && AllFair(b)
    && DistinctAttempts(b)
    && (forall k :: 0 <= k < |b| ==> FairlyCharged(b[k], q.route.Hedged?))
    && Charged(b, race, ret)
    && ((q.route.Hedged? || q.route.Sequentially?) && q.Proactive() ==> ArchiveOnly(b))
  }

  /** A race of at least two candidates. */
  method ExecuteRace(q: Request, maxCount: nat, sel: seq<Upstream>, ghost ctx: Context, ghost seen: set<string>)
    returns (t: Trace, ret: Return, race: Race, ghost how: How)
    requires Distinct(q.pool) && q.route == Hedged(maxCount) && |sel| > 1 && Distinct(sel) && StartsFrom(q, maxCount + 1, ctx, seen, sel)
    requires forall u :: u in sel ==> u in q.pool && (q.Proactive() ==> u.archive)
    ensures Follows(t) && Routed(q, Play(t), ret, race, how) && Settles(q, Play(t), ret, race)
  {
    var gone;
    ghost var line, read;
    t, ret, race, gone, line, read := ExecuteHedge(q.pool, sel, maxCount, q.Preference(), q.maxAttempts, q.Proactive(), q.left, q.readable);
    how := Raced(sel, ctx, seen, line, read, gone);
    RepliesBacked(t);
    HedgeSettles(q, Play(t), ret, race, line.ups, read, sel);
  }

  lemma HedgeSettles(q: Request, b: Book, ret: Return, race: Race, ups: seq<Upstream>, read: Option<nat>, sel: seq<Upstream>)
    requires HedgeResult(b, ups, race, ret, read) && Backed(b) && q.route.Hedged? && Distinct(q.pool)
    requires forall u :: u in sel ==> q.Proactive() ==> u.archive
    requires forall u :: u in ups ==> u in q.pool && (u in sel || (q.Preference() != "" && u.id == q.Preference()))
    ensures Settles(q, b, ret, race)
  {
    HedgeCharges(b, ups, race, ret, read);
    HedgeIsFair(b, ups, race, ret, read);
    if q.Proactive() {
      forall u | u in ups ensures u.archive {
      }
      HedgeIsArchive(b, ups, race, ret, read);
    }
  }

  /** One candidate after the other. */
  method ExecuteInTurn(q: Request) returns (t: Trace, ret: Return, promoted: Option<nat>, gone: bool, ghost plan: Plan)
    requires Distinct(q.pool) && q.maxAttempts >= 1
    ensures Follows(t) && InTurnResult(q, Play(t), ret, promoted, gone, plan) && Settles(q, Play(t), ret, [])
  {
    t, ret, promoted, gone, plan := ExecuteSequential(q.pool, q.requiresArchive, q.preferHead, q.preferID, q.maxAttempts, q.retry, q.left);
    RepliesBacked(t);
    SequenceSettles(q, Play(t), ret, promoted);
  }

  lemma SequenceSettles(q: Request, b: Book, ret: Return, promoted: Option<nat>)
    requires SequentialResult(q.pool, q.requiresArchive, q.maxAttempts, b, ret, promoted) && Backed(b)
    ensures Settles(q, b, ret, [])
  {
    AccountedIsRaceResult(b, ret);
    DoneCharges(b, ret);
    forall k | 0 <= k < |b| ensures Fair(b[k]) && FairlyCharged(b[k], q.route.Hedged?) {
      assert (ret.Returned? && ret.k == k) || Done(b[k]);
    }
  }

  method SelectFor(q: Request, n: nat) returns (sel: seq<Upstream>, ghost ctx: Context, ghost seen: set<string>)
    requires Distinct(q.pool)
    ensures StartsFrom(q, n, ctx, seen, sel) && Distinct(sel) && forall u :: u in sel ==> u in q.pool && (q.Proactive() ==> u.archive)
  {
    var at: Context := *;
    var reporters: set<string> := *;
    if q.Proactive() {
      sel := SelectArchive(q.pool, at, n);
    } else {
      sel := Select(q.pool, at, q.preferHead, reporters, n);
    }
    ctx, seen := at, reporters;
  }

  /** The hedged route races at least two candidates, or falls back to one at a time. */
  method ExecuteHedged(q: Request, maxCount: nat) returns (t: Trace, ret: Return, race: Race, ghost how: How)
    requires Distinct(q.pool) && q.maxAttempts >= 1 && q.route == Hedged(maxCount)
    ensures Follows(t) && Routed(q, Play(t), ret, race, how) && Settles(q, Play(t), ret, race)
  {
    ghost var ctx, seen;
    var ups;
    ups, ctx, seen := SelectFor(q, maxCount + 1);
    if |ups| > 1 {
      t, ret, race, how := ExecuteRace(q, maxCount, ups, ctx, seen);
      return;
    }
    race := [];
    t, ret, how := OneAtATime(q, ups, ctx, seen);
  }

  method OneAtATime(q: Request, ghost sel: seq<Upstream>, ghost ctx: Context, ghost seen: set<string>) returns (t: Trace, ret: Return, ghost how: How)
    requires Distinct(q.pool) && q.maxAttempts >= 1
    requires q.route.Sequentially? || (q.route.Hedged? && |sel| <= 1 && StartsFrom(q, q.route.maxCount + 1, ctx, seen, sel))
    ensures Follows(t) && Routed(q, Play(t), ret, [], how) && Settles(q, Play(t), ret, [])
  {
    var promoted, gone;
    ghost var plan;
    t, ret, promoted, gone, plan := ExecuteInTurn(q);
    how := InTurn(promoted, gone, plan, sel, ctx, seen);
  }

  lemma PinnedIsFair(b: Book, ups: seq<Upstream>, ret: Return, gone: bool)
    requires PinnedResult(b, ups, ret, gone) && Distinct(ups)
    ensures AllFair(b) && DistinctAttempts(b)
    ensures forall k :: 0 <= k < |b| ==> FairlyCharged(b[k], false) && b[k].u == ups[k]
  {
    forall k | 0 <= k < |b| ensures Fair(b[k]) && FairlyCharged(b[k], false) {
      assert (ret.Returned? && ret.k == k) || Done(b[k]);
    }
  }

  /** The upstreams a selector matches, in selection order, one at a time. */
  method ExecuteSelector(q: Request, matching: set<string>) returns (t: Trace, ret: Return, ghost how: How)
    requires Distinct(q.pool) && q.route == ToSelector(matching)
    ensures Follows(t) && Routed(q, Play(t), ret, [], how) && Settles(q, Play(t), ret, [])
  {
    KeepDistinct(q.pool, Matches(matching));
    var matched := Filter(q.pool, Matches(matching));
    var ctx: Context := *;
    var ups := Select(matched, ctx, false, {}, q.maxAttempts);
    var gone;
    t, ret, gone := ExecuteSelectedCandidates(ups, q.retry, q.left);
    how := OneByOne(ups, ctx, gone);
    RepliesBacked(t);
    PinnedIsFair(Play(t), ups, ret, gone);
    PinnedCharges(Play(t), ups, ret, gone);
    AccountedIsRaceResult(Play(t), ret);
  }

  method ExecuteByID(q: Request, id: string) returns (t: Trace, ret: Return, ghost how: How)
    requires q.route == ToUpstream(id)
    ensures Follows(t) && Routed(q, Play(t), ret, [], how) && Settles(q, Play(t), ret, [])
  {
    t, ret := ExecutePinned(q.pool, id);
    how := Pinned;
    RepliesBacked(t);
    AccountedIsRaceResult(Play(t), ret);
    DoneCharges(Play(t), ret);
  }

  method Execute(q: Request) returns (t: Trace, ret: Return, race: Race, ghost how: How)
    requires Distinct(q.pool) && q.maxAttempts >= 1
    ensures Follows(t) && Routed(q, Play(t), ret, race, how) && Settles(q, Play(t), ret, race)
  {
    race := [];
    match q.route {
      case ToUpstream(id) => t, ret, how := ExecuteByID(q, id);
      case ToSelector(matching) => t, ret, how := ExecuteSelector(q, matching);
      case Hedged(maxCount) => t, ret, race, how := ExecuteHedged(q, maxCount);
      case Sequentially =>
        var ctx: Context := *;
        t, ret, how := OneAtATime(q, [], ctx, {});
    }
  }

  /** The status the consumer of the returned attempt sees. */
  ghost function StatusSeen(b: Book, ret: Return): nat {
    if ret.Returned? && ret.k < |b| && IsAnswer(b[ret.k]) then b[ret.k].reply.value.status else 0
  }

  /** The attempt whose token the consumer settles. */
  ghost predicate HandedOver(ret: Return, k: int) {
    ret.Returned? && ret.tokenHeld && ret.k == k
  }

  /** The returned attempt is settled by its reading, everything else as it was left or, if it lost a race, released. */
  ghost predicate Finished(q: Request, b: Book, ret: Return, race: Race) {
    && AllQuiet(b) && AllFair(b)
    && (forall k :: 0 <= k < |b| && !HandedOver(ret, k) ==> FairlyCharged(b[k], q.route.Hedged?))
    && Charged(b, race, ret)
    && (ret.Returned? ==> ret.k < |b| && IsAnswer(b[ret.k]))
    && (ret.Returned? && ret.tokenHeld ==> b[ret.k].token == Settled(ConsumerVerdict(q.consumer, StatusSeen(b, ret), q.reading)))
  }

  lemma WindsDown(q: Request, b: Book, b': Book, ret: Return, race: Race, status: nat)
    requires Settles(q, b, ret, race) && AllQuiet(b') && Untold(b, b', race, ret)
    requires ret.Returned? ==> status == StatusSeen(b, ret)
    requires ret.Returned? && ret.tokenHeld ==> b'[ret.k].token == Settled(ConsumerVerdict(q.consumer, status, q.reading))
    requires forall k :: 0 <= k < |race| && race[k] != Taken ==> b'[k].token == NoToken || b'[k].token == Settled(CB.Release)
    ensures Finished(q, b', ret, race)
  {
    forall k | 0 <= k < |b| ensures Fair(b'[k]) && (HandedOver(ret, k) || FairlyCharged(b'[k], q.route.Hedged?)) {
      assert Fair(b[k]) && FairlyCharged(b[k], q.route.Hedged?);
    }
  }

  /**
   Whatever route a request takes and whatever happens on it, in the end it owes
   nothing and has credited only answers below 500. What the loops settle is
   charged exactly if it was at fault; what they hand over is settled as the
   consumer's reading deserves: charged only for a broken read or a status of 500
   and up, and for a cancelled read exactly if `ChargesCancelledRead`.
   */
  method Serve(q: Request) returns (t: Trace, ret: Return, ghost sent: Trace, ghost race: Race, ghost how: How)
    requires Distinct(q.pool) && q.maxAttempts >= 1
    ensures Follows(t) && Follows(sent) && Routed(q, Play(sent), ret, race, how)
    ensures Untold(Play(sent), Play(t), race, ret) && Finished(q, Play(t), ret, race)
    ensures ret.Returned? && ret.tokenHeld && Play(t)[ret.k].token == Settled(CB.Failure) ==>
              q.reading.Broken? || StatusSeen(Play(t), ret) >= 500
    ensures ret.Returned? && ret.tokenHeld && q.reading == Broken(true) ==>
              (Play(t)[ret.k].token == Settled(CB.Failure) <==> ChargesCancelledRead(q.consumer, StatusSeen(Play(t), ret)))
  {
    var left;
    t, ret, left, how := Execute(q);
    sent, race := t, left;
    var reply := if ret.Returned? then ReplyOf(t, ret.k) else None;
    var status := if reply.Some? && reply.value.Answered? then reply.value.status else 0;
    t := WindDown(t, left, ret, q.consumer == Multiplexed, ConsumerVerdict(q.consumer, status, q.reading));
    WindsDown(q, Play(sent), Play(t), ret, race, status);
  }

  // ---------------------------------------------------------------------
  // All requests together
  // ---------------------------------------------------------------------

  /** A run in which each request did exactly what its trace says. */
  ghost predicate Interleaves(cfg: Configs, run: seq<Action>, ts: seq<Trace>) {
    Runs(cfg, |ts|, run) && forall r: nat :: r < |ts| ==> Project(run, r) == ts[r]
  }

  /**
   Serves any number of requests. However the breakers and schedulers interleave
   what they did, with failure evidence coming in at any moment, in the end no
   probe is in flight and no connection is counted at any upstream.
   */
  method ServeAll(requests: seq<Request>) returns (ts: seq<Trace>)
    requires forall r :: 0 <= r < |requests| ==> Distinct(requests[r].pool) && requests[r].maxAttempts >= 1
    ensures |ts| == |requests|
    ensures forall cfg, run, id :: Interleaves(cfg, run, ts) ==>
              !BreakerOf(After(cfg, |ts|, run), id).probeInFlight && ActiveOf(After(cfg, |ts|, run), id) == 0
  {
    ts := [];
    for i := 0 to |requests|
      invariant |ts| == i && forall r :: 0 <= r < i ==> Follows(ts[r]) && AllQuiet(Play(ts[r]))
    {
      var t, ret;
      ghost var sent, race, how;
      t, ret, sent, race, how := Serve(requests[i]);
      ts := ts + [t];
    }
    forall cfg, run, id | Interleaves(cfg, run, ts)
      ensures !BreakerOf(After(cfg, |ts|, run), id).probeInFlight && ActiveOf(After(cfg, |ts|, run), id) == 0
    {
      NothingStranded(cfg, |ts|, run, id);
    }
  }

  // ---------------------------------------------------------------------
  // A cancelled warm-up
  // ---------------------------------------------------------------------

  lemma OneMore(cfg: Configs, n: nat, run: seq<Action>, op: Op, now: int)
    requires Runs(cfg, n, run) && Enabled(cfg, After(cfg, n, run), Act(0, op, now))
    ensures var longer := run + [Act(0, op, now)];
            && Runs(cfg, n, longer)
            && After(cfg, n, longer) == Step(cfg, After(cfg, n, run), Act(0, op, now))
            && Project(longer, 0) == Project(run, 0) + [op]
  {
    assert (run + [Act(0, op, now)])[..|run|] == run;
  }

  /** One request, one attempt, at an upstream whose breaker is as new. */
  ghost predicate Warming(cfg: Configs, run: seq<Action>, u: Upstream, a: Attempt) {
    && Runs(cfg, 1, run)
    && |After(cfg, 1, run).books| == 1
    && After(cfg, 1, run).books[0] == [a]
    && a.u == u
    && BreakerOf(After(cfg, 1, run), u.id) == CB.INITIAL
    && TokenAt(After(cfg, 1, run), 0, 0) == if a.token == Held then CB.Token(false, 0, 0) else CB.Zero
  }

  lemma WarmUpSent(cfg: Configs, u: Upstream, now: int) returns (run: seq<Action>)
    ensures Warming(cfg, run, u, Attempt(u, NoToken, Waiting, None)) && Project(run, 0) == [Spawn(u)]
  {
    OneMore(cfg, 1, [], Spawn(u), now);
    run := [] + [Act(0, Spawn(u), now)];
  }

  lemma WarmUpAdmitted(cfg: Configs, u: Upstream, now: int) returns (run: seq<Action>)
    ensures Warming(cfg, run, u, Attempt(u, Held, InFlight, None)) && Project(run, 0) == [Spawn(u), Enter(0, Admitted)]
  {
    run := WarmUpSent(cfg, u, now);
    OneMore(cfg, 1, run, Enter(0, Admitted), now);
    run := run + [Act(0, Enter(0, Admitted), now)];
  }

  lemma WarmUpAnswered(cfg: Configs, u: Upstream, now: int) returns (run: seq<Action>)
    ensures Warming(cfg, run, u, Attempt(u, Held, Opened, Some(Answered(200, false))))
    ensures Project(run, 0) == [Spawn(u), Enter(0, Admitted), Finish(0, Answered(200, false))]
  {
    run := WarmUpAdmitted(cfg, u, now);
    OneMore(cfg, 1, run, Finish(0, Answered(200, false)), now);
    run := run + [Act(0, Finish(0, Answered(200, false)), now)];
  }

  /**
   A warm-up request answered with 200 whose body read is cancelled by the next
   head event opens a circuit with a failure threshold of 1, though nothing was
   wrong with the upstream.
   */
  lemma CancelledWarmUpOpensCircuit(cfg: Configs, u: Upstream, now: int) returns (run: seq<Action>)
    requires cfg(u.id).failureThreshold == 1
    ensures Runs(cfg, 1, run) && BreakerOf(After(cfg, 1, run), u.id).phase == CB.Open
    ensures Project(run, 0) == [
              Spawn(u), Enter(0, Admitted), Finish(0, Answered(200, false)),
              Settle(0, ConsumerVerdict(Prewarm, 200, Broken(true)))]
  {
    run := WarmUpAnswered(cfg, u, now);
    OneMore(cfg, 1, run, Settle(0, CB.Failure), now);
    run := run + [Act(0, Settle(0, CB.Failure), now)];
  }
}
