/**
 What all dispatch loops share: forwarding one attempt, writing it off, the
 preferred upstream, and what it means for an attempt to be done, fairly settled
 or handed to the caller. Replies and timing are arbitrary.
 */
module Dispatch {
  import opened Options
  import opened Selection
  import opened Ledger
  import CB = CircuitBreaker

  /** What `forward` returns to a loop. */
  datatype Result = NotSent | Unavailable | Failed(cancelled: bool) | Response(status: nat, pruned: bool)

  /** An error, or the response of attempt `k` with whatever the caller still has to settle and close. */
  datatype Return = Error | Returned(k: nat, tokenHeld: bool, bodyOpen: bool)

  function Landed(u: Upstream, res: Result): Attempt {
    match res
    case NotSent => Attempt(u, NoToken, NoBody, None)
    case Unavailable => Attempt(u, NoToken, NoBody, None)
    case Failed(cancelled) => Attempt(u, Held, Shut, Some(Errored(cancelled)))
    case Response(status, pruned) => Attempt(u, Held, Opened, Some(Answered(status, pruned)))
  }

  /** Client cancellations and pruned answers are nobody's fault; other errors and 5xx are the upstream's. */
  function Verdict(r: Reply): CB.Outcome {
    match r
    case Errored(cancelled) => if cancelled then CB.Release else CB.Failure
    case Answered(status, _) => if status >= 500 then CB.Failure else CB.Release
  }

  ghost predicate Judged(a: Attempt) {
    a.token.Settled? ==> a.reply.Some? && a.token.outcome == Verdict(a.reply.value)
  }

  /** Closed, settled, and settled as its reply deserves. */
  ghost predicate Done(a: Attempt) {
    Quiet(a) && Judged(a)
  }

  ghost predicate AllDone(b: Book, n: nat)
    requires n <= |b|
  {
    forall k :: 0 <= k < n ==> Done(b[k])
  }

  ghost predicate IsAnswer(a: Attempt) {
    a.reply.Some? && a.reply.value.Answered?
  }

  /** Credit only for an answer below 500, and no charge for a dispatch that was cancelled before it was answered. */
  ghost predicate Fair(a: Attempt) {
    && (a.token == Settled(CB.Success) ==> Succeeded(a))
    && (a.token.Settled? && a.reply == Some(Errored(true)) ==> a.token.outcome == CB.Release)
  }

  /**
   Charged only for an error nobody cancelled or a status of 500 and up; a hedged
   dispatch also charges a pruned answer it kept back and then failed to read.
   */
  ghost predicate FairlyCharged(a: Attempt, hedged: bool) {
    a.token == Settled(CB.Failure) ==> AtFault(a) || (hedged && GotPruned(a))
  }

  /** An error that nobody cancelled, or a status of 500 and up. */
  ghost predicate AtFault(a: Attempt) {
    a.reply.Some? && (a.reply.value == Errored(false) || (a.reply.value.Answered? && a.reply.value.status >= 500))
  }

  /** A dispatched attempt that is done was charged exactly if it was at fault, and is otherwise released. */
  lemma DoneMeans(a: Attempt)
    requires Done(a) && a.token != NoToken
    ensures a.token == Settled(CB.Failure) || a.token == Settled(CB.Release)
    ensures a.token == Settled(CB.Failure) <==> AtFault(a)
  {
  }

  ghost predicate AllFair(b: Book) {
    forall k :: 0 <= k < |b| ==> Fair(b[k])
  }

  /** Everything is settled and closed except what is returned, which is returned as it stands. */
  ghost predicate Accounted(b: Book, ret: Return) {
    && (ret.Returned? ==> ret.k < |b| && IsAnswer(b[ret.k]) && b[ret.k].body !in {Waiting, InFlight})
    && (ret.Returned? ==> (ret.tokenHeld <==> b[ret.k].token == Held) && (ret.bodyOpen <==> b[ret.k].body == Opened))
    && forall k :: 0 <= k < |b| && !(ret.Returned? && ret.k == k) ==> Quiet(b[k])
  }

  ghost predicate Succeeded(a: Attempt) {
    a.reply.Some? && a.reply.value.Answered? && a.reply.value.status < 500
  }

  ghost predicate GotPruned(a: Attempt) {
    Succeeded(a) && a.reply.value.pruned
  }

  ghost predicate DistinctAttempts(b: Book) {
    forall i, j :: 0 <= i < j < |b| ==> b[i].u.id != b[j].u.id
  }

  /** The upstreams attempted, in order. */
  function Line(b: Book): (l: seq<Upstream>)
    ensures |l| == |b| && forall k :: 0 <= k < |b| ==> l[k] == b[k].u
  {
    seq(|b|, k requires 0 <= k < |b| => b[k].u)
  }

  ghost function Ids(ups: seq<Upstream>): set<string> {
    set u | u in ups :: u.id
  }

  function Fresh(tried: set<string>): Upstream -> bool {
    (u: Upstream) => u.id !in tried
  }

  /** What is left of a list without the upstreams tried before. */
  function Untried(ups: seq<Upstream>, tried: set<string>): seq<Upstream> {
    Keep(ups, Fresh(tried))
  }

  lemma UntriedSnoc(ups: seq<Upstream>, tried: set<string>, i: nat)
    requires i < |ups|
    ensures Untried(ups[..i + 1], tried) == Untried(ups[..i], tried) + if ups[i].id in tried then [] else [ups[i]]
  {
    assert ups[..i + 1] == ups[..i] + [ups[i]];
    KeepSnoc(ups[..i], Fresh(tried), ups[i]);
  }

  lemma {:induction false} UntriedPrefix(ups: seq<Upstream>, tried: set<string>, i: nat)
    requires i <= |ups|
    ensures Untried(ups[..i], tried) <= Untried(ups, tried)
    decreases |ups| - i
  {
    if i == |ups| {
      assert ups[..i] == ups;
    } else {
      UntriedSnoc(ups, tried, i);
      UntriedPrefix(ups, tried, i + 1);
    }
  }

  ghost predicate Cancelled(a: Attempt) {
    a.reply == Some(Errored(true))
  }

  /** Dispatches one request; the breaker's answer and the reply are arbitrary. */
  method Forward(t: Trace, u: Upstream) returns (t': Trace, res: Result)
    requires Follows(t)
    ensures Follows(t') && Play(t') == Play(t) + [Landed(u, res)]
  {
    var k := CountSpawns(t);
    t' := Log(t, Spawn(u));
    var gate: Gate := *;
    t' := Log(t', Enter(k, gate));
    match gate {
      case Unsent => res := NotSent;
      case Refused => res := Unavailable;
      case Admitted =>
        var reply: Reply := *;
        t' := Log(t', Finish(k, reply));
        match reply {
          case Errored(cancelled) => res := Failed(cancelled);
          case Answered(status, pruned) => res := Response(status, pruned);
        }
    }
  }

  /** A failed attempt once its body is closed and its token settled. */
  function Written(u: Upstream, res: Result): (a: Attempt)
    requires !(res.Response? && res.status < 500)
  {
    match res
    case NotSent => Landed(u, res)
    case Unavailable => Landed(u, res)
    case Failed(cancelled) => Landed(u, res).(token := Settled(if cancelled then CB.Release else CB.Failure))
    case Response(_, _) => Landed(u, res).(body := Shut, token := Settled(CB.Failure))
  }

  lemma LastReplaced(b: Book, a: Attempt)
    requires b != []
    ensures b[|b| - 1 := a] == b[..|b| - 1] + [a]
  {
  }

  /** Closes attempt `k` unread and settles its token. */
  method CloseAndSettle(t: Trace, k: nat, o: CB.Outcome) returns (t': Trace)
    requires Follows(t) && k < |Play(t)| && Play(t)[k].body == Opened && Play(t)[k].token == Held
    ensures Follows(t') && Play(t') == Play(t)[k := Play(t)[k].(body := Shut, token := Settled(o))]
  {
    t' := Log(t, Close(k));
    t' := Log(t', Settle(k, o));
  }

  /** Closes and settles failed attempt `k`: cancellations are released, the rest counts as a failure. */
  method WriteOffAt(t: Trace, k: nat, u: Upstream, res: Result) returns (t': Trace)
    requires Follows(t) && k < |Play(t)| && Play(t)[k] == Landed(u, res)
    requires !(res.Response? && res.status < 500)
    ensures Follows(t') && Play(t') == Play(t)[k := Written(u, res)]
  {
    match res {
      case Unavailable => t' := t;
      case NotSent => t' := Log(t, Settle(k, CB.Failure));
      case Failed(true) => t' := Log(t, Settle(k, CB.Release));
      case Failed(false) => t' := Log(t, Settle(k, CB.Failure));
      case Response(_, _) => t' := CloseAndSettle(t, k, CB.Failure);
    }
  }

  /** The same for the last attempt. */
  method WriteOff(t: Trace, u: Upstream, res: Result) returns (t': Trace)
    requires Follows(t) && Play(t) != [] && Play(t)[|Play(t)| - 1] == Landed(u, res)
    requires !(res.Response? && res.status < 500)
    ensures Follows(t') && Play(t') == Play(t)[..|Play(t)| - 1] + [Written(u, res)]
    ensures Done(Written(u, res)) && !Succeeded(Written(u, res))
  {
    t' := WriteOffAt(t, CountSpawns(t) - 1, u, res);
    LastReplaced(Play(t), Written(u, res));
  }

  /** The number of attempts so far. */
  function CountSpawns(t: Trace): (n: nat)
    ensures Follows(t) ==> n == |Play(t)|
  {
    if t == [] then 0
    else CountSpawns(t[..|t| - 1]) + (if t[|t| - 1].Spawn? then 1 else 0)
  }

  /** Whether some upstream is configured as archive. */
  predicate HasArchive(pool: seq<Upstream>) {
    exists u :: u in pool && u.archive
  }

  function ByID(pool: seq<Upstream>, id: string): (r: Option<Upstream>)
    ensures r.Some? ==> r.value in pool && r.value.id == id
    ensures r == None ==> forall u :: u in pool ==> u.id != id
  {
    if pool == [] then None
    else if pool[0].id == id then Some(pool[0])
    else ByID(pool[1..], id)
  }

  /** Under proactive archive routing a preference for an upstream without archive is dropped. */
  function ArchivePreference(pool: seq<Upstream>, proactive: bool, preferID: string): (r: string)
    ensures r == preferID || r == ""
    ensures proactive && r != "" ==> exists u :: u in pool && u.id == r && u.archive
    ensures r != preferID ==> proactive && forall u :: u in pool && u.id == preferID ==> ByID(pool, preferID).Some? && !ByID(pool, preferID).value.archive
  {
    if proactive && preferID != "" && (ByID(pool, preferID) == None || !ByID(pool, preferID).value.archive) then "" else preferID
  }

  function Trim(ups: seq<Upstream>, maxLen: nat): seq<Upstream> {
    if maxLen > 0 && |ups| > maxLen then ups[..maxLen] else ups
  }

  /** The list with the preferred upstream swapped to the front, or put there, unless it is on a competing fork. */
  ghost predicate Fronted(pool: seq<Upstream>, sel: seq<Upstream>, preferID: string, maxLen: nat,
                          forked: set<string>, ready: set<string>, out: seq<Upstream>) {
    if preferID == "" || sel == [] || preferID in forked then out == sel
    else if exists u :: u in sel && u.id == preferID then
      && |out| == |Trim(sel, maxLen)|
      && out[0].id == preferID
      && forall k :: 0 < k < |out| ==> out[k] == if sel[k].id == preferID then sel[0] else sel[k]
    else if preferID in ready && ByID(pool, preferID).Some? then
      out == Trim([ByID(pool, preferID).value] + sel, maxLen)
    else out == sel
  }

  /** Moves the preferred upstream to the front, or puts it there, unless it is on a competing fork. */
  method EnsurePreferredFirst(pool: seq<Upstream>, sel: seq<Upstream>, preferID: string, maxLen: nat,
                              forked: set<string>, ready: set<string>)
    returns (out: seq<Upstream>)
    requires Distinct(sel) && forall u :: u in sel ==> u in pool
    ensures Distinct(out) && forall u :: u in out ==> u in pool && (u in sel || u.id == preferID)
    ensures |sel| <= maxLen ==> |out| <= maxLen
    ensures maxLen >= 1 ==> |out| >= (if |sel| < maxLen then |sel| else maxLen)
    ensures sel != [] ==> out != []
    ensures Fronted(pool, sel, preferID, maxLen, forked, ready, out)
  {
    if preferID == "" || |sel| == 0 {
      return sel;
    }
    for i := 0 to |sel|
      invariant forall k :: 0 <= k < i ==> sel[k].id != preferID
    {
      if sel[i].id == preferID {
        if preferID in forked {
          return sel;
        }
        out := sel;
        if i != 0 {
          out := out[0 := sel[i]][i := sel[0]];
        }
        assert forall u :: u in out ==> u in sel;
        return Trim(out, maxLen);
      }
    }
    match ByID(pool, preferID) {
      case Some(pu) =>
        if pu.id in ready && pu.id !in forked {
          return Trim([pu] + sel, maxLen);
        }
      case None =>
    }
    return sel;
  }
}
