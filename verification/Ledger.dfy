/**
 The books one request keeps on its upstream attempts.

 Every dispatch loop is a sequence of operations on attempts. An attempt is
 admitted by its upstream's breaker (or refused, or never sent), then in flight,
 and finally answered with a body or failed without one. `Allowed` is the
 discipline: a body is closed only while open, and a token is settled once,
 after the reply is known.
 */
module Ledger {
  import opened Options
  import opened Selection
  import CB = CircuitBreaker

  /** How `forward` ends. A body that cannot be decompressed is closed by `forward` and reported as an error. */
  datatype Reply = Errored(cancelled: bool) | Answered(status: nat, pruned: bool)

  datatype Gate = Unsent | Refused | Admitted

  datatype TokenStatus = NoToken | Held | Settled(outcome: CB.Outcome)

  datatype BodyStatus = Waiting | InFlight | NoBody | Opened | Shut

  datatype Attempt = Attempt(u: Upstream, token: TokenStatus, body: BodyStatus, reply: Option<Reply>)

  type Book = seq<Attempt>

  datatype Op =
    | Spawn(u: Upstream)
    | Enter(k: nat, gate: Gate)
    | Finish(k: nat, reply: Reply)
    | Close(k: nat)
    | Settle(k: nat, outcome: CB.Outcome)

  type Trace = seq<Op>

  predicate Allowed(b: Book, op: Op) {
    match op
    case Spawn(_) => true
    case Enter(k, _) => k < |b| && b[k].body == Waiting
    case Finish(k, _) => k < |b| && b[k].body == InFlight
    case Close(k) => k < |b| && b[k].body == Opened
    case Settle(k, _) => k < |b| && b[k].body !in {Waiting, InFlight} && !b[k].token.Settled?
  }

  function Apply(b: Book, op: Op): Book
    requires Allowed(b, op)
  {
    match op
    case Spawn(u) => b + [Attempt(u, NoToken, Waiting, None)]
    case Enter(k, gate) =>
      b[k := if gate == Admitted then b[k].(token := Held, body := InFlight) else b[k].(body := NoBody)]
    case Finish(k, reply) => b[k := b[k].(body := if reply.Answered? then Opened else Shut, reply := Some(reply))]
    case Close(k) => b[k := b[k].(body := Shut)]
    case Settle(k, o) => if b[k].token == Held then b[k := b[k].(token := Settled(o))] else b
  }

  /** All operations of the trace are allowed, from empty books on. */
  ghost predicate Follows(t: Trace)
    decreases |t|, 0
  {
    t == [] || (Follows(t[..|t| - 1]) && Allowed(Play(t[..|t| - 1]), t[|t| - 1]))
  }

  ghost function Play(t: Trace): Book
    requires Follows(t)
    decreases |t|, 1
  {
    if t == [] then [] else Apply(Play(t[..|t| - 1]), t[|t| - 1])
  }

  /** Appends an allowed operation. */
  function Log(t: Trace, op: Op): (r: Trace)
    requires Follows(t) && Allowed(Play(t), op)
    ensures Follows(r) && Play(r) == Apply(Play(t), op)
  {
    assert (t + [op])[..|t|] == t;
    t + [op]
  }

  /** Nothing is owed for this attempt any more. */
  ghost predicate Quiet(a: Attempt) {
    a.token != Held && (a.body == NoBody || a.body == Shut)
  }

  ghost predicate AllQuiet(b: Book) {
    forall k :: 0 <= k < |b| ==> Quiet(b[k])
  }
}
