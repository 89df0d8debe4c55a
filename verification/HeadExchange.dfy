/**
 Any number of instances publishing their local heads to each other.

 A published message can be delivered any number of times, in any order, or
 never. Reading the local head, comparing it with the last published one and
 sending it are separate steps, so concurrent publishers of one instance race.
 */
module HeadExchange {
  import opened ForkTracker
  import F = ForkTheorems

  datatype Node = Node(tracker: Tracker, last: Head, reading: multiset<Head>, sending: multiset<Head>)

  datatype Message = Message(origin: nat, head: Head)

  datatype Sys = Sys(nodes: seq<Node>, wire: set<Message>)

  datatype Step =
    | Report(i: nat, clock: Clock, id: string, slot: U64, root: string)
    | Read(i: nat)
    | Compare(i: nat, head: Head)
    | Send(i: nat, head: Head, arrives: bool)
    | Deliver(i: nat, clock: Clock, message: Message)
    | Clean(i: nat)

  ghost predicate Enabled(s: Sys, e: Step) {
    && e.i < |s.nodes|
    && (e.Report? ==> e.id != REMOTE)
    && (e.Compare? ==> e.head in s.nodes[e.i].reading)
    && (e.Send? ==> e.head in s.nodes[e.i].sending)
    && (e.Deliver? ==> e.message in s.wire)
  }

  /** What the subscriber lets through. */
  predicate Accepted(i: nat, m: Message) {
    m.head.root != "" && m.head.slot != 0 && m.origin != i
  }

  ghost function NodeAfter(p: Params, v: Node, e: Step): Node {
    match e
    case Report(_, clock, id, slot, root) => v.(tracker := Add(v.tracker, clock, id, slot, root))
    case Read(_) =>
      var h := HeadOf(p, v.tracker, false);
      if h.slot == 0 || h.root == "" then v else v.(reading := v.reading + multiset{h})
    case Compare(_, h) =>
      var u := v.(reading := v.reading - multiset{h});
      if v.last == h then u else u.(last := h, sending := v.sending + multiset{h})
    case Send(_, h, _) => v.(sending := v.sending - multiset{h})
    case Deliver(i, clock, m) =>
      if Accepted(i, m) then v.(tracker := Add(v.tracker, clock, REMOTE, m.head.slot, m.head.root)) else v
    case Clean(_) => v.(tracker := Prune(p, v.tracker))
  }

  ghost function After(p: Params, s: Sys, e: Step): Sys
    requires Enabled(s, e)
  {
    Sys(s.nodes[e.i := NodeAfter(p, s.nodes[e.i], e)],
        if e.Send? && e.arrives then s.wire + {Message(e.i, e.head)} else s.wire)
  }

  const FRESH := Node(EMPTY, NO_HEAD, multiset{}, multiset{})

  ghost predicate Runs(p: Params, n: nat, es: seq<Step>)
    decreases |es|, 0
  {
    es == [] || (Runs(p, n, es[..|es| - 1]) && Enabled(State(p, n, es[..|es| - 1]), es[|es| - 1]))
  }

  ghost function State(p: Params, n: nat, es: seq<Step>): (s: Sys)
    requires Runs(p, n, es)
    ensures |s.nodes| == n
    decreases |es|, 1
  {
    if es == [] then Sys(seq(n, _ => FRESH), {})
    else After(p, State(p, n, es[..|es| - 1]), es[|es| - 1])
  }

  /** The steps by which instance `i` tells instance `j` of a head. */
  function Telling(i: nat, j: nat, h: Head, clock: Clock): seq<Step> {
    [Read(i), Compare(i, h), Send(i, h, true), Deliver(j, clock, Message(i, h))]
  }

  lemma RunsOn(p: Params, n: nat, es: seq<Step>, e: Step)
    requires Runs(p, n, es) && Enabled(State(p, n, es), e)
    ensures Runs(p, n, es + [e]) && State(p, n, es + [e]) == After(p, State(p, n, es), e)
  {
    assert (es + [e])[..|es|] == es;
  }

  /** A head that `i` has read and not published yet can be sent, and is a message then. */
  lemma HeadIsSent(p: Params, n: nat, es: seq<Step>, i: nat, h: Head)
    requires Runs(p, n, es) && i < n && h == HeadOf(p, State(p, n, es).nodes[i].tracker, false)
    requires h.slot != 0 && h.root != "" && State(p, n, es).nodes[i].last != h
    ensures var told := es + [Read(i)] + [Compare(i, h)] + [Send(i, h, true)];
            && Runs(p, n, told)
            && Message(i, h) in State(p, n, told).wire
            && forall j :: 0 <= j < n && j != i ==> State(p, n, told).nodes[j] == State(p, n, es).nodes[j]
  {
    RunsOn(p, n, es, Read(i));
    RunsOn(p, n, es + [Read(i)], Compare(i, h));
    RunsOn(p, n, es + [Read(i)] + [Compare(i, h)], Send(i, h, true));
  }

  /**
   So the local head of an instance reaches every other one: once it is read,
   compared, sent and delivered at a time the receiver finds its slot plausible,
   the receiver counts a remote vote for it.
   */
  lemma HeadReachesOthers(p: Params, n: nat, es: seq<Step>, i: nat, j: nat, h: Head, clock: Clock)
    requires Runs(p, n, es) && i < n && j < n && i != j && h == HeadOf(p, State(p, n, es).nodes[i].tracker, false)
    requires h.slot != 0 && h.root != "" && State(p, n, es).nodes[i].last != h && Plausible(clock, h.slot)
    ensures var told := es + Telling(i, j, h, clock);
            && Runs(p, n, told)
            && var blocks := State(p, n, told).nodes[j].tracker.blocks;
               h.root in blocks && REMOTE in blocks[h.root].seenBy
  {
    HeadIsSent(p, n, es, i, h);
    var sent := es + [Read(i)] + [Compare(i, h)] + [Send(i, h, true)];
    RunsOn(p, n, sent, Deliver(j, clock, Message(i, h)));
    assert sent + [Deliver(j, clock, Message(i, h))] == es + Telling(i, j, h, clock);
  }

  /** A head that was the last one published is not sent again. */
  lemma NothingSentTwice(p: Params, n: nat, es: seq<Step>, i: nat, h: Head)
    requires Runs(p, n, es) && i < n && h in State(p, n, es).nodes[i].reading && State(p, n, es).nodes[i].last == h
    ensures Runs(p, n, es + [Compare(i, h)]) && State(p, n, es + [Compare(i, h)]).nodes[i].sending == State(p, n, es).nodes[i].sending
  {
    RunsOn(p, n, es, Compare(i, h));
  }

  // ---------------------------------------------------------------------
  // Where published heads come from
  // ---------------------------------------------------------------------

  lemma {:induction false} PrefixRuns(p: Params, n: nat, es: seq<Step>, k: nat)
    requires Runs(p, n, es) && k <= |es|
    ensures Runs(p, n, es[..k])
  {
    if k < |es| {
      PrefixRuns(p, n, es[..|es| - 1], k);
      assert es[..|es| - 1][..k] == es[..k];
    } else {
      assert es[..k] == es;
    }
  }

  ghost predicate ReportedBy(es: seq<Step>, j: nat, root: string) {
    exists k :: 0 <= k < |es| && es[k].Report? && es[k].i == j && es[k].root == root
  }

  /** At step k, instance j's own upstreams had made `h` its local head. */
  ghost predicate ReadAt(p: Params, n: nat, es: seq<Step>, k: nat, j: nat, h: Head) {
    && k < |es|
    && es[k] == Read(j)
    && j < n
    && Runs(p, n, es[..k])
    && h != NO_HEAD
    && IsHead(p, State(p, n, es[..k]).nodes[j].tracker, false, h)
  }

  ghost predicate ReadBy(p: Params, n: nat, es: seq<Step>, j: nat, h: Head) {
    exists k: nat :: ReadAt(p, n, es, k, j, h)
  }

  ghost predicate SentAt(p: Params, n: nat, es: seq<Step>, k: nat, j: nat, h: Head) {
    k < |es| && es[k] == Send(j, h, true) && ReadBy(p, n, es[..k], j, h)
  }

  ghost predicate SentBy(p: Params, n: nat, es: seq<Step>, j: nat, h: Head) {
    exists k: nat :: SentAt(p, n, es, k, j, h)
  }

  lemma OneMore(p: Params, n: nat, es: seq<Step>, e: Step, j: nat, h: Head, root: string)
    ensures ReportedBy(es, j, root) ==> ReportedBy(es + [e], j, root)
    ensures ReadBy(p, n, es, j, h) ==> ReadBy(p, n, es + [e], j, h)
    ensures SentBy(p, n, es, j, h) ==> SentBy(p, n, es + [e], j, h)
  {
    var es' := es + [e];
    if ReportedBy(es, j, root) {
      var k :| 0 <= k < |es| && es[k].Report? && es[k].i == j && es[k].root == root;
      assert es'[k] == es[k];
    }
    if ReadBy(p, n, es, j, h) {
      var k: nat :| ReadAt(p, n, es, k, j, h);
      assert es'[..k] == es[..k] && ReadAt(p, n, es', k, j, h);
    }
    if SentBy(p, n, es, j, h) {
      var k: nat :| SentAt(p, n, es, k, j, h);
      assert es'[..k] == es[..k] && SentAt(p, n, es', k, j, h);
    }
  }

  // ---------------------------------------------------------------------
  // Invariants of every run
  // ---------------------------------------------------------------------

  ghost predicate VotesReported(es: seq<Step>, j: nat, t: Tracker) {
    forall r, id :: r in t.blocks && id in t.blocks[r].seenBy && id != REMOTE ==> ReportedBy(es, j, r)
  }

  ghost predicate HeadsRead(p: Params, n: nat, es: seq<Step>, j: nat, v: Node) {
    forall h :: h in v.reading || h in v.sending ==> ReadBy(p, n, es, j, h)
  }

  ghost predicate RemotelySent(p: Params, n: nat, es: seq<Step>, i: nat, r: string) {
    exists j: nat, h: Head :: j != i && h.root == r && SentBy(p, n, es, j, h)
  }

  ghost predicate RemoteVotesSent(p: Params, n: nat, es: seq<Step>, i: nat, t: Tracker) {
    forall r :: r in t.blocks && REMOTE in t.blocks[r].seenBy ==> RemotelySent(p, n, es, i, r)
  }

  ghost predicate WireSent(p: Params, n: nat, es: seq<Step>, wire: set<Message>) {
    forall m :: m in wire ==> SentBy(p, n, es, m.origin, m.head)
  }

  ghost predicate NodeExplained(p: Params, n: nat, es: seq<Step>, i: nat, v: Node) {
    VotesReported(es, i, v.tracker) && HeadsRead(p, n, es, i, v) && RemoteVotesSent(p, n, es, i, v.tracker)
  }

  /** Whatever explained a node explains it one step later. */
  lemma StillExplained(p: Params, n: nat, es: seq<Step>, e: Step, i: nat, v: Node)
    requires NodeExplained(p, n, es, i, v)
    ensures NodeExplained(p, n, es + [e], i, v)
  {
    forall r, id | r in v.tracker.blocks && id in v.tracker.blocks[r].seenBy && id != REMOTE
      ensures ReportedBy(es + [e], i, r)
    {
      OneMore(p, n, es, e, i, NO_HEAD, r);
    }
    forall h | h in v.reading || h in v.sending ensures ReadBy(p, n, es + [e], i, h) {
      OneMore(p, n, es, e, i, h, "");
    }
    forall r | r in v.tracker.blocks && REMOTE in v.tracker.blocks[r].seenBy ensures RemotelySent(p, n, es + [e], i, r) {
      var j: nat, h: Head :| j != i && h.root == r && SentBy(p, n, es, j, h);
      OneMore(p, n, es, e, j, h, r);
    }
  }

  lemma ReportExplained(p: Params, n: nat, es: seq<Step>, e: Step, v: Node)
    requires e.Report? && e.id != REMOTE && NodeExplained(p, n, es + [e], e.i, v)
    ensures NodeExplained(p, n, es + [e], e.i, NodeAfter(p, v, e))
  {
    assert (es + [e])[|es|] == e;
    assert ReportedBy(es + [e], e.i, e.root);
  }

  lemma ReadExplained(p: Params, n: nat, es: seq<Step>, e: Step)
    requires Runs(p, n, es) && e.Read? && e.i < n
    requires NodeExplained(p, n, es + [e], e.i, State(p, n, es).nodes[e.i])
    ensures NodeExplained(p, n, es + [e], e.i, NodeAfter(p, State(p, n, es).nodes[e.i], e))
  {
    var v := State(p, n, es).nodes[e.i];
    var h := HeadOf(p, v.tracker, false);
    assert (es + [e])[..|es|] == es;
    if h.slot != 0 && h.root != "" {
      assert ReadAt(p, n, es + [e], |es|, e.i, h);
    }
  }

  lemma DeliverExplained(p: Params, n: nat, es: seq<Step>, e: Step, v: Node)
    requires e.Deliver? && NodeExplained(p, n, es + [e], e.i, v)
    requires SentBy(p, n, es + [e], e.message.origin, e.message.head)
    ensures NodeExplained(p, n, es + [e], e.i, NodeAfter(p, v, e))
  {
    var h := e.message.head;
    if Accepted(e.i, e.message) {
      assert RemotelySent(p, n, es + [e], e.i, h.root);
      forall r, id ensures var u := Add(v.tracker, e.clock, REMOTE, h.slot, h.root);
                           r in u.blocks && id in u.blocks[r].seenBy ==>
                             (r in v.tracker.blocks && id in v.tracker.blocks[r].seenBy) || (r == h.root && id == REMOTE)
      {
      }
    }
  }

  lemma QueueExplained(p: Params, n: nat, es: seq<Step>, e: Step, v: Node)
    requires (e.Compare? && e.head in v.reading) || e.Send?
    requires NodeExplained(p, n, es + [e], e.i, v)
    ensures NodeExplained(p, n, es + [e], e.i, NodeAfter(p, v, e))
  {
    var u := NodeAfter(p, v, e);
    assert u.tracker == v.tracker;
    forall h | h in u.reading || h in u.sending ensures ReadBy(p, n, es + [e], e.i, h) {
      assert h in v.reading || h in v.sending;
    }
  }

  lemma CleanExplained(p: Params, n: nat, es: seq<Step>, e: Step, v: Node)
    requires e.Clean? && NodeExplained(p, n, es + [e], e.i, v)
    ensures NodeExplained(p, n, es + [e], e.i, NodeAfter(p, v, e))
  {
    var u := NodeAfter(p, v, e);
    forall r | r in u.tracker.blocks ensures r in v.tracker.blocks && u.tracker.blocks[r] == v.tracker.blocks[r] {
    }
  }

  lemma NodeStepExplained(p: Params, n: nat, es: seq<Step>, e: Step)
    requires Runs(p, n, es) && Enabled(State(p, n, es), e)
    requires NodeExplained(p, n, es, e.i, State(p, n, es).nodes[e.i]) && WireSent(p, n, es, State(p, n, es).wire)
    ensures NodeExplained(p, n, es + [e], e.i, NodeAfter(p, State(p, n, es).nodes[e.i], e))
  {
    var v := State(p, n, es).nodes[e.i];
    StillExplained(p, n, es, e, e.i, v);
    match e
    case Report(_, _, _, _, _) => ReportExplained(p, n, es, e, v);
    case Read(_) => ReadExplained(p, n, es, e);
    case Compare(_, _) => QueueExplained(p, n, es, e, v);
    case Send(_, _, _) => QueueExplained(p, n, es, e, v);
    case Deliver(i, _, m) =>
      OneMore(p, n, es, e, m.origin, m.head, "");
      DeliverExplained(p, n, es, e, v);
    case Clean(_) => CleanExplained(p, n, es, e, v);
  }

  lemma WireStepSent(p: Params, n: nat, es: seq<Step>, e: Step)
    requires Runs(p, n, es) && Enabled(State(p, n, es), e)
    requires NodeExplained(p, n, es, e.i, State(p, n, es).nodes[e.i]) && WireSent(p, n, es, State(p, n, es).wire)
    ensures WireSent(p, n, es + [e], After(p, State(p, n, es), e).wire)
  {
    forall m | m in After(p, State(p, n, es), e).wire ensures SentBy(p, n, es + [e], m.origin, m.head) {
      if m in State(p, n, es).wire {
        OneMore(p, n, es, e, m.origin, m.head, "");
      } else {
        assert (es + [e])[..|es|] == es;
        assert SentAt(p, n, es + [e], |es|, m.origin, m.head);
      }
    }
  }

  lemma {:induction false} Explained(p: Params, n: nat, es: seq<Step>)
    requires Runs(p, n, es)
    ensures forall i :: 0 <= i < n ==> NodeExplained(p, n, es, i, State(p, n, es).nodes[i])
    ensures WireSent(p, n, es, State(p, n, es).wire)
  {
    if es != [] {
      var front, e := es[..|es| - 1], es[|es| - 1];
      assert front + [e] == es;
      Explained(p, n, front);
      NodeStepExplained(p, n, front, e);
      WireStepSent(p, n, front, e);
      forall i | 0 <= i < n ensures NodeExplained(p, n, es, i, State(p, n, es).nodes[i]) {
        if i != e.i {
          StillExplained(p, n, front, e, i, State(p, n, front).nodes[i]);
        }
      }
    }
  }

  // ---------------------------------------------------------------------
  // No echo
  // ---------------------------------------------------------------------

  /** A head read from local votes was reported by one of that instance's own upstreams before. */
  lemma ReadHeadsAreReported(p: Params, n: nat, es: seq<Step>, k: nat, j: nat, h: Head)
    requires ReadAt(p, n, es, k, j, h)
    ensures ReportedBy(es[..k], j, h.root)
  {
    Explained(p, n, es[..k]);
    var t := State(p, n, es[..k]).nodes[j].tracker;
    assert VotedAt(t, false, h.root, h.slot);
    var id :| id in Voters(t.blocks[h.root], false);
    assert id in t.blocks[h.root].seenBy && id != REMOTE;
  }

  /** Instance j sent root r at step `sent`, having read it as its own local head at step `read`. */
  ghost predicate Origin(p: Params, n: nat, es: seq<Step>, j: nat, r: string, read: nat, sent: nat) {
    && read < sent < |es|
    && es[sent].Send? && es[sent].i == j && es[sent].arrives && es[sent].head.root == r
    && ReadAt(p, n, es, read, j, es[sent].head)
    && ReportedBy(es[..read], j, r)
  }

  lemma SentHeadsHaveOrigins(p: Params, n: nat, es: seq<Step>, j: nat, h: Head) returns (read: nat, sent: nat)
    requires SentBy(p, n, es, j, h)
    ensures Origin(p, n, es, j, h.root, read, sent)
  {
    sent :| SentAt(p, n, es, sent, j, h);
    read :| ReadAt(p, n, es[..sent], read, j, h);
    assert es[..sent][..read] == es[..read];
    assert ReadAt(p, n, es, read, j, h);
    ReadHeadsAreReported(p, n, es, read, j, h);
  }

  lemma OriginsReported(p: Params, n: nat, es: seq<Step>, j: nat, r: string, read: nat, sent: nat)
    requires Origin(p, n, es, j, r, read, sent)
    ensures ReportedBy(es, j, r)
  {
    var before := es[..read];
    var k :| 0 <= k < |before| && before[k].Report? && before[k].i == j && before[k].root == r;
    assert es[k] == before[k];
  }

  lemma VotesExplained(p: Params, n: nat, es: seq<Step>, i: nat, r: string, id: string)
    requires Runs(p, n, es) && i < n
    requires r in State(p, n, es).nodes[i].tracker.blocks && id in State(p, n, es).nodes[i].tracker.blocks[r].seenBy
    ensures if id == REMOTE then RemotelySent(p, n, es, i, r) else ReportedBy(es, i, r)
  {
    Explained(p, n, es);
  }

  /**
   A remote vote for a root comes from another instance that published the root
   after its own upstreams had reported it and made it that instance's local head.
   */
  lemma RemoteVotesHaveOrigins(p: Params, n: nat, es: seq<Step>, i: nat, r: string)
    requires Runs(p, n, es) && i < n
    requires r in State(p, n, es).nodes[i].tracker.blocks
    requires REMOTE in State(p, n, es).nodes[i].tracker.blocks[r].seenBy
    ensures exists j: nat, read: nat, sent: nat :: j != i && Origin(p, n, es, j, r, read, sent)
  {
    VotesExplained(p, n, es, i, r, REMOTE);
    var j: nat, h: Head :| j != i && h.root == r && SentBy(p, n, es, j, h);
    var read, sent := SentHeadsHaveOrigins(p, n, es, j, h);
  }

  /** A root no instance's own upstreams ever reported has no vote anywhere. */
  lemma UnreportedRootsHaveNoVotes(p: Params, n: nat, es: seq<Step>, i: nat, r: string)
    requires Runs(p, n, es) && i < n
    requires forall j: nat :: !ReportedBy(es, j, r)
    ensures r in State(p, n, es).nodes[i].tracker.blocks ==> State(p, n, es).nodes[i].tracker.blocks[r].seenBy == {}
  {
    if r in State(p, n, es).nodes[i].tracker.blocks && State(p, n, es).nodes[i].tracker.blocks[r].seenBy != {} {
      var id :| id in State(p, n, es).nodes[i].tracker.blocks[r].seenBy;
      VotesExplained(p, n, es, i, r, id);
      if id == REMOTE {
        var j: nat, h: Head :| j != i && h.root == r && SentBy(p, n, es, j, h);
        var read, sent := SentHeadsHaveOrigins(p, n, es, j, h);
        OriginsReported(p, n, es, j, r, read, sent);
      }
    }
  }

  // ---------------------------------------------------------------------
  // One instance's view as a fork tracker history
  // ---------------------------------------------------------------------

  /** The reports, deliveries and prunings of instance i, in order. */
  ghost function View(es: seq<Step>, i: nat): seq<F.Event> {
    if es == [] then []
    else
      var rest, e := View(es[..|es| - 1], i), es[|es| - 1];
      if e.i != i then rest
      else
        match e
        case Report(_, clock, id, slot, root) => rest + [F.Saw(clock, id, slot, root)]
        case Deliver(_, clock, m) =>
          if Accepted(i, m) then rest + [F.Saw(clock, REMOTE, m.head.slot, m.head.root)] else rest
        case Clean(_) => rest + [F.Cleanup]
        case _ => rest
  }

  lemma {:induction false} TrackerFollowsView(p: Params, n: nat, es: seq<Step>, i: nat)
    requires Runs(p, n, es) && i < n
    ensures State(p, n, es).nodes[i].tracker == F.After(p, View(es, i))
  {
    if es != [] {
      var front := es[..|es| - 1];
      TrackerFollowsView(p, n, front, i);
      if View(es, i) != View(front, i) {
        assert View(es, i)[..|View(es, i)| - 1] == View(front, i);
      }
    }
  }

  ghost predicate ReportsConsistent(es: seq<Step>, at: string -> U64) {
    forall k :: 0 <= k < |es| && es[k].Report? ==> es[k].slot == at(es[k].root)
  }

  ghost predicate DeliveriesConsistent(es: seq<Step>, at: string -> U64) {
    forall k :: 0 <= k < |es| && es[k].Deliver? ==> es[k].message.head.slot == at(es[k].message.head.root)
  }

  lemma {:induction false} ViewConsistent(es: seq<Step>, i: nat, at: string -> U64)
    requires ReportsConsistent(es, at) && DeliveriesConsistent(es, at)
    ensures F.Consistent(View(es, i), at)
  {
    if es != [] {
      var front, e := es[..|es| - 1], es[|es| - 1];
      assert e == es[|es| - 1];
      ViewConsistent(front, i, at);
    }
  }

  /** Heads read from a consistent tracker are at the slot their root always has. */
  lemma SentHeadsConsistent(p: Params, n: nat, es: seq<Step>, j: nat, h: Head, at: string -> U64)
    requires ReportsConsistent(es, at) && DeliveriesConsistent(es, at) && SentBy(p, n, es, j, h)
    ensures h.slot == at(h.root)
  {
    var sent: nat :| SentAt(p, n, es, sent, j, h);
    var k: nat :| ReadAt(p, n, es[..sent], k, j, h);
    assert es[..sent][..k] == es[..k];
    TrackerFollowsView(p, n, es[..k], j);
    ViewConsistent(es[..k], j, at);
    F.HistoryShadows(p, View(es[..k], j), at);
    assert VotedAt(State(p, n, es[..k]).nodes[j].tracker, false, h.root, h.slot);
  }

  lemma MessagesSent(p: Params, n: nat, es: seq<Step>, m: Message)
    requires Runs(p, n, es) && m in State(p, n, es).wire
    ensures SentBy(p, n, es, m.origin, m.head)
  {
    Explained(p, n, es);
  }

  lemma DeliveryConsistent(p: Params, n: nat, es: seq<Step>, e: Step, at: string -> U64)
    requires Runs(p, n, es) && Enabled(State(p, n, es), e)
    requires ReportsConsistent(es, at) && DeliveriesConsistent(es, at)
    ensures e.Deliver? ==> e.message.head.slot == at(e.message.head.root)
  {
    if e.Deliver? {
      MessagesSent(p, n, es, e.message);
      SentHeadsConsistent(p, n, es, e.message.origin, e.message.head, at);
    }
  }

  lemma {:induction false} ConsistencySpreads(p: Params, n: nat, es: seq<Step>, at: string -> U64)
    requires Runs(p, n, es) && ReportsConsistent(es, at)
    ensures DeliveriesConsistent(es, at)
  {
    if es != [] {
      var front, e := es[..|es| - 1], es[|es| - 1];
      assert ReportsConsistent(front, at);
      ConsistencySpreads(p, n, front, at);
      DeliveryConsistent(p, n, front, e, at);
      assert forall k :: 0 <= k < |front| ==> es[k] == front[k];
    }
  }

  /**
   With one slot per root in the upstreams' reports, every head an instance has
   in flight to the others is the head it would have had without hearing from
   them, provided its own upstreams had outgrown the head distance by then.
   */
  lemma PublishedHeadsAreOwn(p: Params, n: nat, es: seq<Step>, k: nat, j: nat, h: Head, at: string -> U64)
    requires Runs(p, n, es) && ReportsConsistent(es, at) && p.maxHead <= p.follow
    requires ReadAt(p, n, es, k, j, h)
    requires F.After(p, F.Local(View(es[..k], j))).maxSlot > p.maxHead
    ensures h == HeadOf(p, F.After(p, F.Local(View(es[..k], j))), true)
  {
    PrefixRuns(p, n, es, k);
    ConsistencySpreads(p, n, es[..k], at);
    ViewConsistent(es[..k], j, at);
    TrackerFollowsView(p, n, es[..k], j);
    var view := View(es[..k], j);
    F.LocalHeadIgnoresRemoteVotes(p, view, at);
    HeadUnique(p, F.After(p, view), false, h, HeadOf(p, F.After(p, view), false));
  }
}
