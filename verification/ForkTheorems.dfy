/** What holds of the fork tracker over whole histories of reports and prunings. */
module ForkTheorems {
  import opened Sorting
  import opened ForkTracker

  // ---------------------------------------------------------------------
  // Reports in any order, any number of times
  // ---------------------------------------------------------------------

  datatype Report = Report(id: string, slot: U64, root: string)

  ghost function Replay(rs: seq<Report>): Tracker {
    if rs == [] then EMPTY
    else
      var r := rs[|rs| - 1];
      Record(Replay(rs[..|rs| - 1]), r.id, r.slot, r.root)
  }

  ghost predicate OneSlotPerRoot(rs: seq<Report>) {
    forall a, b :: a in rs && b in rs && a.root == b.root ==> a.slot == b.slot
  }

  ghost predicate SameReports(xs: seq<Report>, ys: seq<Report>) {
    forall r :: r in xs <==> r in ys
  }

  /** What the tracker holds, in terms of the reports alone. */
  ghost predicate Reflects(t: Tracker, rs: seq<Report>) {
    && (forall r :: r in rs ==> r.slot <= t.maxSlot)
    && (t.maxSlot == 0 || exists r :: r in rs && r.slot == t.maxSlot)
    && (forall root :: root in t.blocks <==> exists r :: r in rs && r.root == root)
    && (forall root :: root in t.blocks ==> exists r :: r in rs && r.root == root && r.slot == t.blocks[root].slot)
    && (forall root, id :: root in t.blocks ==>
          (id in t.blocks[root].seenBy <==> exists r :: r in rs && r.root == root && r.id == id))
  }

  lemma ReflectsOneMore(t: Tracker, rs: seq<Report>, r: Report)
    requires Reflects(t, rs)
    ensures Reflects(Record(t, r.id, r.slot, r.root), rs + [r])
  {
    var t', rs' := Record(t, r.id, r.slot, r.root), rs + [r];
    assert r in rs' && forall x :: x in rs' <==> x in rs || x == r;
    forall root | root in t'.blocks
      ensures exists x :: x in rs' && x.root == root && x.slot == t'.blocks[root].slot
    {
      if root in t.blocks {
        var x :| x in rs && x.root == root && x.slot == t.blocks[root].slot;
        assert x in rs';
      }
    }
    forall root, id | root in t'.blocks
      ensures id in t'.blocks[root].seenBy <==> exists x :: x in rs' && x.root == root && x.id == id
    {
      if root in t.blocks && id in t.blocks[root].seenBy {
        var x :| x in rs && x.root == root && x.id == id;
        assert x in rs';
      }
    }
    forall root | root in t.blocks ensures exists x :: x in rs' && x.root == root {
      var x :| x in rs && x.root == root;
      assert x in rs';
    }
    if t.maxSlot == t'.maxSlot != 0 {
      var x :| x in rs && x.slot == t.maxSlot;
      assert x in rs';
    }
  }

  lemma {:induction false} ReplayReflects(rs: seq<Report>)
    ensures Reflects(Replay(rs), rs)
  {
    if rs != [] {
      ReplayReflects(rs[..|rs| - 1]);
      ReflectsOneMore(Replay(rs[..|rs| - 1]), rs[..|rs| - 1], rs[|rs| - 1]);
      assert rs[..|rs| - 1] + [rs[|rs| - 1]] == rs;
    }
  }

  lemma SameBlock(t: Tracker, u: Tracker, xs: seq<Report>, ys: seq<Report>, root: string)
    requires Reflects(t, xs) && Reflects(u, ys) && SameReports(xs, ys) && OneSlotPerRoot(xs)
    requires root in t.blocks
    ensures root in u.blocks && t.blocks[root].slot == u.blocks[root].slot
    ensures t.blocks[root].seenBy == u.blocks[root].seenBy
  {
    var x :| x in xs && x.root == root && x.slot == t.blocks[root].slot;
    assert x in ys;
    var y :| y in ys && y.root == root && y.slot == u.blocks[root].slot;
    assert y in xs;
    forall id ensures id in t.blocks[root].seenBy <==> id in u.blocks[root].seenBy {
      if id in t.blocks[root].seenBy {
        var z :| z in xs && z.root == root && z.id == id;
        assert z in ys;
      }
      if id in u.blocks[root].seenBy {
        var z :| z in ys && z.root == root && z.id == id;
        assert z in xs;
      }
    }
  }

  lemma SameTop(t: Tracker, u: Tracker, xs: seq<Report>, ys: seq<Report>)
    requires Reflects(t, xs) && Reflects(u, ys) && SameReports(xs, ys)
    ensures t.maxSlot <= u.maxSlot
  {
    if t.maxSlot != 0 {
      var x :| x in xs && x.slot == t.maxSlot;
      assert x in ys;
    }
  }

  lemma ReflectionUnique(t: Tracker, u: Tracker, xs: seq<Report>, ys: seq<Report>)
    requires Reflects(t, xs) && Reflects(u, ys) && SameReports(xs, ys) && OneSlotPerRoot(xs)
    ensures t == u
  {
    SameTop(t, u, xs, ys);
    SameTop(u, t, ys, xs);
    assert OneSlotPerRoot(ys);
    assert t.blocks == u.blocks by {
      forall root | root in t.blocks ensures root in u.blocks && t.blocks[root] == u.blocks[root] {
        SameBlock(t, u, xs, ys, root);
      }
      forall root | root in u.blocks ensures root in t.blocks {
        SameBlock(u, t, ys, xs, root);
      }
    }
  }

  lemma OneSlotSuffices(xs: seq<Report>, ys: seq<Report>)
    requires SameReports(xs, ys) && OneSlotPerRoot(xs)
    ensures Replay(xs) == Replay(ys)
  {
    ReplayReflects(xs);
    ReplayReflects(ys);
    ReflectionUnique(Replay(xs), Replay(ys), xs, ys);
  }

  lemma TwoSlotsDiffer(rs: seq<Report>, a: Report, b: Report)
    requires a in rs && b in rs && a.root == b.root && a.slot != b.slot
    ensures SameReports(rs, [a] + rs) && SameReports(rs, [b] + rs) && Replay([a] + rs) != Replay([b] + rs)
  {
    FirstReportFixesSlot(a, rs);
    FirstReportFixesSlot(b, rs);
  }

  /**
   The tracker depends only on the set of reports, exactly when each root is
   always reported at one slot.
   */
  lemma OrderInsensitive(rs: seq<Report>)
    ensures OneSlotPerRoot(rs) <==> forall ys :: SameReports(rs, ys) ==> Replay(ys) == Replay(rs)
  {
    if OneSlotPerRoot(rs) {
      forall ys | SameReports(rs, ys) ensures Replay(ys) == Replay(rs) {
        OneSlotSuffices(rs, ys);
      }
    } else {
      var a, b :| a in rs && b in rs && a.root == b.root && a.slot != b.slot;
      TwoSlotsDiffer(rs, a, b);
    }
  }

  /** A root keeps the slot it was first reported at. */
  lemma {:induction false} FirstReportFixesSlot(a: Report, rs: seq<Report>)
    ensures a.root in Replay([a] + rs).blocks && Replay([a] + rs).blocks[a.root].slot == a.slot
  {
    var xs := [a] + rs;
    if rs == [] {
      assert xs[..0] == [] && Replay([]) == EMPTY;
    } else {
      FirstReportFixesSlot(a, rs[..|rs| - 1]);
      assert xs[..|xs| - 1] == [a] + rs[..|rs| - 1];
    }
  }

  /** Heads and fork statuses inherit it, whatever the order of the reports. */
  lemma SameReportsSameAnswers(p: Params, xs: seq<Report>, ys: seq<Report>, countRemote: bool, id: string)
    requires SameReports(xs, ys) && OneSlotPerRoot(xs)
    ensures Replay(xs).maxSlot == Replay(ys).maxSlot
    ensures HeadOf(p, Replay(xs), countRemote) == HeadOf(p, Replay(ys), countRemote)
    ensures StatusOf(p, Replay(xs), HeadOf(p, Replay(xs), true), id) == StatusOf(p, Replay(ys), HeadOf(p, Replay(ys), true), id)
  {
    OneSlotSuffices(xs, ys);
  }

  /** Some report by `id` was for this slot. */
  ghost predicate ReportedAt(rs: seq<Report>, id: string, slot: int) {
    exists r :: r in rs && r.id == id && r.slot == slot
  }

  ghost predicate ReportedRoot(rs: seq<Report>, id: string, root: string) {
    exists r :: r in rs && r.id == id && r.root == root
  }

  /** A block the tracker holds is at the slot of every report for it. */
  lemma BlockSlot(rs: seq<Report>, r: Report)
    requires OneSlotPerRoot(rs) && r in rs
    ensures r.root in Replay(rs).blocks && Replay(rs).blocks[r.root].slot == r.slot && r.id in Replay(rs).blocks[r.root].seenBy
  {
    ReplayReflects(rs);
    var x :| x in rs && x.root == r.root && x.slot == Replay(rs).blocks[r.root].slot;
  }

  lemma SeenIsReported(rs: seq<Report>, root: string, id: string)
    requires OneSlotPerRoot(rs)
    ensures root in Replay(rs).blocks && id in Replay(rs).blocks[root].seenBy <==> ReportedRoot(rs, id, root)
  {
    ReplayReflects(rs);
  }

  lemma SawIsReported(rs: seq<Report>, id: string, slot: int)
    requires OneSlotPerRoot(rs)
    ensures SawBlockAt(Replay(rs), id, slot) <==> ReportedAt(rs, id, slot)
  {
    var t := Replay(rs);
    if SawBlockAt(t, id, slot) {
      var root :| root in t.blocks && t.blocks[root].slot == slot && id in t.blocks[root].seenBy;
      SeenIsReported(rs, root, id);
      var r :| r in rs && r.id == id && r.root == root;
      BlockSlot(rs, r);
    }
    if ReportedAt(rs, id, slot) {
      var r :| r in rs && r.id == id && r.slot == slot;
      BlockSlot(rs, r);
    }
  }

  /** The head's root is reported at the head's slot only. */
  lemma HeadReported(p: Params, rs: seq<Report>, id: string)
    requires OneSlotPerRoot(rs) && HeadOf(p, Replay(rs), true).slot != 0
    ensures var h := HeadOf(p, Replay(rs), true); ReportedRoot(rs, id, h.root) ==> ReportedAt(rs, id, h.slot)
  {
    var h := HeadOf(p, Replay(rs), true);
    if ReportedRoot(rs, id, h.root) {
      var r :| r in rs && r.id == id && r.root == h.root;
      BlockSlot(rs, r);
      assert VotedAt(Replay(rs), true, h.root, h.slot);
    }
  }

  /** An upstream is called forked exactly if it reported a block at the head's slot and never the head itself. */
  lemma ForkedExactly(p: Params, rs: seq<Report>, id: string)
    requires OneSlotPerRoot(rs)
    ensures var h := HeadOf(p, Replay(rs), true);
            StatusOf(p, Replay(rs), h, id) == Forked <==> h.slot != 0 && ReportedAt(rs, id, h.slot) && !ReportedRoot(rs, id, h.root)
  {
    var h := HeadOf(p, Replay(rs), true);
    SeenIsReported(rs, h.root, id);
    SawIsReported(rs, id, h.slot);
  }

  /** And lagging exactly if it reported nothing in the slots from the head down to the head distance below it. */
  lemma LaggingExactly(p: Params, rs: seq<Report>, id: string)
    requires OneSlotPerRoot(rs)
    ensures var h := HeadOf(p, Replay(rs), true);
            StatusOf(p, Replay(rs), h, id) == Lagging <==>
            h.slot != 0 && forall s :: 0 < s <= h.slot && h.slot - p.maxHead <= s ==> !ReportedAt(rs, id, s)
  {
    var t, h := Replay(rs), HeadOf(p, Replay(rs), true);
    forall s ensures SawBlockAt(t, id, s) <==> ReportedAt(rs, id, s) {
      SawIsReported(rs, id, s);
    }
    if h.slot != 0 {
      SeenIsReported(rs, h.root, id);
      HeadReported(p, rs, id);
    }
  }

  // ---------------------------------------------------------------------
  // Histories with pruning
  // ---------------------------------------------------------------------

  datatype Event = Saw(clock: Clock, id: string, slot: U64, root: string) | Cleanup

  ghost function After(p: Params, es: seq<Event>): Tracker {
    if es == [] then EMPTY else Apply(p, After(p, es[..|es| - 1]), es[|es| - 1])
  }

  ghost function Apply(p: Params, t: Tracker, e: Event): Tracker {
    match e
    case Saw(clock, id, slot, root) => Add(t, clock, id, slot, root)
    case Cleanup => Prune(p, t)
  }

  /** The same history with all remote votes deleted. */
  ghost function Local(es: seq<Event>): seq<Event> {
    if es == [] then []
    else
      var rest, e := Local(es[..|es| - 1]), es[|es| - 1];
      if e.Saw? && e.id == REMOTE then rest else rest + [e]
  }

  /** Every root is always reported at the slot `at` says. */
  ghost predicate Consistent(es: seq<Event>, at: string -> U64) {
    forall e :: e in es && e.Saw? ==> e.slot == at(e.root)
  }

  ghost function LocalVoters(t: Tracker, r: string): set<string> {
    if r in t.blocks then t.blocks[r].seenBy - {REMOTE} else {}
  }

  ghost predicate Placed(t: Tracker, at: string -> U64) {
    forall r :: r in t.blocks ==> t.blocks[r].slot == at(r) <= t.maxSlot
  }

  ghost predicate OnlyLocal(t: Tracker) {
    forall r :: r in t.blocks ==> REMOTE !in t.blocks[r].seenBy && t.blocks[r].seenBy != {}
  }

  ghost predicate Topped(t: Tracker) {
    t.maxSlot > 0 ==> exists r :: r in t.blocks && t.blocks[r].slot == t.maxSlot
  }

  ghost predicate SameLocalVotes(p: Params, f: Tracker, l: Tracker, at: string -> U64) {
    forall r :: at(r) + p.follow >= f.maxSlot ==> LocalVoters(f, r) == LocalVoters(l, r)
  }

  /** The full history against its local part, on the blocks pruning still keeps. */
  ghost predicate Shadows(p: Params, f: Tracker, l: Tracker, at: string -> U64) {
    && l.maxSlot <= f.maxSlot
    && Placed(f, at)
    && Placed(l, at)
    && OnlyLocal(l)
    && Topped(l)
    && SameLocalVotes(p, f, l, at)
  }

  lemma RecordVoters(t: Tracker, at: string -> U64, id: string, root: string, r: string)
    ensures var u := Record(t, id, at(root), root);
            LocalVoters(u, r) == LocalVoters(t, r) + if r == root && id != REMOTE then {id} else {}
  {
  }

  lemma ShadowsReport(p: Params, f: Tracker, l: Tracker, at: string -> U64, e: Event)
    requires Shadows(p, f, l, at) && e.Saw? && e.slot == at(e.root)
    ensures e.id != REMOTE ==> Shadows(p, Apply(p, f, e), Apply(p, l, e), at)
    ensures e.id == REMOTE ==> Shadows(p, Apply(p, f, e), l, at)
  {
    if Plausible(e.clock, e.slot) {
      forall r ensures LocalVoters(f, r) == LocalVoters(l, r) ==>
                         && (e.id != REMOTE ==> LocalVoters(Apply(p, f, e), r) == LocalVoters(Apply(p, l, e), r))
                         && (e.id == REMOTE ==> LocalVoters(Apply(p, f, e), r) == LocalVoters(l, r))
      {
        RecordVoters(f, at, e.id, e.root, r);
        RecordVoters(l, at, e.id, e.root, r);
      }
    }
  }

  lemma {:induction false} HistoryShadows(p: Params, es: seq<Event>, at: string -> U64)
    requires Consistent(es, at)
    ensures Shadows(p, After(p, es), After(p, Local(es)), at)
  {
    if es != [] {
      var front, e := es[..|es| - 1], es[|es| - 1];
      HistoryShadows(p, front, at);
      var f, l := After(p, front), After(p, Local(front));
      if e.Saw? {
        ShadowsReport(p, f, l, at, e);
      }
      if !(e.Saw? && e.id == REMOTE) {
        assert Local(es)[..|Local(es)| - 1] == Local(front);
      }
    }
  }

  /** Without remote votes both heads are the same. */
  lemma LocalHeadEither(p: Params, l: Tracker, h: Head)
    requires OnlyLocal(l) && IsHead(p, l, false, h)
    ensures IsHead(p, l, true, h)
  {
    forall r | r in l.blocks ensures Voters(l.blocks[r], false) == Voters(l.blocks[r], true) {
    }
    forall r, s ensures VotedAt(l, true, r, s) <==> VotedAt(l, false, r, s) {
    }
  }

  /** In the local history the head, if the window exists, is at the highest slot. */
  lemma LocalHeadOnTop(p: Params, f: Tracker, l: Tracker, at: string -> U64)
    requires Shadows(p, f, l, at) && l.maxSlot > p.maxHead
    ensures HeadOf(p, l, false) != NO_HEAD && HeadOf(p, l, false).slot == l.maxSlot
    ensures HeadOf(p, l, true) == HeadOf(p, l, false)
  {
    var h := HeadOf(p, l, false);
    var r :| r in l.blocks && l.blocks[r].slot == l.maxSlot;
    assert l.blocks[r].seenBy - {REMOTE} == l.blocks[r].seenBy;
    assert VotedAt(l, false, r, l.maxSlot);
    WindowBounds(p, l, l.maxSlot);
    LocalHeadEither(p, l, h);
    HeadUnique(p, l, true, h, HeadOf(p, l, true));
  }

  /** A locally reported slot inside the full history's window. */
  ghost predicate Reaches(p: Params, f: Tracker, l: Tracker) {
    0 < l.maxSlot && p.maxHead < f.maxSlot && f.maxSlot - l.maxSlot <= p.maxHead
  }

  lemma WindowVotes(p: Params, f: Tracker, l: Tracker, at: string -> U64, r: string, s: int)
    requires Shadows(p, f, l, at) && p.maxHead <= p.follow && InWindow(p, f, s)
    ensures VotedAt(f, false, r, s) <==> VotedAt(l, false, r, s)
    ensures VotedAt(l, false, r, s) ==> s <= l.maxSlot && Voters(f.blocks[r], false) == Voters(l.blocks[r], false)
  {
    WindowBounds(p, f, s);
  }

  lemma LocalHeadSlot(p: Params, f: Tracker, l: Tracker, at: string -> U64)
    requires Shadows(p, f, l, at) && p.maxHead <= p.follow
    ensures HeadOf(p, f, false) != NO_HEAD <==> Reaches(p, f, l)
    ensures Reaches(p, f, l) ==> HeadOf(p, f, false).slot == l.maxSlot
  {
    var h := HeadOf(p, f, false);
    WindowBounds(p, f, h.slot);
    WindowBounds(p, f, l.maxSlot);
    if h != NO_HEAD {
      WindowVotes(p, f, l, at, h.root, h.slot);
    }
    if Reaches(p, f, l) {
      var r :| r in l.blocks && l.blocks[r].slot == l.maxSlot;
      assert l.blocks[r].seenBy - {REMOTE} == l.blocks[r].seenBy;
      assert VotedAt(l, false, r, l.maxSlot);
      WindowVotes(p, f, l, at, r, l.maxSlot);
    }
  }

  lemma SameLocalHead(p: Params, f: Tracker, l: Tracker, at: string -> U64)
    requires Shadows(p, f, l, at) && p.maxHead <= p.follow && p.maxHead < l.maxSlot && Reaches(p, f, l)
    ensures HeadOf(p, f, false) == HeadOf(p, l, true)
  {
    LocalHeadOnTop(p, f, l, at);
    LocalHeadSlot(p, f, l, at);
    var g, h := HeadOf(p, f, false), HeadOf(p, l, false);
    WindowBounds(p, l, h.slot);
    WindowBounds(p, f, h.slot);
    WindowVotes(p, f, l, at, g.root, h.slot);
    WindowVotes(p, f, l, at, h.root, h.slot);
    assert Beats(f, false, g.root, h.root) && Beats(l, false, h.root, g.root);
    LexAntisymmetric(g.root, h.root);
  }

  /**
   The local head of the full history is empty exactly when local reports do not
   reach into its window. It is the head of the history without remote votes, or
   empty, exactly when that history has outgrown the head distance or does not
   reach the window at all.
   */
  lemma LocalHeadIgnoresRemoteVotes(p: Params, es: seq<Event>, at: string -> U64)
    requires Consistent(es, at) && p.maxHead <= p.follow
    ensures var f, l := After(p, es), After(p, Local(es));
            && (HeadOf(p, f, false) != NO_HEAD <==> Reaches(p, f, l))
            && (HeadOf(p, f, false) == HeadOf(p, l, true) || HeadOf(p, f, false) == NO_HEAD <==>
                p.maxHead < l.maxSlot || !Reaches(p, f, l))
  {
    HistoryShadows(p, es, at);
    var f, l := After(p, es), After(p, Local(es));
    LocalHeadSlot(p, f, l, at);
    if p.maxHead < l.maxSlot {
      if Reaches(p, f, l) {
        SameLocalHead(p, f, l, at);
      }
    } else {
      WindowBounds(p, l, HeadOf(p, l, true).slot);
    }
  }

  const EARLY_CLOCK := Clock(0, 0, 0)

  /** A local report below the head distance and a remote one above it. */
  const EARLY: seq<Event> := [Saw(EARLY_CLOCK, "a", 1, "x"), Saw(EARLY_CLOCK, REMOTE, 3, "y")]

  lemma EarlyTrackers(p: Params)
    ensures After(p, Local(EARLY)) == Record(EMPTY, "a", 1, "x")
    ensures After(p, EARLY) == Record(Record(EMPTY, "a", 1, "x"), REMOTE, 3, "y")
  {
    var first := [EARLY[0]];
    assert EARLY[..1] == first && first[..|first| - 1] == [];
    assert After(p, []) == EMPTY && Local([]) == [];
    assert After(p, first) == Record(EMPTY, "a", 1, "x");
    assert Local(first) == first && Local(EARLY) == first;
  }

  /** The condition of `LocalHeadIgnoresRemoteVotes` does fail there. */
  lemma EarlyLocalHeadDependsOnRemoteVotes(p: Params)
    requires p == Params(32, 2)
    ensures HeadOf(p, After(p, EARLY), false) == Head(1, "x")
    ensures HeadOf(p, After(p, Local(EARLY)), true) == NO_HEAD
  {
    EarlyTrackers(p);
    var f, l := Record(Record(EMPTY, "a", 1, "x"), REMOTE, 3, "y"), Record(EMPTY, "a", 1, "x");
    var at: string -> U64 := r => if r == "x" then 1 else 3;
    assert Consistent(EARLY, at);
    HistoryShadows(p, EARLY, at);
    LocalHeadSlot(p, f, l, at);
    assert HeadOf(p, f, false).root in f.blocks;
    WindowBounds(p, l, HeadOf(p, l, true).slot);
  }

  /**
   With consistent slots and every vote counted, there is a head exactly when
   the highest slot exceeds the head distance, and it is at the highest slot.
   The documented majority at the highest known slot therefore fails only while
   the chain is younger than the head distance.
   */
  lemma HeadExactlyAfterDistance(p: Params, rs: seq<Report>)
    requires OneSlotPerRoot(rs) && exists r :: r in rs && r.slot > 0
    ensures var t := Replay(rs);
            var h := HeadOf(p, t, true);
            && (h != NO_HEAD <==> t.maxSlot > p.maxHead)
            && (h != NO_HEAD ==> h.slot == t.maxSlot)
  {
    ReplayReflects(rs);
    var t := Replay(rs);
    var h := HeadOf(p, t, true);
    var r :| r in rs && r.slot == t.maxSlot;
    assert r.root in t.blocks;
    var q :| q in rs && q.root == r.root && q.slot == t.blocks[r.root].slot;
    assert r.id in t.blocks[r.root].seenBy;
    assert VotedAt(t, true, r.root, t.maxSlot);
    WindowBounds(p, t, t.maxSlot);
    WindowBounds(p, t, h.slot);
  }
}
