/**
 The fork tracker's rules: votes per block, the canonical head among them, an
 upstream's fork status, pruning. Slots are 64-bit and wrap as in the source.
 */
module ForkTracker {
  import opened Options
  import opened Sorting

  const TWO64: int := 0x1_0000_0000_0000_0000

  type U64 = x: int | 0 <= x < TWO64

  /** Subtraction modulo 2^64. */
  function Sub64(a: U64, b: U64): U64 {
    if a >= b then a - b else a - b + TWO64
  }

  /** The voter that stands for the heads other instances publish. */
  const REMOTE: string := "@remote"

  datatype Params = Params(follow: U64, maxHead: U64)

  datatype Block = Block(slot: U64, seenBy: set<string>)

  datatype Tracker = Tracker(blocks: map<string, Block>, maxSlot: U64)

  datatype Head = Head(slot: U64, root: string)

  const EMPTY := Tracker(map[], 0)
  const NO_HEAD := Head(0, "")

  // ---------------------------------------------------------------------
  // Wall clock
  // ---------------------------------------------------------------------

  const DEFAULT_SECONDS_PER_SLOT := 12
  const CLOCK_SKEW_SECONDS := 600

  datatype Clock = Clock(now: int, genesis: int, secondsPerSlot: int)

  /** The slot the wall clock allows, with ten minutes of tolerance, if genesis is known and past. */
  function WallSlot(c: Clock): (r: Option<nat>)
    ensures r.Some? <==> 0 < c.genesis < c.now
  {
    if c.genesis <= 0 || c.now <= c.genesis then None
    else
      var slotSeconds := if c.secondsPerSlot <= 0 then DEFAULT_SECONDS_PER_SLOT else c.secondsPerSlot;
      Some((c.now - c.genesis + CLOCK_SKEW_SECONDS) / slotSeconds)
  }

  predicate Plausible(c: Clock, slot: U64) {
    WallSlot(c).Some? ==> slot <= WallSlot(c).value
  }

  // ---------------------------------------------------------------------
  // Reports and pruning
  // ---------------------------------------------------------------------

  /** A known root gains a voter and keeps its slot; a new root is entered at the reported slot. */
  function Vote(blocks: map<string, Block>, id: string, slot: U64, root: string): map<string, Block> {
    blocks[root := if root in blocks then Block(blocks[root].slot, blocks[root].seenBy + {id}) else Block(slot, {id})]
  }

  function Record(t: Tracker, id: string, slot: U64, root: string): Tracker {
    Tracker(Vote(t.blocks, id, slot, root), if slot > t.maxSlot then slot else t.maxSlot)
  }

  function Add(t: Tracker, c: Clock, id: string, slot: U64, root: string): Tracker {
    if Plausible(c, slot) then Record(t, id, slot, root) else t
  }

  function From(blocks: map<string, Block>, cutoff: U64): map<string, Block> {
    map r | r in blocks && blocks[r].slot >= cutoff :: blocks[r]
  }

  function Prune(p: Params, t: Tracker): Tracker {
    if t.maxSlot <= p.follow then t else Tracker(From(t.blocks, t.maxSlot - p.follow), t.maxSlot)
  }

  // ---------------------------------------------------------------------
  // The canonical head
  // ---------------------------------------------------------------------

  function Voters(b: Block, countRemote: bool): set<string> {
    if countRemote then b.seenBy else b.seenBy - {REMOTE}
  }

  /** The slots the head walk visits, with the lower bound computed in 64 bits. */
  predicate InWindow(p: Params, t: Tracker, s: int) {
    0 < s <= t.maxSlot && s > Sub64(Sub64(t.maxSlot, p.maxHead), 1)
  }

  lemma WindowBounds(p: Params, t: Tracker, s: int)
    ensures InWindow(p, t, s) <==> p.maxHead < t.maxSlot && 0 < s <= t.maxSlot && t.maxSlot - p.maxHead <= s
  {
  }

  ghost predicate VotedAt(t: Tracker, countRemote: bool, root: string, s: int) {
    root in t.blocks && t.blocks[root].slot == s && Voters(t.blocks[root], countRemote) != {}
  }

  /** `a` beats or equals `b`: more votes, or as many and the lesser root. */
  ghost predicate Beats(t: Tracker, countRemote: bool, a: string, b: string)
    requires a in t.blocks && b in t.blocks
  {
    var va, vb := |Voters(t.blocks[a], countRemote)|, |Voters(t.blocks[b], countRemote)|;
    va > vb || (va == vb && LexLeq(a, b))
  }

  /** Most votes, then least root, at the highest slot of the window that has a voted block. */
  ghost predicate IsHead(p: Params, t: Tracker, countRemote: bool, h: Head) {
    if h == NO_HEAD then forall s, r :: InWindow(p, t, s) ==> !VotedAt(t, countRemote, r, s)
    else
      && InWindow(p, t, h.slot)
      && VotedAt(t, countRemote, h.root, h.slot)
      && (forall s, r :: InWindow(p, t, s) && s > h.slot ==> !VotedAt(t, countRemote, r, s))
      && (forall r :: VotedAt(t, countRemote, r, h.slot) ==> Beats(t, countRemote, h.root, r))
  }

  lemma HeadUnique(p: Params, t: Tracker, countRemote: bool, g: Head, h: Head)
    requires IsHead(p, t, countRemote, g) && IsHead(p, t, countRemote, h)
    ensures g == h
  {
    if g != NO_HEAD && h != NO_HEAD {
      assert g.slot == h.slot;
      assert Beats(t, countRemote, g.root, h.root) && Beats(t, countRemote, h.root, g.root);
      LexAntisymmetric(g.root, h.root);
    }
  }

  /** No block at the head's slot has more voters than the head, and one with as many has a greater root. */
  lemma MajorityWins(p: Params, t: Tracker, countRemote: bool, root: string)
    requires HeadOf(p, t, countRemote) != NO_HEAD && root in t.blocks && t.blocks[root].slot == HeadOf(p, t, countRemote).slot
    requires root != HeadOf(p, t, countRemote).root
    ensures var h := HeadOf(p, t, countRemote);
            && h.root in t.blocks && t.blocks[h.root].slot == h.slot
            && var mine, theirs := |Voters(t.blocks[h.root], countRemote)|, |Voters(t.blocks[root], countRemote)|;
               theirs < mine || (theirs == mine && LexLess(h.root, root))
  {
    var h := HeadOf(p, t, countRemote);
    if VotedAt(t, countRemote, root, h.slot) {
      assert Beats(t, countRemote, h.root, root);
    }
  }

  lemma {:induction false} BestAmong(t: Tracker, countRemote: bool, roots: set<string>) returns (best: string)
    requires roots != {} && forall r :: r in roots ==> r in t.blocks
    ensures best in roots && forall r :: r in roots ==> Beats(t, countRemote, best, r)
    decreases |roots|
  {
    var x :| x in roots;
    LexTotal(x, x);
    if roots == {x} {
      return x;
    }
    var rest := roots - {x};
    assert roots == rest + {x};
    best := BestAmong(t, countRemote, rest);
    LexTotal(x, best);
    if !Beats(t, countRemote, best, x) {
      forall r | r in roots ensures Beats(t, countRemote, x, r) {
        if r != x {
          assert r in rest && Beats(t, countRemote, best, r);
          if LexLeq(x, best) && LexLeq(best, r) {
            LexTransitive(x, best, r);
          }
        }
      }
      best := x;
    }
  }

  lemma {:induction false} HeadExistsBelow(p: Params, t: Tracker, countRemote: bool, s: nat) returns (h: Head)
    requires s <= t.maxSlot
    requires forall z, r :: InWindow(p, t, z) && z > s ==> !VotedAt(t, countRemote, r, z)
    ensures IsHead(p, t, countRemote, h)
    decreases s
  {
    var here := set r | r in t.blocks && VotedAt(t, countRemote, r, s);
    if !InWindow(p, t, s) || s == 0 {
      forall z, r | InWindow(p, t, z) ensures !VotedAt(t, countRemote, r, z) {
        WindowBounds(p, t, z);
        WindowBounds(p, t, s);
      }
      return NO_HEAD;
    }
    if here == {} {
      forall r ensures !VotedAt(t, countRemote, r, s) {
        assert r !in here;
      }
      h := HeadExistsBelow(p, t, countRemote, s - 1);
    } else {
      var best := BestAmong(t, countRemote, here);
      h := Head(s, best);
      forall r | VotedAt(t, countRemote, r, s) ensures Beats(t, countRemote, best, r) {
        assert r in here;
      }
    }
  }

  lemma HeadExists(p: Params, t: Tracker, countRemote: bool)
    ensures exists h :: IsHead(p, t, countRemote, h)
  {
    var h := HeadExistsBelow(p, t, countRemote, t.maxSlot);
  }

  ghost function HeadOf(p: Params, t: Tracker, countRemote: bool): (h: Head)
    ensures IsHead(p, t, countRemote, h)
  {
    HeadExists(p, t, countRemote);
    var h :| IsHead(p, t, countRemote, h);
    h
  }

  // ---------------------------------------------------------------------
  // Fork status
  // ---------------------------------------------------------------------

  datatype ForkStatus = Canonical | Forked | Lagging

  ghost predicate SawBlockAt(t: Tracker, id: string, s: int) {
    exists r :: r in t.blocks && t.blocks[r].slot == s && id in t.blocks[r].seenBy
  }

  ghost function StatusOf(p: Params, t: Tracker, h: Head, id: string): ForkStatus {
    if h.slot == 0 then Canonical
    else if h.root in t.blocks && id in t.blocks[h.root].seenBy then Canonical
    else if SawBlockAt(t, id, h.slot) then Forked
    else if exists s :: 0 < s < h.slot && h.slot - s <= p.maxHead && SawBlockAt(t, id, s) then Canonical
    else Lagging
  }

  /** Pruning forgets exactly the blocks more than followDistance slots below the highest slot. */
  lemma PruneForgets(p: Params, t: Tracker, root: string)
    ensures root in Prune(p, t).blocks <==> root in t.blocks && t.maxSlot - p.follow <= t.blocks[root].slot
    ensures root in Prune(p, t).blocks ==> Prune(p, t).blocks[root] == t.blocks[root]
    ensures Prune(p, t).maxSlot == t.maxSlot
  {
  }

  /** An implausible report changes nothing; a plausible one is a vote for its root, and leaves the others alone. */
  lemma AddMeans(t: Tracker, c: Clock, id: string, slot: U64, root: string, other: string)
    ensures !Plausible(c, slot) ==> Add(t, c, id, slot, root) == t
    ensures Plausible(c, slot) ==>
              var u := Add(t, c, id, slot, root);
              && root in u.blocks && id in u.blocks[root].seenBy && slot <= u.maxSlot
              && u.blocks[root].slot == (if root in t.blocks then t.blocks[root].slot else slot)
              && (other != root ==> (other in u.blocks <==> other in t.blocks) && (other in t.blocks ==> u.blocks[other] == t.blocks[other]))
  {
  }

  // ---------------------------------------------------------------------
  // Pruning keeps heads and statuses
  // ---------------------------------------------------------------------

  lemma PruneKeepsHead(p: Params, t: Tracker, countRemote: bool, h: Head)
    requires p.maxHead <= p.follow
    ensures IsHead(p, Prune(p, t), countRemote, h) <==> IsHead(p, t, countRemote, h)
  {
    var u := Prune(p, t);
    forall s, r | InWindow(p, t, s)
      ensures InWindow(p, u, s)
      ensures VotedAt(u, countRemote, r, s) <==> VotedAt(t, countRemote, r, s)
      ensures VotedAt(t, countRemote, r, s) ==> u.blocks[r] == t.blocks[r]
    {
    }
    assert forall s :: InWindow(p, u, s) <==> InWindow(p, t, s);
    if h != NO_HEAD && InWindow(p, t, h.slot) && VotedAt(t, countRemote, h.root, h.slot) {
      forall r | VotedAt(t, countRemote, r, h.slot)
        ensures Beats(u, countRemote, h.root, r) <==> Beats(t, countRemote, h.root, r)
      {
      }
    }
  }

  lemma PruneKeepsSight(p: Params, t: Tracker, id: string, s: int)
    requires t.maxSlot <= p.follow || t.maxSlot - p.follow <= s
    ensures SawBlockAt(Prune(p, t), id, s) <==> SawBlockAt(t, id, s)
  {
    var u := Prune(p, t);
    if SawBlockAt(t, id, s) {
      var r :| r in t.blocks && t.blocks[r].slot == s && id in t.blocks[r].seenBy;
      assert r in u.blocks;
    }
  }

  /** With twice the head distance kept, pruning changes nobody's fork status. */
  lemma PruneKeepsStatus(p: Params, t: Tracker, h: Head, id: string)
    requires 2 * p.maxHead <= p.follow && IsHead(p, t, true, h)
    ensures StatusOf(p, Prune(p, t), h, id) == StatusOf(p, t, h, id)
  {
    if h.slot != 0 {
      WindowBounds(p, t, h.slot);
      forall s | h.slot - p.maxHead <= s <= h.slot
        ensures SawBlockAt(Prune(p, t), id, s) <==> SawBlockAt(t, id, s)
      {
        PruneKeepsSight(p, t, id, s);
      }
    }
  }
}
