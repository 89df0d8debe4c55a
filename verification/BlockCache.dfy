/**
 The fork tracker as the source keeps it: block objects shared by an index by
 slot and an index by root, and a memoised canonical head.
 */
module BlockCaches {
  import opened Options
  import opened Sorting
  import opened ForkTracker

  /** `best` is the winner among the voted roots of the list. */
  ghost predicate BestOf(t: Tracker, countRemote: bool, roots: seq<string>, best: Option<string>) {
    && (forall r :: r in roots ==> r in t.blocks)
    && (best == None ==> forall r :: r in roots ==> Voters(t.blocks[r], countRemote) == {})
    && (best.Some? ==>
          && best.value in roots
          && Voters(t.blocks[best.value], countRemote) != {}
          && forall r :: r in roots && Voters(t.blocks[r], countRemote) != {} ==> Beats(t, countRemote, best.value, r))
  }

  lemma FirstBest(t: Tracker, countRemote: bool, roots: seq<string>, r: string)
    requires BestOf(t, countRemote, roots, None) && r in t.blocks
    ensures BestOf(t, countRemote, roots + [r], if Voters(t.blocks[r], countRemote) != {} then Some(r) else None)
  {
    LexTotal(r, r);
  }

  lemma OldBest(t: Tracker, countRemote: bool, roots: seq<string>, best: string, r: string)
    requires BestOf(t, countRemote, roots, Some(best)) && r in t.blocks
    requires Voters(t.blocks[r], countRemote) == {} || Beats(t, countRemote, best, r)
    ensures BestOf(t, countRemote, roots + [r], Some(best))
  {
  }

  lemma NewBest(t: Tracker, countRemote: bool, roots: seq<string>, best: string, r: string)
    requires BestOf(t, countRemote, roots, Some(best)) && r in t.blocks && Voters(t.blocks[r], countRemote) != {}
    requires Beats(t, countRemote, r, best)
    ensures BestOf(t, countRemote, roots + [r], Some(r))
  {
    LexTotal(r, r);
    forall q | q in roots && Voters(t.blocks[q], countRemote) != {} ensures Beats(t, countRemote, r, q) {
      assert Beats(t, countRemote, best, q);
      if LexLeq(r, best) && LexLeq(best, q) {
        LexTransitive(r, best, q);
      }
    }
  }

  /** One more root: it wins if it has votes and nobody leads, or more votes, or as many and a lesser root. */
  lemma BestOfNext(t: Tracker, countRemote: bool, roots: seq<string>, best: Option<string>, r: string)
    requires BestOf(t, countRemote, roots, best) && r in t.blocks
    ensures var n := |Voters(t.blocks[r], countRemote)|;
            var better := n > 0 && (best == None
                                    || n > |Voters(t.blocks[best.value], countRemote)|
                                    || (n == |Voters(t.blocks[best.value], countRemote)| && LexLess(r, best.value)));
            BestOf(t, countRemote, roots + [r], if better then Some(r) else best)
  {
    var voted := Voters(t.blocks[r], countRemote) != {};
    if best == None {
      FirstBest(t, countRemote, roots, r);
    } else {
      LexTotal(r, best.value);
      if voted && Beats(t, countRemote, r, best.value) && r != best.value {
        NewBest(t, countRemote, roots, best.value, r);
        if LexLeq(r, best.value) && LexLeq(best.value, r) {
          LexAntisymmetric(r, best.value);
        }
      } else {
        OldBest(t, countRemote, roots, best.value, r);
      }
    }
  }

  /** No window slot above `s` has a voted block. */
  ghost predicate NoneAbove(p: Params, t: Tracker, countRemote: bool, s: U64) {
    forall z, r :: InWindow(p, t, z) && z > s ==> !VotedAt(t, countRemote, r, z)
  }

  lemma NoneAboveNext(p: Params, t: Tracker, countRemote: bool, s: U64)
    requires s > 0 && NoneAbove(p, t, countRemote, s) && forall r :: !VotedAt(t, countRemote, r, s)
    ensures NoneAbove(p, t, countRemote, s - 1)
  {
  }

  class TrackedBlock {
    const slot: U64
    const root: string
    var seenBy: set<string>

    constructor (slot: U64, root: string, id: string)
      ensures this.slot == slot && this.root == root && seenBy == {id}
    {
      this.slot, this.root, seenBy := slot, root, {id};
    }

    function AsBlock(): Block
      reads this
    {
      Block(slot, seenBy)
    }
  }

  method CountVotes(b: TrackedBlock, countRemote: bool) returns (count: nat)
    ensures count == |Voters(b.AsBlock(), countRemote)|
  {
    count := |b.seenBy|;
    if !countRemote && REMOTE in b.seenBy {
      assert b.seenBy == (b.seenBy - {REMOTE}) + {REMOTE};
      count := count - 1;
    } else if !countRemote {
      assert b.seenBy - {REMOTE} == b.seenBy;
    }
  }

  ghost function Roots(blocks: seq<TrackedBlock>): seq<string> {
    seq(|blocks|, i requires 0 <= i < |blocks| => blocks[i].root)
  }

  lemma InRoots(blocks: seq<TrackedBlock>, b: TrackedBlock)
    requires b in blocks
    ensures b.root in Roots(blocks)
  {
    var i :| 0 <= i < |blocks| && blocks[i] == b;
    assert Roots(blocks)[i] == b.root;
  }

  /** The inner loop of the head walk: most votes, then least root. */
  method BestBlock(blocks: seq<TrackedBlock>, ghost t: Tracker, countRemote: bool) returns (best: Option<TrackedBlock>)
    requires forall b :: b in blocks ==> b.root in t.blocks && t.blocks[b.root] == b.AsBlock()
    ensures best.Some? ==> best.value in blocks
    ensures BestOf(t, countRemote, Roots(blocks), if best.Some? then Some(best.value.root) else None)
  {
    best := None;
    var bestCount := 0;
    ghost var roots := Roots(blocks);
    for i := 0 to |blocks|
      invariant best.Some? ==> best.value in blocks && bestCount == |Voters(t.blocks[best.value.root], countRemote)|
      invariant BestOf(t, countRemote, roots[..i], if best.Some? then Some(best.value.root) else None)
    {
      var b := blocks[i];
      var count := CountVotes(b, countRemote);
      BestOfNext(t, countRemote, roots[..i], if best.Some? then Some(best.value.root) else None, b.root);
      assert roots[..i + 1] == roots[..i] + [b.root];
      if count == 0 {
        continue;
      }
      if best == None || count > bestCount || (count == bestCount && LexLess(b.root, best.value.root)) {
        best, bestCount := Some(b), count;
      }
    }
    assert roots[..|blocks|] == roots;
  }

  function BlocksAt(bySlot: map<U64, seq<TrackedBlock>>, s: U64): seq<TrackedBlock> {
    if s in bySlot then bySlot[s] else []
  }

  /** Both indexes hold the same blocks, each under its own slot and root. */
  ghost predicate SameBlocks(byRoot: map<string, TrackedBlock>, bySlot: map<U64, seq<TrackedBlock>>) {
    && (forall r :: r in byRoot ==> byRoot[r].root == r && byRoot[r] in BlocksAt(bySlot, byRoot[r].slot))
    && (forall s, b :: b in BlocksAt(bySlot, s) ==> b.slot == s && b.root in byRoot && byRoot[b.root] == b)
  }

  /** No slot lists a block twice. */
  ghost predicate ListedOnce(bySlot: map<U64, seq<TrackedBlock>>) {
    forall s, i, j :: s in bySlot && 0 <= i < j < |bySlot[s]| ==> bySlot[s][i] != bySlot[s][j]
  }

  lemma AppendedAt(bySlot: map<U64, seq<TrackedBlock>>, b: TrackedBlock, s: U64, c: TrackedBlock)
    ensures c in BlocksAt(bySlot[b.slot := BlocksAt(bySlot, b.slot) + [b]], s) <==>
            c in BlocksAt(bySlot, s) || (s == b.slot && c == b)
  {
    assert c in BlocksAt(bySlot, b.slot) + [b] <==> c in BlocksAt(bySlot, b.slot) || c == b;
  }

  lemma SameBlocksAdded(byRoot: map<string, TrackedBlock>, bySlot: map<U64, seq<TrackedBlock>>, b: TrackedBlock)
    requires SameBlocks(byRoot, bySlot) && ListedOnce(bySlot) && b.root !in byRoot
    ensures SameBlocks(byRoot[b.root := b], bySlot[b.slot := BlocksAt(bySlot, b.slot) + [b]])
    ensures ListedOnce(bySlot[b.slot := BlocksAt(bySlot, b.slot) + [b]])
  {
    var blocks := BlocksAt(bySlot, b.slot);
    var byRoot', bySlot' := byRoot[b.root := b], bySlot[b.slot := blocks + [b]];
    forall s, c | c in BlocksAt(bySlot', s) ensures c.slot == s && c.root in byRoot' && byRoot'[c.root] == c {
      AppendedAt(bySlot, b, s, c);
    }
    forall r | r in byRoot' ensures byRoot'[r].root == r && byRoot'[r] in BlocksAt(bySlot', byRoot'[r].slot) {
      AppendedAt(bySlot, b, byRoot'[r].slot, byRoot'[r]);
    }
    assert forall i :: 0 <= i < |blocks| ==> blocks[i] in BlocksAt(bySlot, b.slot);
  }

  /** The blocks by root are these values. */
  ghost predicate Shows(byRoot: map<string, TrackedBlock>, blocks: map<string, Block>)
    reads byRoot.Values
  {
    && (forall r :: r in byRoot <==> r in blocks)
    && (forall r :: r in byRoot ==> byRoot[r].AsBlock() == blocks[r])
  }

  /** With one block brought up to date, the blocks show the vote. */
  lemma VoteShown(byRoot: map<string, TrackedBlock>, blocks: map<string, Block>, id: string, slot: U64, root: string)
    requires forall r :: r in byRoot <==> r in blocks || r == root
    requires forall r :: r in byRoot && r != root ==> byRoot[r].AsBlock() == blocks[r]
    requires byRoot[root].AsBlock() == if root in blocks then Block(blocks[root].slot, blocks[root].seenBy + {id}) else Block(slot, {id})
    ensures Shows(byRoot, Vote(blocks, id, slot, root))
  {
  }

  ghost function OutsideSlots(byRoot: map<string, TrackedBlock>, dropped: set<U64>): map<string, TrackedBlock> {
    map r | r in byRoot && byRoot[r].slot !in dropped :: byRoot[r]
  }

  /** The blocks listed at a slot are the blocks indexed with that slot. */
  lemma RootsAt(byRoot: map<string, TrackedBlock>, bySlot: map<U64, seq<TrackedBlock>>, dropped: set<U64>, slot: U64)
    requires SameBlocks(byRoot, bySlot) && slot in bySlot && slot !in dropped
    ensures OutsideSlots(byRoot, dropped) - (set j | 0 <= j < |bySlot[slot]| :: bySlot[slot][j].root) ==
            OutsideSlots(byRoot, dropped + {slot})
  {
    var blocks := bySlot[slot];
    var gone := set j | 0 <= j < |blocks| :: blocks[j].root;
    forall r | r in byRoot ensures r in gone <==> byRoot[r].slot == slot {
      if byRoot[r].slot == slot {
        assert byRoot[r] in BlocksAt(bySlot, slot);
        var j :| 0 <= j < |blocks| && blocks[j] == byRoot[r];
        assert blocks[j].root == r;
      }
      if r in gone {
        var j :| 0 <= j < |blocks| && blocks[j].root == r;
        assert blocks[j] in BlocksAt(bySlot, slot);
      }
    }
  }

  lemma DroppedSlots(byRoot: map<string, TrackedBlock>, bySlot: map<U64, seq<TrackedBlock>>, dropped: set<U64>)
    requires SameBlocks(byRoot, bySlot) && ListedOnce(bySlot)
    ensures SameBlocks(OutsideSlots(byRoot, dropped), bySlot - dropped) && ListedOnce(bySlot - dropped)
  {
    assert forall s, b :: b in BlocksAt(bySlot - dropped, s) ==> b in BlocksAt(bySlot, s) && s !in dropped;
    assert forall s :: s !in dropped ==> BlocksAt(bySlot - dropped, s) == BlocksAt(bySlot, s);
  }

  class BlockCache {
    const params: Params
    var slotMap: map<U64, seq<TrackedBlock>>
    var rootMap: map<string, TrackedBlock>
    var maxSlot: U64
    var canonSlot: U64
    var canonRoot: string
    ghost var view: Tracker

    function At(s: U64): seq<TrackedBlock>
      reads this`slotMap
    {
      BlocksAt(slotMap, s)
    }

    /** The two indexes agree, and `view` is what they hold. */
    ghost predicate Indexed()
      reads this`slotMap, this`rootMap, this`maxSlot, this`view, rootMap.Values
    {
      SameBlocks(rootMap, slotMap) && ListedOnce(slotMap) && Shows(rootMap, view.blocks) && view.maxSlot == maxSlot
    }

    ghost predicate Valid()
      reads this, rootMap.Values
    {
      Indexed() && IsHead(params, view, true, Head(canonSlot, canonRoot))
    }

    constructor (params: Params)
      ensures Valid() && this.params == params && view == EMPTY && fresh(rootMap.Values)
    {
      this.params := params;
      slotMap, rootMap, maxSlot, canonSlot, canonRoot := map[], map[], 0, 0, "";
      view := EMPTY;
    }

    /** The best voted block at one slot, if any. */
    method BestAt(s: U64, countRemote: bool) returns (best: Option<TrackedBlock>)
      requires Indexed()
      ensures best == None ==> forall r :: !VotedAt(view, countRemote, r, s)
      ensures best.Some? ==>
                && best.value.slot == s
                && VotedAt(view, countRemote, best.value.root, s)
                && forall r :: VotedAt(view, countRemote, r, s) ==> Beats(view, countRemote, best.value.root, r)
    {
      var blocks := At(s);
      ghost var t := view;
      assert forall b :: b in blocks ==> b.root in t.blocks && t.blocks[b.root] == b.AsBlock();
      best := BestBlock(blocks, t, countRemote);
      forall r | VotedAt(t, countRemote, r, s) ensures r in Roots(blocks) {
        InRoots(blocks, rootMap[r]);
      }
    }

    /** Walks down from the highest slot; no cache. */
    method CanonicalHead(countRemote: bool) returns (h: Head)
      requires Indexed()
      ensures IsHead(params, view, countRemote, h)
    {
      h := NO_HEAD;
      if maxSlot == 0 {
        return;
      }
      var s: U64 := maxSlot;
      while s > 0 && s > Sub64(Sub64(maxSlot, params.maxHead), 1)
        invariant s <= maxSlot && NoneAbove(params, view, countRemote, s)
        decreases s
      {
        var best := BestAt(s, countRemote);
        if best.Some? {
          return Head(best.value.slot, best.value.root);
        }
        NoneAboveNext(params, view, countRemote, s);
        s := s - 1;
      }
    }

    method Refresh()
      requires Indexed()
      modifies this`canonSlot, this`canonRoot
      ensures Valid() && view == old(view)
    {
      var h := CanonicalHead(true);
      canonSlot, canonRoot := h.slot, h.root;
      assert Indexed();
      assert Head(canonSlot, canonRoot) == h;
    }

    method LocalCanonicalHead() returns (h: Head)
      requires Valid()
      ensures h == HeadOf(params, view, false)
    {
      h := CanonicalHead(false);
      HeadUnique(params, view, false, h, HeadOf(params, view, false));
    }

    method AddBlock(clock: Clock, id: string, slot: U64, root: string)
      requires Valid()
      modifies this, rootMap.Values
      ensures Valid() && fresh(rootMap.Values - old(rootMap.Values))
      ensures view == Add(old(view), clock, id, slot, root)
    {
      if Plausible(clock, slot) {
        Insert(id, slot, root);
        Refresh();
      }
    }

    /** Records the vote, creating the block if its root is new. */
    method Insert(id: string, slot: U64, root: string)
      requires Indexed()
      modifies this`slotMap, this`rootMap, this`maxSlot, this`view, rootMap.Values
      ensures Indexed() && fresh(rootMap.Values - old(rootMap.Values))
      ensures view == Record(old(view), id, slot, root)
    {
      EnterVote(id, slot, root);
      RaiseMaxSlot(slot, Vote(view.blocks, id, slot, root));
    }

    method RaiseMaxSlot(slot: U64, ghost blocks: map<string, Block>)
      requires SameBlocks(rootMap, slotMap) && ListedOnce(slotMap) && Shows(rootMap, blocks)
      modifies this`maxSlot, this`view
      ensures Indexed() && view == Tracker(blocks, if slot > old(maxSlot) then slot else old(maxSlot))
    {
      if slot > maxSlot {
        maxSlot := slot;
      }
      view := Tracker(blocks, maxSlot);
    }

    method EnterVote(id: string, slot: U64, root: string)
      requires Indexed()
      modifies this`slotMap, this`rootMap, rootMap.Values
      ensures SameBlocks(rootMap, slotMap) && ListedOnce(slotMap) && fresh(rootMap.Values - old(rootMap.Values))
      ensures Shows(rootMap, Vote(view.blocks, id, slot, root))
    {
      if root in rootMap {
        AddVote(root, id, slot);
      } else {
        AddNew(id, slot, root);
      }
    }

    method AddNew(id: string, slot: U64, root: string)
      requires Indexed() && root !in rootMap
      modifies this`slotMap, this`rootMap
      ensures SameBlocks(rootMap, slotMap) && ListedOnce(slotMap) && fresh(rootMap.Values - old(rootMap.Values))
      ensures Shows(rootMap, Vote(view.blocks, id, slot, root))
    {
      var b := new TrackedBlock(slot, root, id);
      Index(b);
      VoteShown(rootMap, view.blocks, id, slot, root);
    }

    /** Enters a new block into both indexes. */
    method Index(b: TrackedBlock)
      requires SameBlocks(rootMap, slotMap) && ListedOnce(slotMap) && b.root !in rootMap
      modifies this`slotMap, this`rootMap
      ensures SameBlocks(rootMap, slotMap) && ListedOnce(slotMap) && rootMap == old(rootMap)[b.root := b]
    {
      SameBlocksAdded(rootMap, slotMap, b);
      rootMap, slotMap := rootMap[b.root := b], slotMap[b.slot := BlocksAt(slotMap, b.slot) + [b]];
    }

    method AddVote(root: string, id: string, ghost slot: U64)
      requires Indexed() && root in rootMap
      modifies rootMap[root]
      ensures Shows(rootMap, Vote(view.blocks, id, slot, root))
    {
      var b := rootMap[root];
      assert forall r :: r in rootMap && rootMap[r] == b ==> r == root;
      b.seenBy := b.seenBy + {id};
      VoteShown(rootMap, view.blocks, id, slot, root);
    }

    /** Forgets the blocks more than followDistance slots behind the highest slot. */
    method Cleanup()
      requires Valid()
      modifies this`slotMap, this`rootMap, this`canonSlot, this`canonRoot, this`view
      ensures Valid() && rootMap.Values <= old(rootMap.Values)
      ensures view == Prune(params, old(view))
    {
      if maxSlot > params.follow {
        PruneOld();
        Refresh();
      }
    }

    method PruneOld()
      requires Indexed() && maxSlot > params.follow
      modifies this`slotMap, this`rootMap, this`view
      ensures Indexed() && rootMap.Values <= old(rootMap.Values)
      ensures view == Prune(params, old(view))
    {
      Forget(maxSlot - params.follow);
      SetView(Prune(params, view));
    }

    /** The indexes show this tracker now. */
    ghost method SetView(tracker: Tracker)
      requires SameBlocks(rootMap, slotMap) && ListedOnce(slotMap) && Shows(rootMap, tracker.blocks) && tracker.maxSlot == maxSlot
      modifies this`view
      ensures Indexed() && view == tracker
    {
      view := tracker;
    }

    method Forget(cutoff: U64)
      requires Indexed()
      modifies this`slotMap, this`rootMap
      ensures SameBlocks(rootMap, slotMap) && ListedOnce(slotMap) && rootMap.Values <= old(rootMap.Values)
      ensures Shows(rootMap, From(view.blocks, cutoff))
    {
      ghost var dropped := set s | s in slotMap && s < cutoff;
      DroppedSlots(rootMap, slotMap, dropped);
      DropBelow(cutoff);
    }

    /** Visits the slots in any order and deletes those below the cutoff from both indexes. */
    method DropBelow(cutoff: U64)
      requires Indexed()
      modifies this`slotMap, this`rootMap
      ensures var dropped := set s | s in old(slotMap) && s < cutoff;
              rootMap == OutsideSlots(old(rootMap), dropped) && slotMap == old(slotMap) - dropped
    {
      ghost var byRoot, bySlot := rootMap, slotMap;
      var todo := slotMap.Keys;
      ghost var dropped: set<U64> := {};
      assert OutsideSlots(byRoot, {}) == byRoot && bySlot - {} == bySlot;
      while todo != {}
        invariant rootMap == OutsideSlots(byRoot, dropped) && slotMap == bySlot - dropped
        invariant todo <= slotMap.Keys
        invariant forall s :: s in dropped <==> s in bySlot && s < cutoff && s !in todo
        decreases |todo|
      {
        var slot :| slot in todo;
        todo := todo - {slot};
        if slot < cutoff {
          DropRoots(slot, byRoot, bySlot, dropped);
          slotMap := slotMap - {slot};
          assert bySlot - dropped - {slot} == bySlot - (dropped + {slot});
          dropped := dropped + {slot};
        }
      }
      assert dropped == set s | s in bySlot && s < cutoff;
    }

    /** Deletes from the index by root every block listed at one slot. */
    method DropRoots(slot: U64, ghost byRoot: map<string, TrackedBlock>, ghost bySlot: map<U64, seq<TrackedBlock>>, ghost dropped: set<U64>)
      requires SameBlocks(byRoot, bySlot) && slot in slotMap && slot !in dropped
      requires rootMap == OutsideSlots(byRoot, dropped) && slotMap == bySlot - dropped
      modifies this`rootMap
      ensures rootMap == OutsideSlots(byRoot, dropped + {slot})
    {
      var blocks := slotMap[slot];
      RootsAt(byRoot, bySlot, dropped, slot);
      DeleteRoots(blocks);
    }

    method DeleteRoots(blocks: seq<TrackedBlock>)
      modifies this`rootMap
      ensures rootMap == old(rootMap) - (set j | 0 <= j < |blocks| :: blocks[j].root)
    {
      ghost var before := rootMap;
      ghost var gone: set<string> := {};
      assert before - {} == before;
      for i := 0 to |blocks|
        invariant gone == set j | 0 <= j < i :: blocks[j].root
        invariant rootMap == before - gone
      {
        rootMap := rootMap - {blocks[i].root};
        assert before - gone - {blocks[i].root} == before - (gone + {blocks[i].root});
        gone := gone + {blocks[i].root};
      }
    }

    method ForkStatusOf(id: string) returns (status: ForkStatus)
      requires Valid()
      ensures status == StatusOf(params, view, HeadOf(params, view, true), id)
    {
      HeadUnique(params, view, true, Head(canonSlot, canonRoot), HeadOf(params, view, true));
      if canonSlot == 0 {
        return Canonical;
      }
      if canonRoot in rootMap && id in rootMap[canonRoot].seenBy {
        return Canonical;
      }
      var at := SeenAt(canonSlot, id);
      if at {
        return Forked;
      }
      var near := SeenJustBelow(canonSlot, id);
      return if near then Canonical else Lagging;
    }

    /** Walks down from below `head` as far as the head distance allows. */
    method SeenJustBelow(head: U64, id: string) returns (near: bool)
      requires Indexed() && head > 0
      ensures near <==> exists s :: 0 < s < head && head - s <= params.maxHead && SawBlockAt(view, id, s)
    {
      var s: U64 := head - 1;
      while s > 0 && head - s <= params.maxHead
        invariant 0 <= s < head
        invariant forall z :: s < z < head ==> !SawBlockAt(view, id, z)
        decreases s
      {
        near := SeenAt(s, id);
        if near {
          return;
        }
        s := s - 1;
      }
      near := false;
    }

    /** Whether the upstream reported some block of slot `s`. */
    method SeenAt(s: U64, id: string) returns (b: bool)
      requires Indexed()
      ensures b <==> SawBlockAt(view, id, s)
    {
      var blocks := At(s);
      ghost var t := view;
      assert forall x :: x in blocks ==> x.root in t.blocks && t.blocks[x.root] == x.AsBlock();
      for i := 0 to |blocks|
        invariant forall j :: 0 <= j < i ==> id !in blocks[j].seenBy
      {
        if id in blocks[i].seenBy {
          assert t.blocks[blocks[i].root] == blocks[i].AsBlock();
          return true;
        }
      }
      forall r | r in t.blocks && t.blocks[r].slot == s ensures id !in t.blocks[r].seenBy {
        assert rootMap[r] in blocks;
      }
      return false;
    }

    /** The upstreams that reported the head, without the remote voter; empty when there is no head. */
    method CanonicalHeadSeenBy() returns (out: set<string>)
      requires Valid()
      ensures var h := HeadOf(params, view, true);
              out == if h.root != "" && h.root in view.blocks then Voters(view.blocks[h.root], false) else {}
    {
      HeadUnique(params, view, true, Head(canonSlot, canonRoot), HeadOf(params, view, true));
      if canonRoot == "" || canonRoot !in rootMap {
        return {};
      }
      return rootMap[canonRoot].seenBy - {REMOTE};
    }
  }
}
