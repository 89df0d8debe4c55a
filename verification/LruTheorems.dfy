/** The memory store over every run, against a plain map whose entries expire. */
module LruTheorems {
  import opened Options
  import opened LruSpec

  datatype Op =
    | Get(now: int, key: Key)
    | Set(now: int, entry: Entry)
    | Delete(now: int, key: Key)
    | Promote(now: int, fn: Key -> bool)
    | List(now: int, limit: int)

  function Step(s: seq<Entry>, max: nat, op: Op): seq<Entry>
    requires max >= 1
  {
    match op
    case Get(now, k) => AfterGet(s, k, now)
    case Set(_, e) => AfterSet(s, max, e)
    case Delete(_, k) => Without(s, k)
    case Promote(now, fn) => AfterPromote(s, now, fn)
    case List(now, limit) => AfterList(s, now, limit)
  }

  ghost function Run(max: nat, ops: seq<Op>): seq<Entry>
    requires max >= 1
  {
    if ops == [] then [] else Step(Run(max, ops[..|ops| - 1]), max, ops[|ops| - 1])
  }

  /** The plain map: no recency, no capacity, nothing removed on expiry. */
  ghost function Reference(ops: seq<Op>): map<Key, Entry> {
    if ops == [] then map[]
    else
      var m := Reference(ops[..|ops| - 1]);
      match ops[|ops| - 1]
      case Set(_, e) => m[e.key := e]
      case Delete(_, k) => m - {k}
      case Promote(now, fn) => map k | k in m :: PromotedEntry(m[k], now, fn)
      case _ => m
  }

  lemma {:induction false} ReferenceKeyed(ops: seq<Op>, k: Key)
    ensures k in Reference(ops) ==> Reference(ops)[k].key == k
  {
    if ops != [] {
      ReferenceKeyed(ops[..|ops| - 1], k);
    }
  }

  // ---------------------------------------------------------------------
  // Capacity and refinement
  // ---------------------------------------------------------------------

  lemma StepBounded(s: seq<Entry>, max: nat, op: Op)
    requires max >= 1 && Distinct(s) && |s| <= max
    ensures Distinct(Step(s, max, op)) && |Step(s, max, op)| <= max
  {
    match op
    case Get(now, k) =>
      WithoutKeys(s, k);
    case Set(_, e) =>
      WithoutKeys(s, e.key);
      if |s| == max {
        CutKeys(s, max - 1);
      }
    case Delete(_, k) => WithoutKeys(s, k);
    case Promote(now, fn) => PromoteKeys(s, now, fn);
    case List(now, limit) => ListKeys(s, now, limit);
  }

  /** The store never exceeds its capacity and never lists a key twice. */
  lemma {:induction false} Bounded(max: nat, ops: seq<Op>)
    requires max >= 1
    ensures Distinct(Run(max, ops)) && |Run(max, ops)| <= max
  {
    if ops != [] {
      Bounded(max, ops[..|ops| - 1]);
      StepBounded(Run(max, ops[..|ops| - 1]), max, ops[|ops| - 1]);
    }
  }

  lemma {:induction false} FindWithout(s: seq<Entry>, j: Key, k: Key)
    ensures Find(Without(s, j), k) == if k == j then None else Find(s, k)
  {
    if s != [] {
      FindWithout(s[1..], j, k);
    }
  }

  lemma {:induction false} FindCut(s: seq<Entry>, m: nat, k: Key)
    requires m <= |s|
    ensures Find(s[..m], k).Some? ==> Find(s[..m], k) == Find(s, k)
  {
    if m > 0 {
      assert s[..m][1..] == s[1..][..m - 1];
      FindCut(s[1..], m - 1, k);
    }
  }

  lemma SetFinds(s: seq<Entry>, max: nat, e: Entry, k: Key)
    requires max >= 1
    ensures var r := Find(AfterSet(s, max, e), k);
            if e.key == k then r == Some(e) else r.Some? ==> r == Find(s, k)
  {
    if Find(s, e.key).Some? {
      FindWithout(s, e.key, k);
    } else if |s| < max {
    } else {
      FindCut(s, max - 1, k);
    }
  }

  /** What one step makes of what is found under a key. */
  lemma StepFinds(s: seq<Entry>, max: nat, op: Op, k: Key)
    requires max >= 1 && Distinct(s)
    ensures Find(Step(s, max, op), k).Some? ==>
              match op
              case Set(_, e) => if e.key == k then Find(Step(s, max, op), k) == Some(e) else Find(Step(s, max, op), k) == Find(s, k)
              case Delete(_, j) => j != k && Find(Step(s, max, op), k) == Find(s, k)
              case Promote(now, fn) => Find(s, k).Some? && Find(Step(s, max, op), k) == Some(PromotedEntry(Find(s, k).value, now, fn))
              case _ => Find(Step(s, max, op), k) == Find(s, k)
  {
    match op
    case Get(now, j) =>
      FindWithout(s, j, k);
    case Set(_, e) => SetFinds(s, max, e, k);
    case Delete(_, j) => FindWithout(s, j, k);
    case Promote(now, fn) => PromoteFinds(s, now, fn, k);
    case List(now, limit) => ListFinds(s, now, limit, k);
  }

  /** Whatever the store holds is what the plain map holds. */
  lemma {:induction false} StoreRefinesMap(max: nat, ops: seq<Op>, k: Key)
    requires max >= 1
    ensures var r := Find(Run(max, ops), k);
            r.Some? ==> k in Reference(ops) && Reference(ops)[k] == r.value
  {
    if ops != [] {
      var front := ops[..|ops| - 1];
      StoreRefinesMap(max, front, k);
      Bounded(max, front);
      StepFinds(Run(max, front), max, ops[|ops| - 1], k);
    }
  }

  /** A hit is the plain map's entry, live at the time of asking. */
  lemma HitsAreCurrent(max: nat, ops: seq<Op>, k: Key, now: int)
    requires max >= 1 && Got(Run(max, ops), k, now).Some?
    ensures k in Reference(ops) && Got(Run(max, ops), k, now) == Some(Reference(ops)[k])
    ensures Reference(ops)[k].expires.Some? ==> now <= Reference(ops)[k].expires.value
  {
    StoreRefinesMap(max, ops, k);
  }

  /** What was just stored is served until its time to live is over, and forever without one. */
  lemma ServedWhileAlive(max: nat, ops: seq<Op>, k: Key, body: string, ttl: int, at: int, now: int)
    requires max >= 1
    ensures var entry := Entry(k, body, Expiry(ttl, at));
            Got(Run(max, ops + [Set(at, entry)]), k, now) == if ttl <= 0 || now <= at + ttl then Some(entry) else None
  {
    var op := Set(at, Entry(k, body, Expiry(ttl, at)));
    assert (ops + [op])[..|ops + [op]| - 1] == ops && (ops + [op])[|ops + [op]| - 1] == op;
    Bounded(max, ops);
    SetFinds(Run(max, ops), max, op.entry, k);
  }

  // ---------------------------------------------------------------------
  // Retention
  // ---------------------------------------------------------------------

  /** The keys an operation moves or puts to the front. */
  ghost function Touched(s: seq<Entry>, op: Op): set<Key> {
    match op
    case Get(now, k) => if Got(s, k, now).Some? then {k} else {}
    case Set(_, e) => {e.key}
    case _ => {}
  }

  /** The distinct other keys touched by `after`, run from `s`. */
  ghost function Others(s: seq<Entry>, max: nat, after: seq<Op>, k: Key): set<Key>
    requires max >= 1
  {
    if after == [] then {}
    else
      var front := after[..|after| - 1];
      Others(s, max, front, k) + (Touched(RunFrom(s, max, front), after[|after| - 1]) - {k})
  }

  ghost function RunFrom(s: seq<Entry>, max: nat, ops: seq<Op>): seq<Entry>
    requires max >= 1
  {
    if ops == [] then s else Step(RunFrom(s, max, ops[..|ops| - 1]), max, ops[|ops| - 1])
  }

  lemma {:induction false} RunJoins(max: nat, before: seq<Op>, after: seq<Op>)
    requires max >= 1
    ensures RunFrom(Run(max, before), max, after) == Run(max, before + after)
  {
    if after == [] {
      assert before + after == before;
    } else {
      RunJoins(max, before, after[..|after| - 1]);
      assert (before + after)[..|before + after| - 1] == before + after[..|after| - 1];
    }
  }

  /** The step keeps `k` and puts nothing but what it touches ahead of it, given room for the keys ahead. */
  lemma StepRetains(s: seq<Entry>, max: nat, op: Op, k: Key)
    requires max >= 1 && Distinct(s) && |s| <= max && Find(s, k).Some?
    requires !(op.Delete? && op.key == k) && !Expired(Find(s, k).value, op.now)
    requires |Ahead(s, k) + Touched(s, op) - {k}| < max
    ensures Find(Step(s, max, op), k).Some?
    ensures Ahead(Step(s, max, op), k) <= Ahead(s, k) + Touched(s, op) - {k}
  {
    AheadKeys(s, k);
    match op
    case Get(now, j) => GetRetains(s, now, j, k);
    case Set(_, e) => SetRetains(s, max, e, k, Ahead(s, k) + {e.key} - {k});
    case Delete(_, j) =>
      FindWithout(s, j, k);
      AheadWithout(s, j, k);
    case Promote(now, fn) =>
      PromoteFinds(s, now, fn, k);
      AheadPromote(s, now, fn, k);
    case List(now, limit) =>
      ListFinds(s, now, limit, k);
      AheadList(s, now, limit, k);
  }

  lemma GetRetains(s: seq<Entry>, now: int, j: Key, k: Key)
    requires Distinct(s) && Find(s, k).Some? && !Expired(Find(s, k).value, now)
    ensures Find(AfterGet(s, j, now), k).Some?
    ensures Ahead(AfterGet(s, j, now), k) <= Ahead(s, k) + (if Got(s, j, now).Some? then {j} else {}) - {k}
  {
    AheadKeys(s, k);
    FindWithout(s, j, k);
    if Find(s, j).Some? {
      if j != k {
        AheadWithout(s, j, k);
      }
    }
  }

  lemma PushedAhead(e: Entry, s: seq<Entry>, k: Key)
    requires e.key != k
    ensures Ahead([e] + s, k) == {e.key} + Ahead(s, k) && Find([e] + s, k) == Find(s, k)
  {
    assert ([e] + s)[1..] == s;
  }

  lemma SubsetSize(a: set<Key>, b: set<Key>)
    requires a <= b
    ensures |a| <= |b|
  {
    if a != {} {
      var x :| x in a;
      SubsetSize(a - {x}, b - {x});
    }
  }

  lemma CutFinds(s: seq<Entry>, m: nat, k: Key)
    requires Distinct(s) && Find(s, k).Some? && |Ahead(s, k)| < m <= |s|
    ensures Find(s[..m], k).Some? && Ahead(s[..m], k) <= Ahead(s, k)
  {
    CutKeeps(s, m, k);
  }

  /** A key that is not in the store is not among those ahead, so a set with it and them is larger. */
  lemma RoomLeft(s: seq<Entry>, j: Key, k: Key, reach: set<Key>)
    requires Find(s, j).None? && Ahead(s, k) <= reach && j in reach
    ensures |Ahead(s, k)| < |reach|
  {
    AheadKeys(s, k);
    SubsetSize(Ahead(s, k), reach - {j});
  }

  /** A cut to no fewer entries than are in reach keeps `k`. */
  lemma CutInReach(s: seq<Entry>, m: nat, j: Key, k: Key, reach: set<Key>)
    requires Distinct(s) && Find(s, k).Some? && Find(s, j).None?
    requires Ahead(s, k) <= reach && j in reach && |reach| <= m <= |s|
    ensures Find(s[..m], k).Some? && Ahead(s[..m], k) <= reach
  {
    RoomLeft(s, j, k, reach);
    CutFinds(s, m, k);
  }

  lemma PushRetains(s: seq<Entry>, e: Entry, k: Key, reach: set<Key>)
    requires e.key != k && Find(s, k).Some? && Ahead(s, k) <= reach && e.key in reach
    ensures Find([e] + s, k).Some? && Ahead([e] + s, k) <= reach
  {
    PushedAhead(e, s, k);
  }

  lemma RefreshRetains(s: seq<Entry>, e: Entry, k: Key, reach: set<Key>)
    requires Distinct(s) && Find(s, k).Some? && Ahead(s, k) <= reach && (e.key != k ==> e.key in reach)
    ensures Find([e] + Without(s, e.key), k).Some? && Ahead([e] + Without(s, e.key), k) <= reach
  {
    if e.key != k {
      FindWithout(s, e.key, k);
      AheadWithout(s, e.key, k);
      PushRetains(Without(s, e.key), e, k, reach);
    }
  }

  /** Storing keeps `k` and puts nothing ahead of it but what is in reach, if there is room for that. */
  lemma SetRetains(s: seq<Entry>, max: nat, e: Entry, k: Key, reach: set<Key>)
    requires max >= 1 && Distinct(s) && |s| <= max && Find(s, k).Some?
    requires Ahead(s, k) <= reach && (e.key != k ==> e.key in reach) && |reach| < max
    ensures Find(AfterSet(s, max, e), k).Some? && Ahead(AfterSet(s, max, e), k) <= reach
  {
    if Find(s, e.key).Some? {
      RefreshRetains(s, e, k, reach);
    } else if |s| < max {
      PushRetains(s, e, k, reach);
    } else {
      CutInReach(s, max - 1, e.key, k, reach);
      PushRetains(s[..max - 1], e, k, reach);
    }
  }

  /** While it is there, `k` is live at every operation of `after`. */
  ghost predicate LiveThroughout(s: seq<Entry>, max: nat, after: seq<Op>, k: Key)
    requires max >= 1
  {
    forall i :: 0 <= i < |after| && Find(RunFrom(s, max, after[..i]), k).Some? ==>
      !Expired(Find(RunFrom(s, max, after[..i]), k).value, after[i].now)
  }

  lemma {:induction false} Retains(s: seq<Entry>, max: nat, after: seq<Op>, k: Key)
    requires max >= 1 && Distinct(s) && |s| <= max && Find(s, k).Some? && Ahead(s, k) == {}
    requires forall op :: op in after && op.Delete? ==> op.key != k
    requires LiveThroughout(s, max, after, k)
    requires |Others(s, max, after, k)| < max
    ensures var t := RunFrom(s, max, after);
            Distinct(t) && |t| <= max && Find(t, k).Some? && Ahead(t, k) <= Others(s, max, after, k)
  {
    if after != [] {
      var front, op := after[..|after| - 1], after[|after| - 1];
      forall i | 0 <= i < |front| ensures front[..i] == after[..i] && front[i] == after[i] {
      }
      assert LiveThroughout(s, max, front, k);
      SubsetSize(Others(s, max, front, k), Others(s, max, after, k));
      Retains(s, max, front, k);
      var t := RunFrom(s, max, front);
      StepBounded(t, max, op);
      AheadKeys(t, k);
      SubsetSize(Ahead(t, k) + Touched(t, op) - {k}, Others(s, max, after, k));
      StepRetains(t, max, op, k);
    }
  }

  // ---------------------------------------------------------------------
  // Liveness carried backwards in time
  // ---------------------------------------------------------------------

  ghost predicate InOrder(ops: seq<Op>, now: int) {
    && (forall i, j :: 0 <= i < j < |ops| ==> ops[i].now <= ops[j].now)
    && (forall i :: 0 <= i < |ops| ==> ops[i].now <= now)
  }

  ghost predicate LeavesAlone(ops: seq<Op>, k: Key) {
    forall op :: op in ops ==> !(op.Delete? && op.key == k) && !(op.Set? && op.entry.key == k)
  }

  /** An entry nobody sets or deletes that is live at the end was live before. */
  lemma {:induction false} LiveBefore(before: seq<Op>, after: seq<Op>, k: Key, now: int, past: int)
    requires LeavesAlone(after, k) && InOrder(after, now) && past <= now
    requires forall op :: op in after ==> past <= op.now
    requires k in Reference(before + after) && !Expired(Reference(before + after)[k], now)
    ensures k in Reference(before) && !Expired(Reference(before)[k], past)
  {
    if after == [] {
      assert before + after == before;
    } else {
      var front, op := after[..|after| - 1], after[|after| - 1];
      assert (before + after)[..|before + after| - 1] == before + front;
      assert op in after;
      LiveBefore(before, front, k, op.now, past);
    }
  }

  lemma ReferenceLive(max: nat, before: seq<Op>, after: seq<Op>, k: Key, now: int)
    requires max >= 1 && LeavesAlone(after, k) && InOrder(after, now)
    requires k in Reference(before + after) && !Expired(Reference(before + after)[k], now)
    ensures LiveThroughout(Run(max, before), max, after, k)
  {
    forall i | 0 <= i < |after| && Find(RunFrom(Run(max, before), max, after[..i]), k).Some?
      ensures !Expired(Find(RunFrom(Run(max, before), max, after[..i]), k).value, after[i].now)
    {
      var early, late := after[..i], after[i..];
      assert before + after == (before + early) + late;
      forall op | op in late ensures op in after && after[i].now <= op.now {
        var j :| 0 <= j < |late| && late[j] == op;
        assert op == after[i + j];
      }
      LiveBefore(before + early, late, k, now, after[i].now);
      RunJoins(max, before, early);
      StoreRefinesMap(max, before + early, k);
    }
  }

  /**
   A key touched with fewer than `max` distinct other keys touched since, not set
   again, deleted or expired, is still there and is what the plain map says.
   */
  lemma RecentlyTouchedStays(max: nat, before: seq<Op>, touch: Op, after: seq<Op>, k: Key, now: int)
    requires max >= 1 && InOrder(after, now) && LeavesAlone(after, k)
    requires Touched(Run(max, before), touch) == {k}
    requires var ops := before + [touch] + after;
             k in Reference(ops) && !Expired(Reference(ops)[k], now)
    requires |Others(Run(max, before + [touch]), max, after, k)| < max
    ensures var ops := before + [touch] + after;
            Got(Run(max, ops), k, now) == Some(Reference(ops)[k])
  {
    var s := Run(max, before + [touch]);
    assert (before + [touch])[..|before + [touch]| - 1] == before;
    Bounded(max, before + [touch]);
    assert Find(s, k).Some? && Ahead(s, k) == {};
    ReferenceLive(max, before + [touch], after, k, now);
    Retains(s, max, after, k);
    RunJoins(max, before + [touch], after);
    StoreRefinesMap(max, before + [touch] + after, k);
  }
}
