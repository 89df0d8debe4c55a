/** The pool's ordering and selection, built on the strategies in `Selection`. */
module PoolOrder {
  import opened Sorting
  import opened Selection

  /** What one ordering call works from: the strategy, the request counter, the statuses it reads. */
  datatype Context = Context(strategy: Strategy, index: nat, st: Statuses)

  predicate ByPriority(a: Upstream, b: Upstream) {
    a.priority <= b.priority
  }

  function Load(st: Statuses, u: Upstream): real {
    StatusOf(st, u).conns as real / Weight(u) as real
  }

  /** Least connections per weight first; ties by connections, then by ID. */
  predicate ByLoad(st: Statuses, a: Upstream, b: Upstream) {
    if a.priority != b.priority then a.priority < b.priority
    else if Load(st, a) != Load(st, b) then Load(st, a) < Load(st, b)
    else if StatusOf(st, a).conns != StatusOf(st, b).conns then StatusOf(st, a).conns < StatusOf(st, b).conns
    else LexLeq(a.id, b.id)
  }

  lemma ByLoadIsPreorder(st: Statuses)
    ensures TotalPreorder((a: Upstream, b: Upstream) => ByLoad(st, a, b))
  {
    var leq := (a: Upstream, b: Upstream) => ByLoad(st, a, b);
    forall x: Upstream, y: Upstream ensures leq(x, y) || leq(y, x) {
      LexTotal(x.id, y.id);
    }
    forall x: Upstream, y: Upstream, z: Upstream | leq(x, y) && leq(y, z) ensures leq(x, z) {
      if LexLeq(x.id, y.id) && LexLeq(y.id, z.id) {
        LexTransitive(x.id, y.id, z.id);
      }
    }
  }

  function ScoresFor(ctx: Context, ups: seq<Upstream>): map<string, Score> {
    map id | id in (set u | u in ups :: u.id) ::
      if ctx.strategy == Random then Finite(1.0)
      else if id in ctx.st then ctx.st[id].score else UNKNOWN.score
  }

  /** The weight an upstream is sampled with. */
  function Appeal(ctx: Context, u: Upstream): real {
    SampleWeight(ScoresFor(ctx, [u]), u)
  }

  ghost predicate AppealingFirst(ctx: Context, s: seq<Upstream>) {
    forall i, j :: 0 <= i < j < |s| && Appeal(ctx, s[j]) > 0.0 ==> Appeal(ctx, s[i]) > 0.0
  }

  // ---------------------------------------------------------------------
  // One priority tier
  // ---------------------------------------------------------------------

  ghost predicate TierOrdered(ctx: Context, before: seq<Upstream>, after: seq<Upstream>) {
    && multiset(after) == multiset(before)
    && (ctx.strategy == RoundRobin && before != [] ==>
          exists first :: 0 <= first < |before| && Owns(before, first, ctx.index) && after == Rotation(before, first))
    && (ctx.strategy == ByScore ==> AppealingFirst(ctx, after))
  }

  lemma RotationPermutes(s: seq<Upstream>, first: nat)
    requires first <= |s|
    ensures multiset(Rotation(s, first)) == multiset(s)
  {
    assert s == s[..first] + s[first..];
  }

  method OrderTier(ctx: Context, sub: seq<Upstream>) returns (out: seq<Upstream>)
    ensures TierOrdered(ctx, sub, out)
  {
    match ctx.strategy {
      case Random => out := OrderByChance(sub, ScoresFor(ctx, sub));
      case ByScore =>
        out := OrderByChance(sub, ScoresFor(ctx, sub));
        forall i | 0 <= i < |out| ensures Appeal(ctx, out[i]) == SampleWeight(ScoresFor(ctx, sub), out[i]) {
          MultisetMember(out[i], out, sub);
        }
      case _ =>
        var first := WeightedPrimaryIndex(sub, ctx.index);
        out := RotateUniqueFromIndex(sub, first);
        if sub != [] {
          RotationPermutes(sub, first);
        }
    }
  }

  // ---------------------------------------------------------------------
  // All tiers, in place
  // ---------------------------------------------------------------------

  /** The stretch [i, j) is a maximal run of equal priorities. */
  ghost predicate TierAt(s: seq<Upstream>, i: nat, j: nat) {
    && i < j <= |s|
    && (forall k :: i <= k < j ==> s[k].priority == s[i].priority)
    && (0 < i ==> s[i - 1].priority != s[i].priority)
    && (j < |s| ==> s[j].priority != s[i].priority)
  }

  ghost predicate TiersDone(ctx: Context, before: seq<Upstream>, now: seq<Upstream>, n: nat) {
    && n <= |before| == |now|
    && forall i: nat, j: nat :: TierAt(before, i, j) && j <= n ==> TierOrdered(ctx, before[i..j], now[i..j])
  }

  ghost predicate TiersOrdered(ctx: Context, before: seq<Upstream>, after: seq<Upstream>) {
    TiersDone(ctx, before, after, |before|)
  }

  method CopyInto(a: array<Upstream>, i: nat, sub: seq<Upstream>)
    requires i + |sub| <= a.Length
    modifies a
    ensures a[..] == old(a[..i]) + sub + old(a[i + |sub|..])
  {
    for k := 0 to |sub|
      invariant a[..] == old(a[..i]) + sub[..k] + old(a[i + k..])
    {
      a[i + k] := sub[k];
    }
  }

  /** Replacing one finished tier by its ordering finishes one tier more. */
  lemma TierReplaced(ctx: Context, before: seq<Upstream>, now: seq<Upstream>, i: nat, j: nat, sub: seq<Upstream>)
    requires TiersDone(ctx, before, now, i) && TierAt(before, i, j) && now[i..] == before[i..]
    requires |sub| == j - i && TierOrdered(ctx, before[i..j], sub)
    ensures TiersDone(ctx, before, now[..i] + sub + now[j..], j)
  {
    var next := now[..i] + sub + now[j..];
    forall p: nat, q: nat | TierAt(before, p, q) && q <= j
      ensures TierOrdered(ctx, before[p..q], next[p..q])
    {
      if q <= i {
        assert next[p..q] == now[p..q];
      } else {
        assert p == i && q == j;
        assert next[p..q] == sub;
      }
    }
  }

  lemma Replaced(now: seq<Upstream>, i: nat, j: nat, sub: seq<Upstream>)
    requires i <= j <= |now| && multiset(sub) == multiset(now[i..j])
    requires forall k, l :: i <= k < j && i <= l < j ==> now[k].priority == now[l].priority
    ensures |sub| == j - i
    ensures multiset(now[..i] + sub + now[j..]) == multiset(now)
    ensures forall k :: 0 <= k < |now| ==> (now[..i] + sub + now[j..])[k].priority == now[k].priority
  {
    assert |sub| == |multiset(sub)| == |multiset(now[i..j])| == j - i;
    assert now == now[..i] + now[i..j] + now[j..];
    forall k | i <= k < j ensures sub[k - i].priority == now[k].priority {
      MultisetMember(sub[k - i], sub, now[i..j]);
    }
  }

  /** Everything before `i` is final, everything from `i` on is untouched, and a tier starts at `i`. */
  ghost predicate Reordered(ctx: Context, before: seq<Upstream>, now: seq<Upstream>, i: nat) {
    && TiersDone(ctx, before, now, i)
    && now[i..] == before[i..]
    && (0 < i < |before| ==> before[i - 1].priority != before[i].priority)
    && multiset(now) == multiset(before)
    && forall k :: 0 <= k < |before| ==> now[k].priority == before[k].priority
  }

  lemma SliceAgrees(before: seq<Upstream>, now: seq<Upstream>, i: nat, j: nat)
    requires i <= j <= |before| == |now| && now[i..] == before[i..]
    ensures now[i..j] == before[i..j] && now[j..] == before[j..]
    ensures forall k :: i <= k < |now| ==> now[k] == before[k]
  {
    assert now[i..j] == now[i..][..j - i] && before[i..j] == before[i..][..j - i];
    assert now[j..] == now[i..][j - i..] && before[j..] == before[i..][j - i..];
    forall k | i <= k < |now| ensures now[k] == before[k] {
      assert now[k] == now[i..][k - i] && before[k] == before[i..][k - i];
    }
  }

  lemma ReorderStep(ctx: Context, before: seq<Upstream>, now: seq<Upstream>, i: nat, j: nat, sub: seq<Upstream>)
    requires Reordered(ctx, before, now, i) && i < j <= |before|
    requires forall k :: i <= k < j ==> now[k].priority == now[i].priority
    requires j < |now| ==> now[j].priority != now[i].priority
    requires TierOrdered(ctx, now[i..j], sub)
    ensures |sub| == j - i && Reordered(ctx, before, now[..i] + sub + now[j..], j)
  {
    SliceAgrees(before, now, i, j);
    Replaced(now, i, j, sub);
    TierReplaced(ctx, before, now, i, j, sub);
    assert (now[..i] + sub + now[j..])[j..] == now[j..];
  }

  method ReorderTier(a: array<Upstream>, ctx: Context, i: nat) returns (j: nat, ghost sub: seq<Upstream>)
    requires i < a.Length
    modifies a
    ensures i < j <= a.Length
    ensures forall k :: i <= k < j ==> old(a[..])[k].priority == old(a[..])[i].priority
    ensures j < a.Length ==> old(a[..])[j].priority != old(a[..])[i].priority
    ensures TierOrdered(ctx, old(a[..])[i..j], sub)
    ensures a[..] == old(a[..])[..i] + sub + old(a[..])[j..]
  {
    j := i + 1;
    while j < a.Length && a[j].priority == a[i].priority
      invariant i < j <= a.Length
      invariant forall k :: i <= k < j ==> a[k].priority == a[i].priority
    {
      j := j + 1;
    }
    var ordered := OrderTier(ctx, a[i..j]);
    sub := ordered;
    assert a[i..j] == a[..][i..j];
    assert |sub| == |multiset(sub)| == |multiset(a[i..j])| == j - i;
    CopyInto(a, i, ordered);
  }

  method ReorderWithinPriority(a: array<Upstream>, ctx: Context)
    modifies a
    ensures TiersOrdered(ctx, old(a[..]), a[..])
    ensures multiset(a[..]) == multiset(old(a[..]))
    ensures forall k :: 0 <= k < a.Length ==> a[k].priority == old(a[k].priority)
  {
    ghost var before := a[..];
    var i := 0;
    while i < a.Length
      invariant 0 <= i <= a.Length == |before|
      invariant Reordered(ctx, before, a[..], i)
    {
      ghost var now := a[..];
      ghost var sub;
      var start := i;
      i, sub := ReorderTier(a, ctx, i);
      ReorderStep(ctx, before, now, start, i, sub);
    }
    assert forall k :: 0 <= k < a.Length ==> a[..][k].priority == before[k].priority;
  }

  /** Equal priorities in a sorted list lie in one tier. */
  lemma TierAround(s: seq<Upstream>, i: nat, j: nat) returns (p: nat, q: nat)
    requires Sorted(ByPriority, s) && i <= j < |s| && s[i].priority == s[j].priority
    ensures p <= i && j < q && TierAt(s, p, q)
  {
    p, q := i, j + 1;
    assert forall k :: i < k < j ==> ByPriority(s[i], s[k]) && ByPriority(s[k], s[j]);
    while 0 < p && s[p - 1].priority == s[i].priority
      invariant 0 <= p <= i
      invariant forall k :: p <= k <= j ==> s[k].priority == s[i].priority
    {
      p := p - 1;
    }
    while q < |s| && s[q].priority == s[i].priority
      invariant j < q <= |s|
      invariant forall k :: p <= k < q ==> s[k].priority == s[i].priority
    {
      q := q + 1;
    }
  }

  /** Within one priority no upstream without appeal precedes one with appeal. */
  ghost predicate TiersAppeal(ctx: Context, s: seq<Upstream>) {
    forall i, j :: 0 <= i < j < |s| && s[i].priority == s[j].priority && Appeal(ctx, s[j]) > 0.0 ==> Appeal(ctx, s[i]) > 0.0
  }

  lemma TiersAppealing(ctx: Context, before: seq<Upstream>, after: seq<Upstream>)
    requires TiersOrdered(ctx, before, after) && ctx.strategy == ByScore && Sorted(ByPriority, before)
    requires forall k :: 0 <= k < |before| ==> after[k].priority == before[k].priority
    ensures TiersAppeal(ctx, after)
  {
    forall i, j | 0 <= i < j < |after| && after[i].priority == after[j].priority && Appeal(ctx, after[j]) > 0.0
      ensures Appeal(ctx, after[i]) > 0.0
    {
      var p, q := TierAround(before, i, j);
      assert after[p..q][i - p] == after[i] && after[p..q][j - p] == after[j];
    }
  }

  // ---------------------------------------------------------------------
  // Tiers as the upstreams of one priority
  // ---------------------------------------------------------------------

  /** The upstreams of one priority, in the order of the list. */
  ghost function Tier(s: seq<Upstream>, u: Upstream): seq<Upstream> {
    Ties(ByPriority, u, s)
  }

  lemma {:induction false} TierConcat(a: seq<Upstream>, b: seq<Upstream>, u: Upstream)
    ensures Tier(a + b, u) == Tier(a, u) + Tier(b, u)
  {
    if a == [] {
      assert a + b == b;
    } else {
      TierConcat(a[1..], b, u);
      assert (a + b)[1..] == a[1..] + b;
    }
  }

  lemma {:induction false} TierNone(s: seq<Upstream>, u: Upstream)
    requires forall k :: 0 <= k < |s| ==> s[k].priority != u.priority
    ensures Tier(s, u) == []
  {
    if s != [] {
      TierNone(s[1..], u);
    }
  }

  lemma {:induction false} TierAll(s: seq<Upstream>, u: Upstream)
    requires forall k :: 0 <= k < |s| ==> s[k].priority == u.priority
    ensures Tier(s, u) == s
  {
    if s != [] {
      TierAll(s[1..], u);
    }
  }

  lemma BesidesRun(s: seq<Upstream>, p: nat, q: nat)
    requires Sorted(ByPriority, s) && TierAt(s, p, q)
    ensures forall k :: 0 <= k < p ==> s[k].priority != s[p].priority
    ensures forall k :: q <= k < |s| ==> s[k].priority != s[p].priority
  {
    forall k | 0 <= k < p ensures s[k].priority != s[p].priority {
      assert ByPriority(s[p - 1], s[p]) && (k < p - 1 ==> ByPriority(s[k], s[p - 1]));
    }
    forall k | q <= k < |s| ensures s[k].priority != s[p].priority {
      assert ByPriority(s[p], s[q]) && (q < k ==> ByPriority(s[q], s[k]));
    }
  }

  lemma TierBetween(left: seq<Upstream>, run: seq<Upstream>, right: seq<Upstream>, u: Upstream)
    requires forall k :: 0 <= k < |left| ==> left[k].priority != u.priority
    requires forall k :: 0 <= k < |run| ==> run[k].priority == u.priority
    requires forall k :: 0 <= k < |right| ==> right[k].priority != u.priority
    ensures Tier(left + (run + right), u) == run
  {
    TierNone(left, u);
    TierAll(run, u);
    TierNone(right, u);
    TierConcat(left, run + right, u);
    TierConcat(run, right, u);
  }

  /** In a sorted list a maximal run of equal priorities is the whole tier. */
  lemma RunIsTier(s: seq<Upstream>, p: nat, q: nat, u: Upstream)
    requires Sorted(ByPriority, s) && TierAt(s, p, q) && u.priority == s[p].priority
    ensures Tier(s, u) == s[p..q]
  {
    BesidesRun(s, p, q);
    TierBetween(s[..p], s[p..q], s[q..], u);
    assert s == s[..p] + (s[p..q] + s[q..]);
  }

  /** Reordering the sorted list run by run reorders the tiers of the list as it was given. */
  lemma TiersOfOriginal(ctx: Context, ups: seq<Upstream>, out: seq<Upstream>, u: Upstream)
    requires TiersOrdered(ctx, Sort(ByPriority, ups), out) && Sorted(ByPriority, out) && u in ups
    requires forall k :: 0 <= k < |out| ==> out[k].priority == Sort(ByPriority, ups)[k].priority
    ensures TierOrdered(ctx, Tier(ups, u), Tier(out, u))
  {
    var p, q := RunOf(ups, u);
    RunIsTier(out, p, q, u);
  }

  /** Stability: an upstream's tier is one run of the sorted list. */
  lemma RunOf(ups: seq<Upstream>, u: Upstream) returns (p: nat, q: nat)
    requires u in ups
    ensures var sorted := Sort(ByPriority, ups);
            TierAt(sorted, p, q) && sorted[p].priority == u.priority && sorted[p..q] == Tier(ups, u)
  {
    var sorted := Sort(ByPriority, ups);
    assert Sorted(ByPriority, sorted) by {
      SortSorts(ByPriority, ups);
    }
    assert Tier(sorted, u) == Tier(ups, u) by {
      SortStable(ByPriority, u, ups);
    }
    MultisetMember(u, sorted, ups);
    var i :| 0 <= i < |sorted| && sorted[i] == u;
    p, q := TierAround(sorted, i, i);
    RunIsTier(sorted, p, q, u);
  }

  // ---------------------------------------------------------------------
  // Ordering and selection
  // ---------------------------------------------------------------------

  /** By priority; within a priority, the strategy's order of the upstreams as they were given. */
  ghost predicate Arranged(ctx: Context, ups: seq<Upstream>, out: seq<Upstream>) {
    && multiset(out) == multiset(ups)
    && Sorted(ByPriority, out)
    && (ctx.strategy == LeastConn ==> Sorted((a: Upstream, b: Upstream) => ByLoad(ctx.st, a, b), out))
    && (ctx.strategy != LeastConn ==> forall u :: u in ups ==> TierOrdered(ctx, Tier(ups, u), Tier(out, u)))
    && (ctx.strategy == ByScore ==> TiersAppeal(ctx, out))
  }

  lemma RunsArranged(ctx: Context, ups: seq<Upstream>, out: seq<Upstream>)
    requires ctx.strategy != LeastConn && TiersOrdered(ctx, Sort(ByPriority, ups), out) && multiset(out) == multiset(ups)
    requires forall k :: 0 <= k < |out| ==> out[k].priority == Sort(ByPriority, ups)[k].priority
    ensures Arranged(ctx, ups, out)
  {
    var sorted := Sort(ByPriority, ups);
    SortSorts(ByPriority, ups);
    forall i, j | 0 <= i < j < |out| ensures ByPriority(out[i], out[j]) {
      assert ByPriority(sorted[i], sorted[j]);
    }
    forall u | u in ups ensures TierOrdered(ctx, Tier(ups, u), Tier(out, u)) {
      TiersOfOriginal(ctx, ups, out, u);
    }
    if ctx.strategy == ByScore {
      TiersAppealing(ctx, sorted, out);
    }
  }

  method OrderByLoad(sorted: seq<Upstream>, ctx: Context) returns (out: seq<Upstream>)
    requires ctx.strategy == LeastConn
    ensures Arranged(ctx, sorted, out)
  {
    var leq := (a: Upstream, b: Upstream) => ByLoad(ctx.st, a, b);
    ByLoadIsPreorder(ctx.st);
    SortSorts(leq, sorted);
    out := Sort(leq, sorted);
    forall i, j | 0 <= i < j < |out| ensures ByPriority(out[i], out[j]) {
      assert leq(out[i], out[j]);
    }
  }

  method OrderForPath(ups: seq<Upstream>, ctx: Context) returns (out: seq<Upstream>)
    ensures Arranged(ctx, ups, out)
  {
    var sorted := Sort(ByPriority, ups);
    if ctx.strategy == LeastConn {
      out := OrderByLoad(sorted, ctx);
      return;
    }
    var a := new Upstream[|sorted|](i requires 0 <= i < |sorted| => sorted[i]);
    assert a[..] == sorted;
    ReorderWithinPriority(a, ctx);
    out := a[..];
    RunsArranged(ctx, ups, out);
  }

  /** The first non-empty fallback tier. */
  ghost predicate InFirstTier(all: seq<Upstream>, st: Statuses, u: Upstream) {
    && u in all
    && if exists v :: v in all && StatusOf(st, v).ready && StatusOf(st, v).canonical then
         StatusOf(st, u).ready && StatusOf(st, u).canonical
       else if exists v :: v in all && StatusOf(st, v).ready then StatusOf(st, u).ready
       else if exists v :: v in all && StatusOf(st, v).healthy then StatusOf(st, u).healthy
       else true
  }

  /** In the first tier and, when head reporters are asked for and the tier has any, one of them. */
  ghost predicate Preferred(all: seq<Upstream>, st: Statuses, preferHead: bool, seen: set<string>, u: Upstream) {
    && InFirstTier(all, st, u)
    && (preferHead && (exists v :: InFirstTier(all, st, v) && v.id in seen) ==> u.id in seen)
  }

  /** Preferred and, unless all preferred ones are over their rate limit, under it. */
  ghost predicate Candidate(all: seq<Upstream>, st: Statuses, preferHead: bool, seen: set<string>, u: Upstream) {
    && Preferred(all, st, preferHead, seen, u)
    && ((exists v :: Preferred(all, st, preferHead, seen, v) && StatusOf(st, v).allowed) ==> StatusOf(st, u).allowed)
  }

  ghost function TierTest(all: seq<Upstream>, st: Statuses): Upstream -> bool {
    (u: Upstream) => InFirstTier(all, st, u)
  }

  ghost function PreferredTest(all: seq<Upstream>, st: Statuses, preferHead: bool, seen: set<string>): Upstream -> bool {
    (u: Upstream) => Preferred(all, st, preferHead, seen, u)
  }

  /** The candidates, in the order of the pool. */
  ghost function Shortlist(all: seq<Upstream>, st: Statuses, preferHead: bool, seen: set<string>): seq<Upstream> {
    Keep(all, (u: Upstream) => Candidate(all, st, preferHead, seen, u))
  }

  ghost function FailingOpen(ups: seq<Upstream>, f: Upstream -> bool): Upstream -> bool {
    (u: Upstream) => (exists v :: v in ups && f(v)) ==> f(u)
  }

  lemma KeepEmpty(ups: seq<Upstream>, f: Upstream -> bool)
    ensures Keep(ups, f) == [] <==> forall u :: u in ups ==> !f(u)
  {
    if Keep(ups, f) != [] {
      assert Keep(ups, f)[0] in Keep(ups, f);
    }
  }

  predicate IsBest(st: Statuses, u: Upstream) {
    StatusOf(st, u).ready && StatusOf(st, u).canonical
  }

  function Best(st: Statuses): Upstream -> bool {
    (u: Upstream) => IsBest(st, u)
  }

  function Ready(st: Statuses): Upstream -> bool {
    (u: Upstream) => StatusOf(st, u).ready
  }

  function Healthy(st: Statuses): Upstream -> bool {
    (u: Upstream) => StatusOf(st, u).healthy
  }

  lemma {:induction false} KeepAll(ups: seq<Upstream>, f: Upstream -> bool)
    requires forall u :: u in ups ==> f(u)
    ensures Keep(ups, f) == ups
  {
    if ups != [] {
      var front, last := ups[..|ups| - 1], ups[|ups| - 1];
      assert ups == front + [last] && last in ups;
      assert forall u :: u in front ==> u in ups;
      KeepAll(front, f);
    }
  }

  lemma TierIs(all: seq<Upstream>, st: Statuses)
    ensures var tier := Keep(all, TierTest(all, st));
            tier ==
            if Keep(all, Best(st)) != [] then Keep(all, Best(st))
            else if Keep(all, Ready(st)) != [] then Keep(all, Ready(st))
            else if Keep(all, Healthy(st)) != [] then Keep(all, Healthy(st))
            else all
  {
    KeepEmpty(all, Best(st));
    KeepEmpty(all, Ready(st));
    KeepEmpty(all, Healthy(st));
    if Keep(all, Best(st)) != [] {
      KeepSame(all, Best(st), TierTest(all, st));
    } else if Keep(all, Ready(st)) != [] {
      KeepSame(all, Ready(st), TierTest(all, st));
    } else if Keep(all, Healthy(st)) != [] {
      KeepSame(all, Healthy(st), TierTest(all, st));
    } else {
      KeepAll(all, TierTest(all, st));
    }
  }

  method FirstTier(all: seq<Upstream>, st: Statuses) returns (c: seq<Upstream>)
    ensures c == Keep(all, TierTest(all, st))
    ensures all != [] ==> c != []
    ensures Distinct(all) ==> Distinct(c)
  {
    c := Filter(all, Best(st));
    if |c| == 0 {
      c := Filter(all, Ready(st));
    }
    if |c| == 0 {
      c := Filter(all, Healthy(st));
    }
    if |c| == 0 {
      c := all;
    }
    TierIs(all, st);
    if Distinct(all) {
      KeepDistinct(all, TierTest(all, st));
    }
  }

  /** Keeps the upstreams that satisfy `f`, or all of them if none does. */
  method PreferIf(ups: seq<Upstream>, f: Upstream -> bool) returns (c: seq<Upstream>)
    ensures c == Keep(ups, FailingOpen(ups, f))
    ensures ups != [] ==> c != []
    ensures Distinct(ups) ==> Distinct(c)
  {
    KeepEmpty(ups, f);
    if Distinct(ups) {
      KeepDistinct(ups, f);
    }
    c := Filter(ups, f);
    if |c| == 0 {
      c := ups;
      KeepAll(ups, FailingOpen(ups, f));
    } else {
      KeepSame(ups, f, FailingOpen(ups, f));
    }
  }

  method Candidates(all: seq<Upstream>, st: Statuses, preferHead: bool, seen: set<string>)
    returns (c: seq<Upstream>)
    ensures c == Shortlist(all, st, preferHead, seen)
    ensures all != [] ==> c != []
    ensures Distinct(all) ==> Distinct(c)
  {
    c := FirstTier(all, st);
    ghost var tier := c;
    if preferHead && |seen| > 0 {
      c := PreferIf(c, (u: Upstream) => u.id in seen);
    }
    HeadReporters(all, st, preferHead, seen, tier, c);
    ghost var preferred := c;
    c := PreferIf(c, (u: Upstream) => StatusOf(st, u).allowed);
    WithinLimits(all, st, preferHead, seen, preferred);
  }

  lemma HeadReporters(all: seq<Upstream>, st: Statuses, preferHead: bool, seen: set<string>, tier: seq<Upstream>, c: seq<Upstream>)
    requires tier == Keep(all, TierTest(all, st))
    requires c == if preferHead && |seen| > 0 then Keep(tier, FailingOpen(tier, (u: Upstream) => u.id in seen)) else tier
    ensures c == Keep(all, PreferredTest(all, st, preferHead, seen))
  {
    var f, g := TierTest(all, st), FailingOpen(tier, (u: Upstream) => u.id in seen);
    if preferHead && |seen| > 0 {
      KeepTwice(all, f, g);
      KeepSame(all, (u: Upstream) => f(u) && g(u), PreferredTest(all, st, preferHead, seen));
    } else {
      KeepSame(all, f, PreferredTest(all, st, preferHead, seen));
    }
  }

  lemma WithinLimits(all: seq<Upstream>, st: Statuses, preferHead: bool, seen: set<string>, c: seq<Upstream>)
    requires c == Keep(all, PreferredTest(all, st, preferHead, seen))
    ensures Keep(c, FailingOpen(c, (u: Upstream) => StatusOf(st, u).allowed)) == Shortlist(all, st, preferHead, seen)
  {
    var f, g := PreferredTest(all, st, preferHead, seen), FailingOpen(c, (u: Upstream) => StatusOf(st, u).allowed);
    KeepTwice(all, f, g);
    KeepSame(all, (u: Upstream) => f(u) && g(u), (u: Upstream) => Candidate(all, st, preferHead, seen, u));
  }

  lemma TwiceCounts<T>(s: seq<T>, i: nat, j: nat)
    requires i < j < |s| && s[i] == s[j]
    ensures multiset(s)[s[i]] >= 2
  {
    RemoveAt(s, j);
    assert s[i] == (s[..j] + s[j + 1..])[i];
    assert s[i] in multiset(s[..j] + s[j + 1..]);
  }

  lemma {:induction false} DistinctCounts(a: seq<Upstream>, u: Upstream)
    requires Distinct(a)
    ensures multiset(a)[u] <= 1
  {
    if a != [] {
      DistinctCounts(a[1..], u);
      assert a == [a[0]] + a[1..];
      assert u == a[0] ==> u !in a[1..];
    }
  }

  lemma DistinctPermutes(a: seq<Upstream>, b: seq<Upstream>)
    requires Distinct(a) && multiset(a) == multiset(b)
    ensures Distinct(b)
  {
    forall i, j | 0 <= i < j < |b| ensures b[i].id != b[j].id {
      MultisetMember(b[i], a, b);
      MultisetMember(b[j], a, b);
      DistinctCounts(a, b[i]);
      if b[i] == b[j] {
        TwiceCounts(b, i, j);
      }
    }
  }

  /** Up to `n` upstreams: the first ones of the candidates in the strategy's order. */
  ghost predicate FirstOf(all: seq<Upstream>, ctx: Context, preferHead: bool, seen: set<string>, n: nat, out: seq<Upstream>) {
    exists ordered ::
      && Arranged(ctx, Shortlist(all, ctx.st, preferHead, seen), ordered)
      && out == ordered[..if n > |ordered| then |ordered| else n]
  }

  /** The same; the recursion only keeps the definition folded where a dispatch loop carries it along by name. */
  ghost predicate Folded(k: nat, all: seq<Upstream>, ctx: Context, preferHead: bool, seen: set<string>, n: nat, out: seq<Upstream>) {
    if k > 0 then Folded(k - 1, all, ctx, preferHead, seen, n, out) else FirstOf(all, ctx, preferHead, seen, n, out)
  }

  ghost predicate Picked(all: seq<Upstream>, ctx: Context, preferHead: bool, seen: set<string>, n: nat, out: seq<Upstream>) {
    Folded(|all| + 3, all, ctx, preferHead, seen, n, out)
  }

  lemma {:induction false} Unfolds(k: nat, all: seq<Upstream>, ctx: Context, preferHead: bool, seen: set<string>, n: nat, out: seq<Upstream>)
    ensures var f, p := Folded(k, all, ctx, preferHead, seen, n, out), FirstOf(all, ctx, preferHead, seen, n, out);
            f == p
  {
    if k > 0 {
      Unfolds(k - 1, all, ctx, preferHead, seen, n, out);
    }
  }

  lemma PickedIs(all: seq<Upstream>, ctx: Context, preferHead: bool, seen: set<string>, n: nat, out: seq<Upstream>)
    ensures Picked(all, ctx, preferHead, seen, n, out) == FirstOf(all, ctx, preferHead, seen, n, out)
  {
    Unfolds(|all| + 3, all, ctx, preferHead, seen, n, out);
  }

  /** A sorted list is cut so that nothing left out has a better priority. */
  lemma CutByPriority(ordered: seq<Upstream>, k: nat, u: Upstream, v: Upstream)
    requires k <= |ordered| && Sorted(ByPriority, ordered) && u in ordered[..k] && v in ordered && v !in ordered[..k]
    ensures u.priority <= v.priority
  {
    var i :| 0 <= i < k && ordered[..k][i] == u;
    var j :| 0 <= j < |ordered| && ordered[j] == v;
    assert ByPriority(ordered[i], ordered[j]);
  }

  lemma ShortlistNonEmpty(all: seq<Upstream>, st: Statuses, preferHead: bool, seen: set<string>)
    requires all != []
    ensures Shortlist(all, st, preferHead, seen) != []
  {
    var p := SomePreferred(all, st, preferHead, seen);
    var c := p;
    if v :| Preferred(all, st, preferHead, seen, v) && StatusOf(st, v).allowed {
      c := v;
    }
    assert c in Shortlist(all, st, preferHead, seen);
  }

  lemma SomeInFirstTier(all: seq<Upstream>, st: Statuses) returns (t: Upstream)
    requires all != []
    ensures InFirstTier(all, st, t)
  {
    t := all[0];
    if v :| v in all && StatusOf(st, v).ready && StatusOf(st, v).canonical {
      t := v;
    } else if v :| v in all && StatusOf(st, v).ready {
      t := v;
    } else if v :| v in all && StatusOf(st, v).healthy {
      t := v;
    }
  }

  lemma SomePreferred(all: seq<Upstream>, st: Statuses, preferHead: bool, seen: set<string>) returns (p: Upstream)
    requires all != []
    ensures Preferred(all, st, preferHead, seen, p)
  {
    p := SomeInFirstTier(all, st);
    if v :| InFirstTier(all, st, v) && v.id in seen {
      p := v;
    }
  }

  lemma ArrangedNonEmpty(all: seq<Upstream>, ctx: Context, preferHead: bool, seen: set<string>, ordered: seq<Upstream>)
    requires Arranged(ctx, Shortlist(all, ctx.st, preferHead, seen), ordered) && all != []
    ensures ordered != []
  {
    var c := Shortlist(all, ctx.st, preferHead, seen);
    ShortlistNonEmpty(all, ctx.st, preferHead, seen);
    MultisetMember(c[0], ordered, c);
  }

  lemma ArrangedDistinct(all: seq<Upstream>, ctx: Context, preferHead: bool, seen: set<string>, ordered: seq<Upstream>)
    requires Arranged(ctx, Shortlist(all, ctx.st, preferHead, seen), ordered) && Distinct(all)
    ensures Distinct(ordered)
  {
    KeepDistinct(all, (u: Upstream) => Candidate(all, ctx.st, preferHead, seen, u));
    DistinctPermutes(Shortlist(all, ctx.st, preferHead, seen), ordered);
  }

  /**
   So they are candidates without repeats, from the first non-empty tier, by
   priority, and never skip a candidate for one of a worse priority.
   */
  lemma PickedMeans(all: seq<Upstream>, ctx: Context, preferHead: bool, seen: set<string>, n: nat, out: seq<Upstream>)
    requires Picked(all, ctx, preferHead, seen, n, out)
    ensures forall u :: u in out ==> Candidate(all, ctx.st, preferHead, seen, u)
    ensures |out| <= n
    ensures all != [] && n >= 1 ==> out != []
    ensures Distinct(all) ==> Distinct(out)
    ensures Sorted(ByPriority, out)
    ensures |out| < n ==> forall u :: Candidate(all, ctx.st, preferHead, seen, u) ==> u in out
    ensures forall u, v ::
              u in out && v !in out && Candidate(all, ctx.st, preferHead, seen, v) ==> u.priority <= v.priority
    ensures ctx.strategy == ByScore ==> TiersAppeal(ctx, out)
  {
    PickedIs(all, ctx, preferHead, seen, n, out);
    var ordered :|
      && Arranged(ctx, Shortlist(all, ctx.st, preferHead, seen), ordered)
      && out == ordered[..if n > |ordered| then |ordered| else n];
    ArrangedMembers(all, ctx, preferHead, seen, ordered);
    if all != [] {
      ArrangedNonEmpty(all, ctx, preferHead, seen, ordered);
    }
    if Distinct(all) {
      ArrangedDistinct(all, ctx, preferHead, seen, ordered);
    }
    CutMeans(all, ctx, preferHead, seen, n, ordered, if n > |ordered| then |ordered| else n);
  }

  lemma ArrangedMembers(all: seq<Upstream>, ctx: Context, preferHead: bool, seen: set<string>, ordered: seq<Upstream>)
    requires Arranged(ctx, Shortlist(all, ctx.st, preferHead, seen), ordered)
    ensures forall u :: u in ordered <==> Candidate(all, ctx.st, preferHead, seen, u)
  {
    forall u ensures u in ordered <==> Candidate(all, ctx.st, preferHead, seen, u) {
      MultisetMember(u, ordered, Shortlist(all, ctx.st, preferHead, seen));
    }
  }

  lemma CutMeans(all: seq<Upstream>, ctx: Context, preferHead: bool, seen: set<string>, n: nat, ordered: seq<Upstream>, k: nat)
    requires forall u :: u in ordered <==> Candidate(all, ctx.st, preferHead, seen, u)
    requires Sorted(ByPriority, ordered) && k == if n > |ordered| then |ordered| else n
    ensures forall u :: u in ordered[..k] ==> Candidate(all, ctx.st, preferHead, seen, u)
    ensures |ordered[..k]| < n ==> forall u :: Candidate(all, ctx.st, preferHead, seen, u) ==> u in ordered[..k]
    ensures Sorted(ByPriority, ordered[..k])
    ensures forall u, v ::
              u in ordered[..k] && v !in ordered[..k] && Candidate(all, ctx.st, preferHead, seen, v) ==> u.priority <= v.priority
  {
    forall u, v | u in ordered[..k] && v !in ordered[..k] && Candidate(all, ctx.st, preferHead, seen, v) ensures u.priority <= v.priority {
      CutByPriority(ordered, k, u, v);
    }
  }

  method Select(all: seq<Upstream>, ctx: Context, preferHead: bool, seen: set<string>, n: nat)
    returns (out: seq<Upstream>)
    ensures Picked(all, ctx, preferHead, seen, n, out)
    ensures |out| <= n && (Distinct(all) ==> Distinct(out)) && forall u :: u in out ==> u in all
    ensures all != [] && n >= 1 ==> out != []
  {
    var c := Candidates(all, ctx.st, preferHead, seen);
    var ordered := OrderForPath(c, ctx);
    var k := if n > |ordered| then |ordered| else n;
    out := ordered[..k];
    PickedIs(all, ctx, preferHead, seen, n, out);
    PickedMeans(all, ctx, preferHead, seen, n, out);
  }

  /** A worse upstream is used only if there is no better one: not ready only if nobody is ready, over its rate limit only if nobody suitable is within. */
  lemma WorseOnlyWithoutBetter(all: seq<Upstream>, ctx: Context, preferHead: bool, seen: set<string>, n: nat, out: seq<Upstream>, u: Upstream, v: Upstream)
    requires Picked(all, ctx, preferHead, seen, n, out) && u in out && v in all
    ensures StatusOf(ctx.st, v).ready ==> StatusOf(ctx.st, u).ready
    ensures StatusOf(ctx.st, v).ready && StatusOf(ctx.st, v).canonical ==> StatusOf(ctx.st, u).canonical
    ensures StatusOf(ctx.st, v).healthy ==> StatusOf(ctx.st, u).healthy || StatusOf(ctx.st, u).ready
    ensures StatusOf(ctx.st, v).ready && StatusOf(ctx.st, v).canonical && preferHead && v.id in seen ==> u.id in seen
    ensures StatusOf(ctx.st, v).ready && StatusOf(ctx.st, v).canonical && (preferHead ==> v.id in seen) && StatusOf(ctx.st, v).allowed ==>
              StatusOf(ctx.st, u).allowed
    ensures v in out && StatusOf(ctx.st, v).allowed ==> StatusOf(ctx.st, u).allowed
  {
    PickedMeans(all, ctx, preferHead, seen, n, out);
    assert Candidate(all, ctx.st, preferHead, seen, u);
    if StatusOf(ctx.st, v).ready && StatusOf(ctx.st, v).canonical {
      assert InFirstTier(all, ctx.st, v);
      assert (preferHead ==> v.id in seen) ==> Preferred(all, ctx.st, preferHead, seen, v);
    }
  }

  lemma CrossMultiply(a: real, b: real, c: real, d: real)
    requires b > 0.0 && d > 0.0 && a / b <= c / d
    ensures a * d <= c * b
  {
    var x, y := a / b, c / d;
    assert a == x * b && c == y * d;
    assert x * (b * d) <= y * (b * d);
  }

  /** Under least-connections nobody comes before an upstream of its priority with fewer connections per weight; ties go by connections, then by ID. */
  lemma LeastLoadedFirst(ctx: Context, ups: seq<Upstream>, out: seq<Upstream>, i: nat, j: nat)
    requires Arranged(ctx, ups, out) && ctx.strategy == LeastConn && i < j < |out| && out[i].priority == out[j].priority
    ensures StatusOf(ctx.st, out[i]).conns as real * Weight(out[j]) as real <= StatusOf(ctx.st, out[j]).conns as real * Weight(out[i]) as real
    ensures Load(ctx.st, out[i]) == Load(ctx.st, out[j]) ==>
              || StatusOf(ctx.st, out[i]).conns < StatusOf(ctx.st, out[j]).conns
              || (StatusOf(ctx.st, out[i]).conns == StatusOf(ctx.st, out[j]).conns && LexLeq(out[i].id, out[j].id))
  {
    var leq := (a: Upstream, b: Upstream) => ByLoad(ctx.st, a, b);
    assert Sorted(leq, out) && leq(out[i], out[j]);
    assert Load(ctx.st, out[i]) <= Load(ctx.st, out[j]);
    CrossMultiply(StatusOf(ctx.st, out[i]).conns as real, Weight(out[i]) as real, StatusOf(ctx.st, out[j]).conns as real, Weight(out[j]) as real);
  }

  lemma NothingPicked(ctx: Context, n: nat)
    ensures Picked([], ctx, false, {}, n, [])
  {
    assert Shortlist([], ctx.st, false, {}) == [];
    assert Arranged(ctx, [], []);
    PickedIs([], ctx, false, {}, n, []);
  }

  ghost function Archives(pool: seq<Upstream>): seq<Upstream> {
    Keep(pool, (u: Upstream) => u.archive)
  }

  /** Selection restricted to the archive upstreams, with whatever statuses hold at that moment. */
  method SelectArchive(pool: seq<Upstream>, ctx: Context, n: nat) returns (out: seq<Upstream>)
    ensures Picked(Archives(pool), ctx, false, {}, n, out)
    ensures |out| <= n && forall u :: u in out ==> u in pool && u.archive
    ensures Distinct(pool) ==> Distinct(out)
    ensures n >= 1 && (exists u :: u in pool && u.archive) ==> out != []
  {
    var isArchive := (u: Upstream) => u.archive;
    KeepEmpty(pool, isArchive);
    var archives := Filter(pool, isArchive);
    if |archives| == 0 {
      NothingPicked(ctx, n);
      return [];
    }
    if Distinct(pool) {
      KeepDistinct(pool, isArchive);
    }
    out := Select(archives, ctx, false, {}, n);
  }
}
