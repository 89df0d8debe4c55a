/**
 Which upstreams a request may use, and in which order.

 Health, fork status, rate limits, connection counts and scores are read at one
 moment and passed in as `Status` values; random draws are arbitrary.
 */
module Selection {
  import opened Arithmetic

  datatype Score = Finite(value: real) | NotFinite

  datatype Upstream = Upstream(id: string, priority: int, weight: int, archive: bool)

  datatype Status = Status(ready: bool, canonical: bool, healthy: bool, allowed: bool, conns: int, score: Score)

  type Statuses = map<string, Status>

  datatype Strategy = RoundRobin | Random | LeastConn | ByScore

  const UNKNOWN := Status(false, false, false, false, 0, Finite(0.0))

  function StatusOf(st: Statuses, u: Upstream): Status {
    if u.id in st then st[u.id] else UNKNOWN
  }

  ghost predicate Distinct(ups: seq<Upstream>) {
    forall i, j :: 0 <= i < j < |ups| ==> ups[i].id != ups[j].id
  }

  // ---------------------------------------------------------------------
  // Filtering
  // ---------------------------------------------------------------------

  function Keep(ups: seq<Upstream>, f: Upstream -> bool): (r: seq<Upstream>)
    ensures forall u :: u in r <==> u in ups && f(u)
    ensures |r| <= |ups|
  {
    if ups == [] then []
    else
      var front, last := Keep(ups[..|ups| - 1], f), ups[|ups| - 1];
      assert forall u :: u in ups <==> u == last || u in ups[..|ups| - 1];
      if f(last) then front + [last] else front
  }

  lemma KeepSnoc(ups: seq<Upstream>, f: Upstream -> bool, u: Upstream)
    ensures Keep(ups + [u], f) == Keep(ups, f) + (if f(u) then [u] else [])
  {
    assert (ups + [u])[..|ups|] == ups;
  }

  lemma {:induction false} KeepSame(ups: seq<Upstream>, f: Upstream -> bool, g: Upstream -> bool)
    requires forall u :: u in ups ==> f(u) == g(u)
    ensures Keep(ups, f) == Keep(ups, g)
  {
    if ups != [] {
      assert ups[|ups| - 1] in ups && forall u :: u in ups[..|ups| - 1] ==> u in ups;
      KeepSame(ups[..|ups| - 1], f, g);
    }
  }

  lemma {:induction false} KeepTwice(ups: seq<Upstream>, f: Upstream -> bool, g: Upstream -> bool)
    ensures Keep(Keep(ups, f), g) == Keep(ups, (u: Upstream) => f(u) && g(u))
  {
    if ups != [] {
      var front, last := ups[..|ups| - 1], ups[|ups| - 1];
      KeepTwice(front, f, g);
      if f(last) {
        KeepSnoc(Keep(front, f), g, last);
      }
    }
  }

  lemma {:induction false} KeepDistinct(ups: seq<Upstream>, f: Upstream -> bool)
    requires Distinct(ups)
    ensures Distinct(Keep(ups, f))
  {
    if ups != [] {
      var n := |ups| - 1;
      KeepDistinct(ups[..n], f);
      var front := Keep(ups[..n], f);
      forall j | 0 <= j < |front| ensures front[j].id != ups[n].id {
        assert front[j] in front;
        assert front[j] in ups[..n];
      }
    }
  }

  method Filter(ups: seq<Upstream>, f: Upstream -> bool) returns (out: seq<Upstream>)
    ensures out == Keep(ups, f)
  {
    out := [];
    for i := 0 to |ups|
      invariant out == Keep(ups[..i], f)
    {
      KeepSnoc(ups[..i], f, ups[i]);
      assert ups[..i + 1] == ups[..i] + [ups[i]];
      if f(ups[i]) {
        out := out + [ups[i]];
      }
    }
    assert ups[..|ups|] == ups;
  }

  // ---------------------------------------------------------------------
  // Weighted round-robin
  // ---------------------------------------------------------------------

  function Weight(u: Upstream): (w: int)
    ensures w >= 1
  {
    if u.weight <= 0 then 1 else u.weight
  }

  function TotalWeight(ups: seq<Upstream>): (w: int)
    ensures w >= |ups|
  {
    if ups == [] then 0 else TotalWeight(ups[..|ups| - 1]) + Weight(ups[|ups| - 1])
  }

  lemma {:induction false} TotalWeightMonotone(ups: seq<Upstream>, i: nat, j: nat)
    requires i <= j <= |ups|
    ensures TotalWeight(ups[..i]) + (j - i) <= TotalWeight(ups[..j])
    decreases j
  {
    if i < j {
      TotalWeightMonotone(ups, i, j - 1);
      assert ups[..j][..j - 1] == ups[..j - 1];
    }
  }

  /** The request index falls, modulo the total weight, into the stretch that `idx` owns. */
  ghost predicate Owns(ups: seq<Upstream>, idx: nat, index: nat) {
    && idx < |ups|
    && TotalWeight(ups[..idx]) <= index % TotalWeight(ups) < TotalWeight(ups[..idx + 1])
  }

  lemma OwnerUnique(ups: seq<Upstream>, a: nat, b: nat, index: nat)
    requires Owns(ups, a, index) && Owns(ups, b, index)
    ensures a == b
  {
    if a < b {
      TotalWeightMonotone(ups, a + 1, b);
    } else if b < a {
      TotalWeightMonotone(ups, b + 1, a);
    }
  }

  method WeightedPrimaryIndex(ups: seq<Upstream>, index: nat) returns (first: int)
    ensures ups == [] ==> first == -1
    ensures ups != [] ==> first >= 0 && Owns(ups, first, index) && forall k: nat :: Owns(ups, k, index) ==> k == first
  {
    if |ups| == 0 {
      return -1;
    }
    var totalWeight := 0;
    for i := 0 to |ups|
      invariant totalWeight == TotalWeight(ups[..i])
    {
      assert ups[..i + 1][..i] == ups[..i];
      totalWeight := totalWeight + Weight(ups[i]);
    }
    assert ups[..|ups|] == ups;
    if totalWeight <= 0 {
      assert false;  // every weight is at least one
    }
    var target := index % totalWeight;
    var cumulative := 0;
    for idx := 0 to |ups|
      invariant cumulative == TotalWeight(ups[..idx]) <= target
    {
      assert ups[..idx + 1][..idx] == ups[..idx];
      cumulative := cumulative + Weight(ups[idx]);
      if target < cumulative {
        forall k: nat | Owns(ups, k, index) ensures k == idx {
          OwnerUnique(ups, k, idx, index);
        }
        return idx;
      }
    }
    assert false;  // target < totalWeight
  }

  /** How many of the request indices in [from, from + n) pick `idx` first. */
  ghost function Picks(ups: seq<Upstream>, idx: nat, from: nat, n: nat): nat {
    if n == 0 then 0 else Picks(ups, idx, from, n - 1) + (if Owns(ups, idx, from + n - 1) then 1 else 0)
  }

  ghost function Overlap(a: int, b: int, c: int, d: int): int {
    var lo := if a < c then c else a;
    var hi := if b < d then b else d;
    if lo < hi then hi - lo else 0
  }

  lemma Divide(x: nat, t: int) returns (q: nat, base: nat, r: nat)
    requires t > 0
    ensures base == q * t && x == base + r && r < t
  {
    q, r := x / t, x % t;
    base := x - r;
  }

  ghost predicate IsTurn(ups: seq<Upstream>, q: nat, base: nat) {
    base == q * TotalWeight(ups)
  }

  /** Picks within one turn of the wheel are the overlap with the owned stretch. */
  lemma {:induction false} PicksInTurn(ups: seq<Upstream>, idx: nat, q: nat, base: nat, from: nat, n: nat)
    requires idx < |ups|
    requires IsTurn(ups, q, base)
    requires base <= from && from + n <= base + TotalWeight(ups)
    ensures Picks(ups, idx, from, n) ==
            Overlap(from - base, from - base + n, TotalWeight(ups[..idx]), TotalWeight(ups[..idx + 1]))
    decreases n
  {
    TotalWeightMonotone(ups, idx, idx + 1);
    if n > 0 {
      PicksInTurn(ups, idx, q, base, from, n - 1);
      RemainderUnique(from + n - 1, TotalWeight(ups), q, from + n - 1 - base);
    }
  }

  lemma {:induction false} PicksSplit(ups: seq<Upstream>, idx: nat, from: nat, m: nat, n: nat)
    ensures Picks(ups, idx, from, m + n) == Picks(ups, idx, from, m) + Picks(ups, idx, from + m, n)
    decreases n
  {
    if n > 0 {
      PicksSplit(ups, idx, from, m, n - 1);
    }
  }

  lemma FairFrom(ups: seq<Upstream>, idx: nat, q: nat, base: nat, r: nat)
    requires idx < |ups| && IsTurn(ups, q, base) && r < TotalWeight(ups)
    ensures Picks(ups, idx, base + r, TotalWeight(ups)) == Weight(ups[idx])
  {
    var t := TotalWeight(ups);
    StretchBounds(ups, idx);
    PicksSplit(ups, idx, base + r, t - r, r);
    PicksInTurn(ups, idx, q, base, base + r, t - r);
    PicksInTurn(ups, idx, q + 1, base + t, base + t, r);
  }

  /** Over any totalWeight consecutive requests every upstream is first as often as its configured weight says, at least once. */
  lemma RoundRobinFair(ups: seq<Upstream>, idx: nat, from: nat)
    requires idx < |ups|
    ensures Picks(ups, idx, from, TotalWeight(ups)) == if ups[idx].weight >= 1 then ups[idx].weight else 1
  {
    var q, base, r := Divide(from, TotalWeight(ups));
    FairFrom(ups, idx, q, base, r);
  }

  lemma StretchBounds(ups: seq<Upstream>, idx: nat)
    requires idx < |ups|
    ensures 0 <= TotalWeight(ups[..idx])
    ensures TotalWeight(ups[..idx]) + Weight(ups[idx]) == TotalWeight(ups[..idx + 1]) <= TotalWeight(ups)
  {
    assert ups[..idx + 1][..idx] == ups[..idx];
    assert ups[..|ups|] == ups;
    TotalWeightMonotone(ups, idx + 1, |ups|);
  }

  ghost function Rotation(ups: seq<Upstream>, first: nat): (r: seq<Upstream>)
    requires first <= |ups|
  {
    ups[first..] + ups[..first]
  }

  method RotateUniqueFromIndex(ups: seq<Upstream>, start: int) returns (out: seq<Upstream>)
    ensures ups == [] ==> out == []
    ensures ups != [] ==> out == Rotation(ups, if 0 <= start < |ups| then start else 0)
  {
    if |ups| == 0 {
      return [];
    }
    if |ups| == 1 {
      return [ups[0]];
    }
    var first := start;
    if first < 0 || first >= |ups| {
      first := 0;
    }
    out := [ups[first]];
    for offset := 1 to |ups|
      invariant out == Rotation(ups, first)[..offset]
    {
      if first + offset < |ups| {
        RemainderUnique(first + offset, |ups|, 0, first + offset);
      } else {
        RemainderUnique(first + offset, |ups|, 1, first + offset - |ups|);
      }
      out := out + [ups[(first + offset) % |ups|]];
    }
  }

  // ---------------------------------------------------------------------
  // Sampling without replacement
  // ---------------------------------------------------------------------

  function Base(scores: map<string, Score>, u: Upstream): (b: real)
    ensures b >= 0.0
  {
    if u.id !in scores then 0.0
    else
      match scores[u.id]
      case NotFinite => 0.0
      case Finite(v) => if v < 0.0 then 0.0 else v
  }

  function SampleWeight(scores: map<string, Score>, u: Upstream): (w: real)
    ensures w >= 0.0
  {
    Base(scores, u) * Weight(u) as real
  }

  function Sum(ws: seq<real>): real {
    if ws == [] then 0.0 else Sum(ws[..|ws| - 1]) + ws[|ws| - 1]
  }

  lemma {:induction false} SumNonNegative(ws: seq<real>)
    requires forall i :: 0 <= i < |ws| ==> ws[i] >= 0.0
    ensures Sum(ws) >= 0.0
    ensures (exists i :: 0 <= i < |ws| && ws[i] > 0.0) <==> Sum(ws) > 0.0
  {
    if ws != [] {
      SumNonNegative(ws[..|ws| - 1]);
    }
  }

  /** Positive weights never come after a zero weight. */
  ghost predicate PositiveFirst(scores: map<string, Score>, s: seq<Upstream>) {
    forall i, j :: 0 <= i < j < |s| && SampleWeight(scores, s[j]) > 0.0 ==> SampleWeight(scores, s[i]) > 0.0
  }

  /** The point lies in the stretch that the `i`-th share takes. */
  ghost predicate InShare(ws: seq<real>, point: real, i: nat) {
    i < |ws| && Sum(ws[..i]) <= point < Sum(ws[..i + 1])
  }

  /** The first index whose cumulative weight exceeds the target. */
  method Choose(weights: seq<real>, target: real) returns (chosen: nat)
    requires weights != []
    requires 0.0 <= target && forall i :: 0 <= i < |weights| ==> weights[i] >= 0.0
    ensures chosen < |weights|
    ensures target < Sum(weights) ==> weights[chosen] > 0.0
    ensures target < Sum(weights) ==> InShare(weights, target, chosen)
  {
    var cumulative := 0.0;
    chosen := |weights| - 1;
    for idx := 0 to |weights|
      invariant cumulative == Sum(weights[..idx]) <= target
      invariant chosen == |weights| - 1
    {
      assert weights[..idx + 1][..idx] == weights[..idx];
      cumulative := cumulative + weights[idx];
      if target < cumulative {
        return idx;
      }
    }
    assert weights[..|weights|] == weights;
  }

  /** The shares of a draw: score times weight, or the weights alone while all of these are 0. */
  ghost function Shares(remaining: seq<Upstream>, scores: map<string, Score>): (ws: seq<real>)
    ensures |ws| == |remaining|
  {
    if exists u :: u in remaining && SampleWeight(scores, u) > 0.0
    then seq(|remaining|, i requires 0 <= i < |remaining| => SampleWeight(scores, remaining[i]))
    else seq(|remaining|, i requires 0 <= i < |remaining| => Weight(remaining[i]) as real)
  }

  method SampleWeights(remaining: seq<Upstream>, scores: map<string, Score>)
    returns (weights: seq<real>, total: real)
    ensures weights == Shares(remaining, scores) && total == Sum(weights)
    ensures forall i :: 0 <= i < |weights| ==> weights[i] >= 0.0
    ensures remaining != [] ==> total > 0.0
  {
    weights, total := [], 0.0;
    for i := 0 to |remaining|
      invariant |weights| == i && total == Sum(weights)
      invariant forall j :: 0 <= j < i ==> weights[j] == SampleWeight(scores, remaining[j])
    {
      var w := SampleWeight(scores, remaining[i]);
      assert (weights + [w])[..i] == weights;
      weights := weights + [w];
      total := total + w;
    }
    SumNonNegative(weights);
    if total <= 0.0 {
      forall u | u in remaining ensures SampleWeight(scores, u) <= 0.0 {
        var i :| 0 <= i < |remaining| && remaining[i] == u;
        assert weights[i] == SampleWeight(scores, u);
      }
      weights, total := [], 0.0;
      for i := 0 to |remaining|
        invariant |weights| == i && total == Sum(weights)
        invariant forall j :: 0 <= j < i ==> weights[j] == Weight(remaining[j]) as real
      {
        var w := Weight(remaining[i]) as real;
        assert (weights + [w])[..i] == weights;
        weights := weights + [w];
        total := total + w;
      }
      SumNonNegative(weights);
      assert remaining != [] ==> weights[0] > 0.0;
    }
  }

  lemma RemoveAt<T>(s: seq<T>, k: nat)
    requires k < |s|
    ensures multiset(s) == multiset{s[k]} + multiset(s[..k] + s[k + 1..])
  {
    assert s == s[..k] + [s[k]] + s[k + 1..];
  }

  lemma Scaled(x: real, total: real)
    requires 0.0 <= x < 1.0 && total > 0.0
    ensures 0.0 <= x * total < total
  {
    var rest := 1.0 - x;
    assert rest * total > 0.0;
    assert x * total + rest * total == total;
  }

  lemma PositiveShare(remaining: seq<Upstream>, scores: map<string, Score>, i: nat)
    requires i < |remaining| && Shares(remaining, scores)[i] > 0.0
    ensures (exists u :: u in remaining && SampleWeight(scores, u) > 0.0) ==> SampleWeight(scores, remaining[i]) > 0.0
  {
  }

  ghost predicate Scored(scores: map<string, Score>, u: Upstream) {
    u.id in scores && scores[u.id].Finite? && scores[u.id].value > 0.0
  }

  /** While some score is positive and finite, a share is the score times the configured weight, and 0 without such a score. */
  lemma ShareIs(remaining: seq<Upstream>, scores: map<string, Score>, i: nat)
    requires i < |remaining| && exists u :: u in remaining && Scored(scores, u)
    ensures Shares(remaining, scores)[i] ==
            if Scored(scores, remaining[i])
            then scores[remaining[i].id].value * (if remaining[i].weight >= 1 then remaining[i].weight else 1) as real
            else 0.0
  {
    var u :| u in remaining && Scored(scores, u);
    assert SampleWeight(scores, u) > 0.0;
  }

  /** A draw scaled to the total. */
  function Portion(draw: real, total: real): (r: real)
    requires 0.0 <= draw < 1.0 && total > 0.0
    ensures 0.0 <= r < total
  {
    Scaled(draw, total);
    draw * total
  }

  /**
   Draws one of the remaining upstreams: the one in whose share of the total the
   draw falls, so one with a positive weight if there is any.
   */
  method Draw(remaining: seq<Upstream>, scores: map<string, Score>, draw: real) returns (chosen: nat)
    requires remaining != [] && 0.0 <= draw < 1.0
    ensures chosen < |remaining|
    ensures var ws := Shares(remaining, scores);
            Sum(ws) > 0.0 && InShare(ws, Portion(draw, Sum(ws)), chosen)
    ensures (exists u :: u in remaining && SampleWeight(scores, u) > 0.0) ==> SampleWeight(scores, remaining[chosen]) > 0.0
  {
    var weights, total := SampleWeights(remaining, scores);
    chosen := Choose(weights, Portion(draw, total));
    PositiveShare(remaining, scores, chosen);
  }

  /** Draws in turn, each a number from 0 up to 1. */
  type Draws = nat -> real

  ghost predicate Fractions(draws: Draws) {
    forall k: nat :: 0.0 <= draws(k) < 1.0
  }

  /** The draw falls in the share of the `i`-th upstream. */
  ghost predicate Drawn(before: seq<Upstream>, scores: map<string, Score>, draw: real, i: nat) {
    && 0.0 <= draw < 1.0
    && var ws := Shares(before, scores);
       Sum(ws) > 0.0 && InShare(ws, Portion(draw, Sum(ws)), i)
  }

  /** What remains without the `i`-th one. */
  function Dropped(before: seq<Upstream>, i: nat): seq<Upstream>
    requires i < |before|
  {
    before[..i] + before[i + 1..]
  }

  method TakeOne(remaining: seq<Upstream>, scores: map<string, Score>, draw: real) returns (chosen: nat, u: Upstream, rest: seq<Upstream>)
    requires remaining != [] && 0.0 <= draw < 1.0
    ensures Drawn(remaining, scores, draw, chosen) && chosen < |remaining| && u == remaining[chosen] && rest == Dropped(remaining, chosen)
    ensures |rest| < |remaining| && multiset(remaining) == multiset{u} + multiset(rest) && forall v :: v in rest ==> v in remaining
    ensures (exists v :: v in remaining && SampleWeight(scores, v) > 0.0) ==> SampleWeight(scores, u) > 0.0
  {
    chosen := Draw(remaining, scores, draw);
    RemoveAt(remaining, chosen);
    u, rest := remaining[chosen], Dropped(remaining, chosen);
  }

  /** One draw: what remains before it, the number drawn, and which upstream it takes. */
  datatype Pick = Pick(before: seq<Upstream>, draw: real, i: nat)

  ghost function FairPick(scores: map<string, Score>): Pick -> bool {
    (p: Pick) => Drawn(p.before, scores, p.draw, p.i)
  }

  ghost function Left(ups: seq<Upstream>, picks: seq<Pick>): seq<Upstream> {
    if picks == [] then ups
    else
      var p := picks[|picks| - 1];
      if p.i < |p.before| then Dropped(p.before, p.i) else []
  }

  /** The pick takes `u` from the upstreams `before` by this draw, in a way that is `fair`. */
  ghost predicate Takes(before: seq<Upstream>, fair: Pick -> bool, draw: real, p: Pick, u: Upstream) {
    fair(p) && p.draw == draw && p.before == before && p.i < |before| && u == before[p.i]
  }

  /** Each draw in turn takes one of the upstreams that then remain. */
  ghost predicate Sampled(ups: seq<Upstream>, fair: Pick -> bool, draws: Draws, ordered: seq<Upstream>, picks: seq<Pick>) {
    && |picks| == |ordered|
    && forall k :: 0 <= k < |picks| ==> Takes(Left(ups, picks[..k]), fair, draws(k), picks[k], ordered[k])
  }

  lemma SampledNext(ups: seq<Upstream>, fair: Pick -> bool, draws: Draws, ordered: seq<Upstream>, picks: seq<Pick>, p: Pick, u: Upstream)
    requires Sampled(ups, fair, draws, ordered, picks) && Takes(Left(ups, picks), fair, draws(|picks|), p, u)
    ensures Sampled(ups, fair, draws, ordered + [u], picks + [p])
  {
    var all, out := picks + [p], ordered + [u];
    forall k | 0 <= k < |all| ensures Takes(Left(ups, all[..k]), fair, draws(k), all[k], out[k]) {
      if k < |picks| {
        assert all[..k] == picks[..k];
        assert Takes(Left(ups, picks[..k]), fair, draws(k), picks[k], ordered[k]);
      } else {
        assert all[..k] == picks;
      }
    }
  }

  /** Midway: what was drawn and what remains make up `ups`, positive weights drawn first. */
  ghost predicate Partly(ups: seq<Upstream>, scores: map<string, Score>, ordered: seq<Upstream>, remaining: seq<Upstream>) {
    && multiset(ordered) + multiset(remaining) == multiset(ups)
    && PositiveFirst(scores, ordered)
    && ((exists u :: u in remaining && SampleWeight(scores, u) > 0.0) ==>
          forall i :: 0 <= i < |ordered| ==> SampleWeight(scores, ordered[i]) > 0.0)
  }

  lemma PartlyNext(ups: seq<Upstream>, scores: map<string, Score>, ordered: seq<Upstream>, remaining: seq<Upstream>, u: Upstream, rest: seq<Upstream>)
    requires Partly(ups, scores, ordered, remaining)
    requires multiset(remaining) == multiset{u} + multiset(rest) && forall v :: v in rest ==> v in remaining
    requires (exists v :: v in remaining && SampleWeight(scores, v) > 0.0) ==> SampleWeight(scores, u) > 0.0
    ensures Partly(ups, scores, ordered + [u], rest)
  {
    assert u in multiset(remaining);
  }

  ghost predicate Midway(ups: seq<Upstream>, scores: map<string, Score>, draws: Draws, ordered: seq<Upstream>, picks: seq<Pick>, remaining: seq<Upstream>) {
    Sampled(ups, FairPick(scores), draws, ordered, picks) && Left(ups, picks) == remaining && Partly(ups, scores, ordered, remaining)
  }

  lemma MidwayNext(ups: seq<Upstream>, scores: map<string, Score>, draws: Draws, ordered: seq<Upstream>, picks: seq<Pick>, remaining: seq<Upstream>,
                   p: Pick, u: Upstream, rest: seq<Upstream>)
    requires Midway(ups, scores, draws, ordered, picks, remaining)
    requires Takes(remaining, FairPick(scores), draws(|ordered|), p, u) && rest == Dropped(remaining, p.i)
    requires Partly(ups, scores, ordered + [u], rest)
    ensures Midway(ups, scores, draws, ordered + [u], picks + [p], rest)
  {
    SampledNext(ups, FairPick(scores), draws, ordered, picks, p, u);
  }

  lemma MidwayDone(ups: seq<Upstream>, scores: map<string, Score>, draws: Draws, ordered: seq<Upstream>, picks: seq<Pick>)
    requires Midway(ups, scores, draws, ordered, picks, [])
    ensures Sampled(ups, FairPick(scores), draws, ordered, picks)
    ensures multiset(ordered) == multiset(ups)
    ensures PositiveFirst(scores, ordered)
  {
  }

  method TakeNext(ups: seq<Upstream>, scores: map<string, Score>, draws: Draws, ordered: seq<Upstream>, ghost picks: seq<Pick>, remaining: seq<Upstream>)
    returns (u: Upstream, ghost pick: Pick, rest: seq<Upstream>)
    requires 0.0 <= draws(|ordered|) < 1.0 && remaining != [] && Midway(ups, scores, draws, ordered, picks, remaining)
    ensures Midway(ups, scores, draws, ordered + [u], picks + [pick], rest) && |rest| < |remaining|
  {
    var chosen;
    chosen, u, rest := TakeOne(remaining, scores, draws(|ordered|));
    pick := Pick(remaining, draws(|ordered|), chosen);
    PartlyNext(ups, scores, ordered, remaining, u, rest);
    MidwayNext(ups, scores, draws, ordered, picks, remaining, pick, u, rest);
  }

  method WeightedOrderWithoutReplacement(ups: seq<Upstream>, scores: map<string, Score>, draws: Draws)
    returns (ordered: seq<Upstream>, ghost picks: seq<Pick>)
    requires Fractions(draws)
    ensures Sampled(ups, FairPick(scores), draws, ordered, picks)
    ensures multiset(ordered) == multiset(ups)
    ensures PositiveFirst(scores, ordered)
  {
    var remaining := ups;
    ordered, picks := [], [];
    while |remaining| > 0
      invariant Midway(ups, scores, draws, ordered, picks, remaining)
      decreases |remaining|
    {
      var u, rest;
      ghost var pick;
      u, pick, rest := TakeNext(ups, scores, draws, ordered, picks, remaining);
      ordered, picks, remaining := ordered + [u], picks + [pick], rest;
    }
    MidwayDone(ups, scores, draws, ordered, picks);
  }

  /** Any draws. */
  method Chance() returns (draws: Draws)
    ensures Fractions(draws)
  {
    var raw: Draws := *;
    draws := (k: nat) => if 0.0 <= raw(k) < 1.0 then raw(k) else 0.0;
  }

  /** The order by draws that are left to chance. */
  method OrderByChance(ups: seq<Upstream>, scores: map<string, Score>) returns (ordered: seq<Upstream>)
    ensures multiset(ordered) == multiset(ups)
    ensures PositiveFirst(scores, ordered)
  {
    var draws := Chance();
    ghost var picks;
    ordered, picks := WeightedOrderWithoutReplacement(ups, scores, draws);
  }
}
