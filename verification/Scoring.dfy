/** The rolling score window: ring buffers, and a snapshot kept until the next record. */
module Scoring {
  import opened Arithmetic
  import opened Sorting

  const DEFAULT_WINDOW := 100

  datatype Sample = Sample(latency: int, failed: bool)

  datatype Snapshot = Snapshot(samples: nat, errorRate: real, p90: int)

  const NOTHING := Snapshot(0, 0.0, 0)

  // ---------------------------------------------------------------------
  // What a snapshot of some samples is, whatever order they are in
  // ---------------------------------------------------------------------

  function Errors(w: seq<Sample>): (n: nat)
    ensures n <= |w|
  {
    if w == [] then 0 else (if w[0].failed then 1 else 0) + Errors(w[1..])
  }

  /** The positive latencies of the successes. */
  function Positives(w: seq<Sample>): seq<int> {
    if w == [] then []
    else (if !w[0].failed && w[0].latency > 0 then [w[0].latency] else []) + Positives(w[1..])
  }

  function Below(xs: seq<int>, p: int): (n: nat)
    ensures n <= |xs|
  {
    if xs == [] then 0 else (if xs[0] < p then 1 else 0) + Below(xs[1..], p)
  }

  function UpTo(xs: seq<int>, p: int): (n: nat)
    ensures n <= |xs|
  {
    if xs == [] then 0 else (if xs[0] <= p then 1 else 0) + UpTo(xs[1..], p)
  }

  /** Nine tenths, rounded up. */
  function Rank(n: nat): nat {
    (9 * n + 9) / 10
  }

  /** The value in `xs` that has that rank. */
  ghost predicate IsP90(xs: seq<int>, p: int) {
    p in xs && Below(xs, p) < Rank(|xs|) <= UpTo(xs, p)
  }

  ghost predicate IsSnapshot(w: seq<Sample>, s: Snapshot) {
    && s.samples == |w|
    && s.errorRate == (if w == [] then 0.0 else Errors(w) as real / |w| as real)
    && if Positives(w) == [] then s.p90 == 0 else IsP90(Positives(w), s.p90)
  }

  lemma {:induction false} JoinedErrors(a: seq<Sample>, b: seq<Sample>)
    ensures Errors(a + b) == Errors(a) + Errors(b)
  {
    if a == [] {
      assert a + b == b;
    } else {
      JoinedErrors(a[1..], b);
      assert (a + b)[1..] == a[1..] + b;
    }
  }

  lemma {:induction false} JoinedPositives(a: seq<Sample>, b: seq<Sample>)
    ensures Positives(a + b) == Positives(a) + Positives(b)
  {
    if a == [] {
      assert a + b == b;
    } else {
      JoinedPositives(a[1..], b);
      assert (a + b)[1..] == a[1..] + b;
      var first := if !a[0].failed && a[0].latency > 0 then [a[0].latency] else [];
      assert first + (Positives(a[1..]) + Positives(b)) == (first + Positives(a[1..])) + Positives(b);
    }
  }

  lemma Joined(a: seq<Sample>, b: seq<Sample>)
    ensures Errors(a + b) == Errors(a) + Errors(b)
    ensures Positives(a + b) == Positives(a) + Positives(b)
  {
    JoinedErrors(a, b);
    JoinedPositives(a, b);
  }

  lemma {:induction false} JoinedCounts(a: seq<int>, b: seq<int>, p: int)
    ensures Below(a + b, p) == Below(a, p) + Below(b, p)
    ensures UpTo(a + b, p) == UpTo(a, p) + UpTo(b, p)
  {
    if a == [] {
      assert a + b == b;
    } else {
      JoinedCounts(a[1..], b, p);
      assert (a + b)[1..] == a[1..] + b;
    }
  }

  /** A ring read from its first cell has the snapshot of its samples in order. */
  lemma RotationKeepsSnapshot(a: seq<Sample>, b: seq<Sample>, s: Snapshot)
    requires IsSnapshot(a + b, s)
    ensures IsSnapshot(b + a, s)
  {
    Joined(a, b);
    Joined(b, a);
    JoinedCounts(Positives(a), Positives(b), s.p90);
    JoinedCounts(Positives(b), Positives(a), s.p90);
  }

  lemma {:induction false} CountsGrow(xs: seq<int>, p: int, q: int)
    requires p < q
    ensures UpTo(xs, p) <= Below(xs, q)
  {
    if xs != [] {
      CountsGrow(xs[1..], p, q);
    }
  }

  /** Samples determine their snapshot. */
  lemma SnapshotUnique(w: seq<Sample>, s: Snapshot, t: Snapshot)
    requires IsSnapshot(w, s) && IsSnapshot(w, t)
    ensures s == t
  {
    if s.p90 < t.p90 {
      CountsGrow(Positives(w), s.p90, t.p90);
    } else if t.p90 < s.p90 {
      CountsGrow(Positives(w), t.p90, s.p90);
    }
  }

  lemma Proportion(e: real, n: real)
    requires 0.0 <= e <= n && n > 0.0
    ensures 0.0 <= e / n <= 1.0
  {
    assert n / n == 1.0;
  }

  /** The latencies that count are the positive ones of the samples that did not fail, each as often as it was recorded. */
  lemma {:induction false} PositivesAre(w: seq<Sample>, x: int)
    ensures multiset(Positives(w))[x] == if x > 0 then multiset(w)[Sample(x, false)] else 0
  {
    if w != [] {
      PositivesAre(w[1..], x);
      assert w == [w[0]] + w[1..];
    }
  }

  ghost function Failed(w: seq<Sample>): set<int> {
    set i | 0 <= i < |w| && w[i].failed
  }

  /** The errors are as many as the samples that failed. */
  lemma {:induction false} ErrorsAre(w: seq<Sample>)
    ensures Errors(w) == |Failed(w)|
  {
    if w != [] {
      var k := |w| - 1;
      ErrorsAre(w[..k]);
      JoinedErrors(w[..k], w[k..]);
      assert w[..k] + w[k..] == w && Errors(w[k..]) == if w[k].failed then 1 else 0;
      assert Failed(w) == Failed(w[..k]) + if w[k].failed then {k} else {};
    }
  }

  /** The error rate is a proportion. Nine tenths of the positive latencies are within the reported one, and fewer lie below it. */
  lemma SnapshotMeans(w: seq<Sample>, s: Snapshot)
    requires IsSnapshot(w, s)
    ensures 0.0 <= s.errorRate <= 1.0
    ensures 10 * UpTo(Positives(w), s.p90) >= 9 * |Positives(w)|
    ensures Positives(w) != [] ==> s.p90 in Positives(w) && 10 * Below(Positives(w), s.p90) < 9 * |Positives(w)|
  {
    if w != [] {
      var e, n := Errors(w) as real, |w| as real;
      assert 0.0 <= e <= n && n > 0.0;
      Proportion(e, n);
    }
  }

  // ---------------------------------------------------------------------
  // Sorting finds the rank
  // ---------------------------------------------------------------------

  predicate Leq(x: int, y: int) {
    x <= y
  }

  lemma {:induction false} InsertCounts(x: int, s: seq<int>, p: int)
    ensures Below(Insert(Leq, x, s), p) == (if x < p then 1 else 0) + Below(s, p)
    ensures UpTo(Insert(Leq, x, s), p) == (if x <= p then 1 else 0) + UpTo(s, p)
  {
    if s == [] || Leq(x, s[0]) {
      assert ([x] + s)[1..] == s;
    } else {
      InsertCounts(x, s[1..], p);
      assert ([s[0]] + Insert(Leq, x, s[1..]))[1..] == Insert(Leq, x, s[1..]);
    }
  }

  lemma {:induction false} SortCounts(s: seq<int>, p: int)
    ensures Below(Sort(Leq, s), p) == Below(s, p) && UpTo(Sort(Leq, s), p) == UpTo(s, p)
  {
    if s != [] {
      SortCounts(s[1..], p);
      InsertCounts(s[0], Sort(Leq, s[1..]), p);
    }
  }

  lemma {:induction false} NoneBelow(s: seq<int>, p: int)
    requires forall i :: 0 <= i < |s| ==> p <= s[i]
    ensures Below(s, p) == 0
  {
    if s != [] {
      NoneBelow(s[1..], p);
    }
  }

  lemma {:induction false} AllUpTo(s: seq<int>, p: int)
    requires forall i :: 0 <= i < |s| ==> s[i] <= p
    ensures UpTo(s, p) == |s|
  {
    if s != [] {
      AllUpTo(s[1..], p);
    }
  }

  lemma SortedBelow(s: seq<int>, i: nat)
    requires Sorted(Leq, s) && i < |s|
    ensures Below(s, s[i]) <= i
  {
    assert s == s[..i] + s[i..];
    JoinedCounts(s[..i], s[i..], s[i]);
    forall j | 0 <= j < |s[i..]| ensures s[i] <= s[i..][j] {
      assert j > 0 ==> Leq(s[i], s[i + j]);
    }
    NoneBelow(s[i..], s[i]);
  }

  lemma SortedUpTo(s: seq<int>, i: nat)
    requires Sorted(Leq, s) && i < |s|
    ensures i < UpTo(s, s[i])
  {
    assert s == s[..i + 1] + s[i + 1..];
    JoinedCounts(s[..i + 1], s[i + 1..], s[i]);
    var front := s[..i + 1];
    forall j | 0 <= j < |front| ensures front[j] <= s[i] {
      assert j < i ==> Leq(s[j], s[i]);
    }
    AllUpTo(front, s[i]);
  }

  /** Sorting the latencies and taking the ranked one. */
  method Percentile(successful: seq<int>) returns (p: int)
    requires successful != []
    ensures IsP90(successful, p)
  {
    var sorted := Sort(Leq, successful);
    assert |sorted| == |multiset(sorted)| == |successful|;
    var idx := Rank(|successful|) - 1;
    if idx < 0 {
      idx := 0;
    }
    if idx >= |sorted| {
      idx := |sorted| - 1;
    }
    p := sorted[idx];
    assert TotalPreorder(Leq);
    SortSorts(Leq, successful);
    SortedBelow(sorted, idx);
    SortedUpTo(sorted, idx);
    SortCounts(successful, p);
    MultisetMember(p, sorted, successful);
  }

  // ---------------------------------------------------------------------
  // The tracker
  // ---------------------------------------------------------------------

  function Zip(latencies: seq<int>, errors: seq<bool>): seq<Sample>
    requires |latencies| == |errors|
  {
    seq(|errors|, i requires 0 <= i < |errors| => Sample(latencies[i], errors[i]))
  }

  /** The last `n` samples, or all of them. */
  function Last(history: seq<Sample>, n: nat): seq<Sample> {
    if |history| <= n then history else history[|history| - n..]
  }

  /** The cells a ring of size `n` has after this history, oldest first. */
  ghost predicate Holds(cells: seq<Sample>, history: seq<Sample>) {
    var n := |cells|;
    && n > 0
    && if |history| < n then cells[..|history|] == history
       else
         var s := |history| % n;
         Last(history, n) == cells[s..] + cells[..s]
  }

  lemma NextCell(pos: nat, n: nat)
    requires n > 0
    ensures (pos + 1) % n == if pos % n + 1 < n then pos % n + 1 else 0
  {
    var q, r := pos / n, pos % n;
    if r + 1 < n {
      RemainderUnique(pos + 1, n, q, r + 1);
    } else {
      RemainderUnique(pos + 1, n, q + 1, 0);
    }
  }

  lemma SmallCell(pos: nat, n: nat)
    requires pos < n
    ensures pos % n == pos
  {
  }

  lemma WriteHolds(cells: seq<Sample>, history: seq<Sample>, x: Sample)
    requires Holds(cells, history)
    ensures |history| % |cells| < |cells|
    ensures Holds(cells[|history| % |cells| := x], history + [x])
  {
    var n, m := |cells|, |history|;
    var s := m % n;
    var after := cells[s := x];
    NextCell(m, n);
    if m < n {
      SmallCell(m, n);
      assert after[..m + 1] == history + [x];
      if m + 1 == n {
        assert (m + 1) % n == 0;
        assert after[0..] + after[..0] == history + [x];
      }
    } else {
      assert Last(history + [x], n) == Last(history, n)[1..] + [x];
      assert (cells[s..] + cells[..s])[1..] == cells[s + 1..] + cells[..s];
      if s + 1 < n {
        assert after[s + 1..] + after[..s + 1] == cells[s + 1..] + cells[..s] + [x];
      } else {
        assert after[0..] + after[..0] == cells[s + 1..] + cells[..s] + [x];
      }
    }
  }

  /** What the cells in use add up to is what the last samples add up to. */
  lemma CellsSnapshot(cells: seq<Sample>, history: seq<Sample>, count: nat, s: Snapshot)
    requires Holds(cells, history) && count == (if |history| < |cells| then |history| else |cells|)
    requires IsSnapshot(cells[..count], s)
    ensures IsSnapshot(Last(history, |cells|), s)
  {
    if |history| >= |cells| {
      var k := |history| % |cells|;
      assert cells[..count] == cells[..k] + cells[k..];
      RotationKeepsSnapshot(cells[..k], cells[k..], s);
    }
  }

  class ScoreTracker {
    const windowSize: nat
    var latencies: array<int>
    var errors: array<bool>
    var pos: nat
    var count: nat
    var snapshot: Snapshot
    var snapshotValid: bool
    ghost var history: seq<Sample>

    ghost predicate Ring()
      reads this, latencies, errors
    {
      && latencies.Length == errors.Length == windowSize > 0
      && pos == |history|
      && count == (if |history| < windowSize then |history| else windowSize)
      && Holds(Zip(latencies[..], errors[..]), history)
    }

    /** The ring holds the last samples, and a kept snapshot is theirs. */
    ghost predicate Valid()
      reads this, latencies, errors
    {
      Ring() && (snapshotValid ==> IsSnapshot(Last(history, windowSize), snapshot))
    }

    constructor (windowSize: int)
      ensures Valid() && history == [] && fresh(latencies) && fresh(errors)
      ensures this.windowSize == if windowSize <= 0 then DEFAULT_WINDOW else windowSize
    {
      var n := if windowSize <= 0 then DEFAULT_WINDOW else windowSize;
      this.windowSize := n;
      latencies := new int[n](_ => 0);
      errors := new bool[n](_ => false);
      pos, count := 0, 0;
      snapshot, snapshotValid := NOTHING, false;
      history := [];
      new;
      assert Zip(latencies[..], errors[..])[..0] == [];
    }

    method Record(latency: int, failed: bool)
      requires Valid()
      modifies this`pos, this`count, this`snapshotValid, this`history, latencies, errors
      ensures Valid() && history == old(history) + [Sample(latency, failed)]
    {
      WriteHolds(Zip(latencies[..], errors[..]), history, Sample(latency, failed));
      var idx := pos % windowSize;
      latencies[idx] := latency;
      errors[idx] := failed;
      assert Zip(latencies[..], errors[..]) == old(Zip(latencies[..], errors[..]))[idx := Sample(latency, failed)];
      snapshotValid := false;
      pos := pos + 1;
      if count < windowSize {
        count := count + 1;
      }
      history := history + [Sample(latency, failed)];
    }

    method RecordSuccess(latency: int)
      requires Valid()
      modifies this`pos, this`count, this`snapshotValid, this`history, latencies, errors
      ensures Valid() && history == old(history) + [Sample(latency, false)]
    {
      Record(latency, false);
    }

    method RecordError()
      requires Valid()
      modifies this`pos, this`count, this`snapshotValid, this`history, latencies, errors
      ensures Valid() && history == old(history) + [Sample(0, true)]
    {
      Record(0, true);
    }

    /** The snapshot, kept or computed, is that of the last samples alone. */
    method CurrentSnapshot() returns (s: Snapshot)
      requires Valid()
      modifies this`snapshot, this`snapshotValid
      ensures Valid() && IsSnapshot(Last(history, windowSize), s)
    {
      if !snapshotValid {
        snapshot := ComputeSnapshot();
        snapshotValid := true;
      }
      s := snapshot;
    }

    /** One pass over the cells in use. */
    method ComputeSnapshot() returns (s: Snapshot)
      requires Ring()
      ensures IsSnapshot(Last(history, windowSize), s)
    {
      ghost var cells := Zip(latencies[..], errors[..]);
      s := Snapshot(count, 0.0, 0);
      if count == 0 {
        return;
      }
      var errCount, successful := Tally();
      s := s.(errorRate := errCount as real / count as real);
      if successful != [] {
        var p := Percentile(successful);
        s := s.(p90 := p);
      }
      CellsSnapshot(cells, history, count, s);
    }

    method Tally() returns (errCount: nat, successful: seq<int>)
      requires latencies.Length == errors.Length && count <= latencies.Length
      ensures errCount == Errors(Zip(latencies[..], errors[..])[..count])
      ensures successful == Positives(Zip(latencies[..], errors[..])[..count])
    {
      ghost var cells := Zip(latencies[..], errors[..]);
      errCount, successful := 0, [];
      for i := 0 to count
        invariant errCount == Errors(cells[..i]) && successful == Positives(cells[..i])
      {
        assert cells[..i + 1] == cells[..i] + [cells[i]];
        Joined(cells[..i], [cells[i]]);
        if errors[i] {
          errCount := errCount + 1;
          continue;
        }
        if latencies[i] > 0 {
          successful := successful + [latencies[i]];
        }
      }
    }
  }
}
