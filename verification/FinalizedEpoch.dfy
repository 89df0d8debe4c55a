/**
 The finalized epoch of any number of instances sharing one Redis key.

 Every load, compare-and-swap, memo access and Redis command is a step of its
 own, so updates and startup seeding interleave freely within an instance and
 across instances. A Redis call can fail before or after taking effect.
 */
module FinalizedEpoch {
  import opened ForkTracker

  function Max(a: U64, b: U64): U64 {
    if a < b then b else a
  }

  /** An epoch that has started by the wall clock, give or take ten minutes, or any epoch while genesis is unknown. */
  predicate PlausibleEpoch(c: Clock, spe: U64, epoch: U64)
    requires spe > 0
  {
    WallSlot(c).Some? ==> epoch <= WallSlot(c).value / spe
  }

  function SlotSeconds(c: Clock): int {
    if c.secondsPerSlot <= 0 then DEFAULT_SECONDS_PER_SLOT else c.secondsPerSlot
  }

  /** A slot is plausible exactly if it begins at most ten minutes from now, or genesis is unknown or to come. */
  lemma PlausibleMeans(c: Clock, slot: U64)
    ensures Plausible(c, slot) <==> (0 < c.genesis < c.now ==> c.genesis + slot * SlotSeconds(c) <= c.now + 600)
  {
    if WallSlot(c).Some? {
      Quotient(c.now - c.genesis + CLOCK_SKEW_SECONDS, SlotSeconds(c), slot);
    }
  }

  /** And an epoch exactly if its first slot is. */
  lemma PlausibleEpochMeans(c: Clock, spe: U64, epoch: U64)
    requires spe > 0
    ensures PlausibleEpoch(c, spe, epoch) <==> (0 < c.genesis < c.now ==> c.genesis + (epoch * spe) * SlotSeconds(c) <= c.now + 600)
  {
    PlausibleEpochStarted(c, spe, epoch);
    if WallSlot(c).Some? {
      Quotient(c.now - c.genesis + CLOCK_SKEW_SECONDS, SlotSeconds(c), epoch * spe);
    }
  }

  /** Accepted epochs begin no later than the wall-clock slot. */
  lemma PlausibleEpochStarted(c: Clock, spe: U64, epoch: U64)
    requires spe > 0
    ensures PlausibleEpoch(c, spe, epoch) <==> (WallSlot(c).Some? ==> epoch * spe <= WallSlot(c).value)
  {
    if WallSlot(c).Some? {
      var w := WallSlot(c).value;
      Quotient(w, spe, epoch);
    }
  }

  lemma Quotient(w: nat, d: int, q: int)
    requires d > 0
    ensures q <= w / d <==> q * d <= w
  {
    var k := w / d;
    assert k * d <= w < (k + 1) * d;
    if q <= k {
      assert q * d <= k * d;
    } else {
      assert (k + 1) * d <= q * d;
    }
  }

  // ---------------------------------------------------------------------
  // Threads
  // ---------------------------------------------------------------------

  datatype Phase =
    | Offer(epoch: U64)
    | Loaded(epoch: U64, was: U64)
    | Merge
    | Decide(merged: U64)
    | Script(merged: U64)
    | Note(merged: U64)
    | Get
    | Fold(remote: U64)
    | Updated(result: U64, failed: bool)
    | Seeded

  /** `mine` is the epoch an update offered, 0 if the clock rejected it. */
  datatype Thread = Thread(node: nat, seeding: bool, mine: U64, phase: Phase)

  datatype Sys = Sys(value: seq<U64>, memo: seq<U64>, shared: U64, threads: seq<Thread>)

  datatype Step =
    | Update(node: nat, epoch: U64, clock: Clock)
    | Seed(node: nat)
    | Advance(thread: nat, clock: Clock, ok: bool, effect: bool)

  predicate Fits(s: Sys, a: Step) {
    match a
    case Update(i, _, _) => i < |s.value| == |s.memo|
    case Seed(i) => i < |s.value| == |s.memo|
    case Advance(t, _, ok, effect) =>
      t < |s.threads| && s.threads[t].node < |s.value| == |s.memo| && (ok ==> effect)
  }

  /** Leaving the compare-and-swap loop. */
  function Leave(th: Thread): Phase {
    if th.seeding then Seeded else Merge
  }

  function NextPhase(s: Sys, spe: U64, th: Thread, a: Step): Phase
    requires a.Advance? && th.node < |s.value| == |s.memo| && spe > 0
  {
    match th.phase
    case Offer(e) => Loaded(e, s.value[th.node])
    case Loaded(e, was) => if e <= was || s.value[th.node] == was then Leave(th) else Offer(e)
    case Merge => if s.value[th.node] > 0 then Decide(s.value[th.node]) else Updated(0, false)
    case Decide(m) => if m <= s.memo[th.node] then Updated(m, false) else Script(m)
    case Script(m) => if a.ok then Note(m) else Updated(m, true)
    case Note(m) => Updated(m, false)
    case Get => Fold(if a.ok then s.shared else 0)
    case Fold(r) =>
      var v := Max(s.memo[th.node], r);
      if PlausibleEpoch(a.clock, spe, v) then Offer(v) else Seeded
    case Updated(_, _) => th.phase
    case Seeded => th.phase
  }

  function Apply(s: Sys, spe: U64, a: Step): Sys
    requires Fits(s, a) && spe > 0
  {
    match a
    case Update(i, e, clock) =>
      var ok := PlausibleEpoch(clock, spe, e);
      s.(threads := s.threads + [Thread(i, false, if ok then e else 0, if ok then Offer(e) else Merge)])
    case Seed(i) => s.(threads := s.threads + [Thread(i, true, 0, Get)])
    case Advance(t, _, ok, effect) =>
      var th := s.threads[t];
      var u := s.(threads := s.threads[t := th.(phase := NextPhase(s, spe, th, a))]);
      match th.phase
      case Loaded(e, was) => if e > was && s.value[th.node] == was then u.(value := s.value[th.node := e]) else u
      case Script(m) => if effect then u.(shared := Max(s.shared, m)) else u
      case Note(m) => u.(memo := s.memo[th.node := Max(s.memo[th.node], m)])
      case Fold(r) => u.(memo := s.memo[th.node := Max(s.memo[th.node], r)])
      case _ => u
  }

  ghost predicate Runs(n: nat, spe: U64, acts: seq<Step>)
    decreases |acts|, 0
  {
    && spe > 0
    && (acts == [] || (Runs(n, spe, acts[..|acts| - 1]) && Fits(State(n, spe, acts[..|acts| - 1]), acts[|acts| - 1])))
  }

  ghost function State(n: nat, spe: U64, acts: seq<Step>): (s: Sys)
    requires Runs(n, spe, acts)
    ensures |s.value| == |s.memo| == n
    decreases |acts|, 1
  {
    if acts == [] then Sys(seq(n, _ => 0), seq(n, _ => 0), 0, [])
    else Apply(State(n, spe, acts[..|acts| - 1]), spe, acts[|acts| - 1])
  }

  // ---------------------------------------------------------------------
  // What a run has merged, offered and found plausible
  // ---------------------------------------------------------------------

  datatype Test = Test(node: nat, epoch: U64, clock: Clock)

  datatype History = History(merged: seq<set<U64>>, offered: set<U64>, passed: set<Test>)

  ghost function Noted(h: History, s: Sys, spe: U64, a: Step): History
    requires Fits(s, a) && spe > 0 && |h.merged| == |s.value|
  {
    match a
    case Update(i, e, clock) =>
      if PlausibleEpoch(clock, spe, e) then h.(offered := h.offered + {e}, passed := h.passed + {Test(i, e, clock)}) else h
    case Seed(_) => h
    case Advance(t, clock, _, _) =>
      var th := s.threads[t];
      match th.phase
      case Loaded(e, _) =>
        if NextPhase(s, spe, th, a).Offer? then h else h.(merged := h.merged[th.node := h.merged[th.node] + {e}])
      case Fold(r) =>
        if NextPhase(s, spe, th, a).Offer? then h.(passed := h.passed + {Test(th.node, Max(s.memo[th.node], r), clock)})
        else h
      case _ => h
  }

  ghost function HistoryOf(n: nat, spe: U64, acts: seq<Step>): (h: History)
    requires Runs(n, spe, acts)
    ensures |h.merged| == n
  {
    if acts == [] then History(seq(n, _ => {}), {}, {})
    else
      var front := acts[..|acts| - 1];
      Noted(HistoryOf(n, spe, front), State(n, spe, front), spe, acts[|acts| - 1])
  }

  // ---------------------------------------------------------------------
  // Invariants
  // ---------------------------------------------------------------------

  ghost predicate IsMaximum(v: U64, epochs: set<U64>) {
    (forall e :: e in epochs ==> e <= v) && (v == 0 || v in epochs)
  }

  ghost predicate MergedSomewhere(h: History, e: U64) {
    e == 0 || exists i :: 0 <= i < |h.merged| && e in h.merged[i]
  }

  ghost predicate Passed(h: History, i: nat, e: U64) {
    e == 0 || exists c :: Test(i, e, c) in h.passed
  }

  ghost predicate PoolsOk(h: History, s: Sys) {
    && |h.merged| == |s.value| == |s.memo|
    && (forall i :: 0 <= i < |s.value| ==> IsMaximum(s.value[i], h.merged[i]))
    && (forall i, e :: 0 <= i < |s.value| && e in h.merged[i] ==> e == 0 || e in h.offered)
    && (forall i, e :: 0 <= i < |s.value| && e in h.merged[i] ==> Passed(h, i, e))
  }

  ghost predicate SharedOk(h: History, s: Sys) {
    && MergedSomewhere(h, s.shared)
    && (forall i :: 0 <= i < |s.memo| ==> s.memo[i] <= s.shared && MergedSomewhere(h, s.memo[i]))
  }

  ghost predicate ThreadOk(h: History, s: Sys, th: Thread)
    requires |h.merged| == |s.value|
  {
    && th.node < |s.value|
    && (th.seeding ==> th.mine == 0)
    && match th.phase
       case Offer(e) => (e == 0 || e in h.offered) && Passed(h, th.node, e) && th.mine <= e
       case Loaded(e, was) =>
         (e == 0 || e in h.offered) && Passed(h, th.node, e) && th.mine <= e && was <= s.value[th.node]
       case Merge => th.mine <= s.value[th.node]
       case Decide(m) => th.mine <= m <= s.value[th.node] && m in h.merged[th.node]
       case Script(m) => th.mine <= m <= s.value[th.node] && m in h.merged[th.node]
       case Note(m) => th.mine <= m <= s.shared && m <= s.value[th.node] && m in h.merged[th.node]
       case Get => th.seeding
       case Fold(r) => r <= s.shared && MergedSomewhere(h, r) && th.mine == 0
       case Updated(m, failed) => th.mine <= m <= s.value[th.node] && (failed || m <= s.shared)
       case Seeded => true
  }

  ghost predicate Inv(h: History, s: Sys) {
    && PoolsOk(h, s)
    && SharedOk(h, s)
    && (forall t :: 0 <= t < |s.threads| ==> ThreadOk(h, s, s.threads[t]))
  }

  /** Everything only grows, so threads that did not move stay as they were. */
  ghost predicate Grows(h: History, s: Sys, h': History, s': Sys) {
    && |h.merged| == |s.value| == |h'.merged| == |s'.value|
    && (forall i :: 0 <= i < |s.value| ==> s.value[i] <= s'.value[i] && h.merged[i] <= h'.merged[i])
    && s.shared <= s'.shared
    && h.offered <= h'.offered
    && h.passed <= h'.passed
  }

  lemma StepGrows(h: History, s: Sys, spe: U64, a: Step)
    requires spe > 0 && Fits(s, a) && |h.merged| == |s.value|
    ensures Grows(h, s, Noted(h, s, spe, a), Apply(s, spe, a))
    ensures |Apply(s, spe, a).memo| == |s.memo|
    ensures forall i :: 0 <= i < |s.memo| ==> s.memo[i] <= Apply(s, spe, a).memo[i]
  {
  }

  lemma GrowthKeeps(h: History, s: Sys, h': History, s': Sys, th: Thread)
    requires Grows(h, s, h', s') && ThreadOk(h, s, th)
    ensures ThreadOk(h', s', th)
  {
    match th.phase
    case Fold(r) => GrowthKeepsMerged(h, s, h', s', r);
    case Offer(e) =>
    case Loaded(e, was) =>
    case _ =>
  }

  lemma GrowthKeepsMerged(h: History, s: Sys, h': History, s': Sys, e: U64)
    requires Grows(h, s, h', s') && MergedSomewhere(h, e)
    ensures MergedSomewhere(h', e)
  {
    if e != 0 {
      var i :| 0 <= i < |h.merged| && e in h.merged[i];
      assert e in h'.merged[i];
    }
  }

  lemma PoolsKept(h: History, s: Sys, spe: U64, a: Step)
    requires spe > 0 && Fits(s, a) && Inv(h, s)
    ensures PoolsOk(Noted(h, s, spe, a), Apply(s, spe, a))
  {
    var h', s' := Noted(h, s, spe, a), Apply(s, spe, a);
    StepGrows(h, s, spe, a);
    if a.Advance? && s.threads[a.thread].phase.Loaded? {
      assert ThreadOk(h, s, s.threads[a.thread]);
    }
    forall i, e | 0 <= i < |s'.value| && e in h'.merged[i] ensures Passed(h', i, e) {
      assert e in h.merged[i] ==> Passed(h, i, e);
    }
  }

  lemma SharedKept(h: History, s: Sys, spe: U64, a: Step)
    requires spe > 0 && Fits(s, a) && Inv(h, s)
    ensures SharedOk(Noted(h, s, spe, a), Apply(s, spe, a))
  {
    var h', s' := Noted(h, s, spe, a), Apply(s, spe, a);
    StepGrows(h, s, spe, a);
    if a.Advance? {
      var th := s.threads[a.thread];
      assert ThreadOk(h, s, th);
      if th.phase.Script? || th.phase.Note? {
        assert th.phase.merged in h'.merged[th.node];
        assert MergedSomewhere(h', th.phase.merged);
      } else if th.phase.Fold? {
        GrowthKeepsMerged(h, s, h', s', th.phase.remote);
      }
    }
    GrowthKeepsMerged(h, s, h', s', s.shared);
    forall i | 0 <= i < |s.memo| ensures s'.memo[i] <= s'.shared && MergedSomewhere(h', s'.memo[i]) {
      GrowthKeepsMerged(h, s, h', s', s.memo[i]);
    }
  }

  lemma LoopThreadOk(h: History, s: Sys, spe: U64, a: Step)
    requires spe > 0 && Fits(s, a) && Inv(h, s) && a.Advance?
    requires s.threads[a.thread].phase.Offer? || s.threads[a.thread].phase.Loaded?
    ensures ThreadOk(Noted(h, s, spe, a), Apply(s, spe, a), Apply(s, spe, a).threads[a.thread])
  {
    assert ThreadOk(h, s, s.threads[a.thread]);
  }

  lemma PublishThreadOk(h: History, s: Sys, spe: U64, a: Step)
    requires spe > 0 && Fits(s, a) && Inv(h, s) && a.Advance?
    requires var phase := s.threads[a.thread].phase; phase.Merge? || phase.Decide? || phase.Script? || phase.Note?
    ensures ThreadOk(Noted(h, s, spe, a), Apply(s, spe, a), Apply(s, spe, a).threads[a.thread])
  {
    var th := s.threads[a.thread];
    assert ThreadOk(h, s, th);
    if th.phase.Merge? {
      assert IsMaximum(s.value[th.node], h.merged[th.node]);
    }
  }

  lemma SeedThreadOk(h: History, s: Sys, spe: U64, a: Step)
    requires spe > 0 && Fits(s, a) && Inv(h, s) && a.Advance?
    requires s.threads[a.thread].phase.Get? || s.threads[a.thread].phase.Fold?
    ensures ThreadOk(Noted(h, s, spe, a), Apply(s, spe, a), Apply(s, spe, a).threads[a.thread])
  {
    var th := s.threads[a.thread];
    assert ThreadOk(h, s, th);
    if th.phase.Fold? {
      var v := Max(s.memo[th.node], th.phase.remote);
      assert MergedSomewhere(h, v);
      if PlausibleEpoch(a.clock, spe, v) {
        assert Test(th.node, v, a.clock) in Noted(h, s, spe, a).passed;
      }
    }
  }

  lemma MovedThreadOk(h: History, s: Sys, spe: U64, a: Step)
    requires spe > 0 && Fits(s, a) && Inv(h, s) && a.Advance?
    ensures ThreadOk(Noted(h, s, spe, a), Apply(s, spe, a), Apply(s, spe, a).threads[a.thread])
  {
    var th := s.threads[a.thread];
    assert ThreadOk(h, s, th);
    match th.phase
    case Offer(_) => LoopThreadOk(h, s, spe, a);
    case Loaded(_, _) => LoopThreadOk(h, s, spe, a);
    case Merge => PublishThreadOk(h, s, spe, a);
    case Decide(_) => PublishThreadOk(h, s, spe, a);
    case Script(_) => PublishThreadOk(h, s, spe, a);
    case Note(_) => PublishThreadOk(h, s, spe, a);
    case Get => SeedThreadOk(h, s, spe, a);
    case Fold(_) => SeedThreadOk(h, s, spe, a);
    case Updated(_, _) =>
    case Seeded =>
  }

  lemma StepKeeps(h: History, s: Sys, spe: U64, a: Step)
    requires spe > 0 && Fits(s, a) && Inv(h, s)
    ensures Inv(Noted(h, s, spe, a), Apply(s, spe, a))
  {
    var h', s' := Noted(h, s, spe, a), Apply(s, spe, a);
    StepGrows(h, s, spe, a);
    PoolsKept(h, s, spe, a);
    SharedKept(h, s, spe, a);
    if a.Advance? {
      MovedThreadOk(h, s, spe, a);
    }
    forall t | 0 <= t < |s'.threads| ensures ThreadOk(h', s', s'.threads[t]) {
      if t < |s.threads| && !(a.Advance? && t == a.thread) {
        assert s'.threads[t] == s.threads[t];
        GrowthKeeps(h, s, h', s', s.threads[t]);
      }
    }
  }

  lemma {:induction false} Always(n: nat, spe: U64, acts: seq<Step>)
    requires Runs(n, spe, acts)
    ensures Inv(HistoryOf(n, spe, acts), State(n, spe, acts))
  {
    if acts != [] {
      var front := acts[..|acts| - 1];
      Always(n, spe, front);
      StepKeeps(HistoryOf(n, spe, front), State(n, spe, front), spe, acts[|acts| - 1]);
    }
  }

  // ---------------------------------------------------------------------
  // Theorems over every run
  // ---------------------------------------------------------------------

  /** Each pool holds the maximum of the epochs merged into it, all of them offered by some instance's update. */
  lemma PoolHoldsMaximum(n: nat, spe: U64, acts: seq<Step>, i: nat)
    requires Runs(n, spe, acts) && i < n
    ensures IsMaximum(State(n, spe, acts).value[i], HistoryOf(n, spe, acts).merged[i])
    ensures State(n, spe, acts).value[i] == 0 || State(n, spe, acts).value[i] in HistoryOf(n, spe, acts).offered
  {
    Always(n, spe, acts);
  }

  /** The shared key and every memo hold epochs some pool merged, and no memo is ahead of the key. */
  lemma SharedKeyHoldsMergedEpochs(n: nat, spe: U64, acts: seq<Step>, i: nat)
    requires Runs(n, spe, acts) && i < n
    ensures var s := State(n, spe, acts);
            var h := HistoryOf(n, spe, acts);
            s.memo[i] <= s.shared && MergedSomewhere(h, s.shared) && MergedSomewhere(h, s.memo[i])
  {
    Always(n, spe, acts);
  }

  /** No Redis call of thread `t` fails in the run. */
  ghost predicate RedisAnswers(acts: seq<Step>, t: nat) {
    forall i :: 0 <= i < |acts| && acts[i].Advance? && acts[i].thread == t ==> acts[i].ok
  }

  lemma {:induction false} FailsOnlyWithRedis(n: nat, spe: U64, acts: seq<Step>, t: nat)
    requires Runs(n, spe, acts) && t < |State(n, spe, acts).threads| && RedisAnswers(acts, t)
    ensures var phase := State(n, spe, acts).threads[t].phase; phase.Updated? ==> !phase.failed
  {
    var front, a := acts[..|acts| - 1], acts[|acts| - 1];
    var s := State(n, spe, front);
    if t < |s.threads| {
      assert forall i :: 0 <= i < |front| ==> front[i] == acts[i];
      FailsOnlyWithRedis(n, spe, front, t);
    }
  }

  /** An update never returns less than the epoch it offered, and unless a Redis call of its own failed its result is in the shared key. */
  lemma FinishedUpdatesArePublished(n: nat, spe: U64, acts: seq<Step>, t: nat)
    requires Runs(n, spe, acts) && t < |State(n, spe, acts).threads| && State(n, spe, acts).threads[t].phase.Updated?
    ensures var s := State(n, spe, acts);
            var th := s.threads[t];
            && th.node < |s.value|
            && th.mine <= th.phase.result <= s.value[th.node]
            && (RedisAnswers(acts, t) ==> th.phase.result <= s.shared)
  {
    Always(n, spe, acts);
    if RedisAnswers(acts, t) {
      FailsOnlyWithRedis(n, spe, acts, t);
    }
  }

  /** Steps left at most, unless a compare-and-swap is lost. */
  function Rank(p: Phase): nat {
    match p
    case Get => 8
    case Fold(_) => 7
    case Offer(_) => 6
    case Loaded(_, _) => 5
    case Merge => 4
    case Decide(_) => 3
    case Script(_) => 2
    case Note(_) => 1
    case Updated(_, _) => 0
    case Seeded => 0
  }

  lemma RankDrops(s: Sys, spe: U64, th: Thread, a: Step)
    requires a.Advance? && th.node < |s.value| == |s.memo| && spe > 0
    requires th.phase.Loaded? ==> th.phase.was <= s.value[th.node]
    ensures Rank(NextPhase(s, spe, th, a)) < Rank(th.phase) || Rank(th.phase) == 0 || (th.phase.Loaded? && th.phase.was < s.value[th.node])
  {
  }

  /** Every step brings a thread nearer to its end, except a compare-and-swap lost to an update that raised the pool's value. */
  lemma StepsProgress(n: nat, spe: U64, acts: seq<Step>, t: nat, clock: Clock, ok: bool, effect: bool)
    requires Runs(n, spe, acts) && t < |State(n, spe, acts).threads| && (ok ==> effect)
    ensures var s := State(n, spe, acts);
            var th := s.threads[t];
            && th.node < |s.value|
            && var next := Apply(s, spe, Advance(t, clock, ok, effect)).threads[t].phase;
               Rank(next) < Rank(th.phase) || Rank(th.phase) == 0 || (th.phase.Loaded? && th.phase.was < s.value[th.node])
  {
    Always(n, spe, acts);
    var s := State(n, spe, acts);
    assert ThreadOk(HistoryOf(n, spe, acts), s, s.threads[t]);
    RankDrops(s, spe, s.threads[t], Advance(t, clock, ok, effect));
  }

  /** A thread that runs on its own for `k` steps, with Redis answering. */
  ghost function Alone(s: Sys, spe: U64, t: nat, clock: Clock, k: nat): (r: Sys)
    requires spe > 0 && t < |s.threads| && s.threads[t].node < |s.value| == |s.memo|
    ensures |r.threads| == |s.threads| && r.threads[t].node == s.threads[t].node && |r.value| == |r.memo| == |s.value|
    ensures r.threads[t].seeding == s.threads[t].seeding
  {
    if k == 0 then s else Apply(Alone(s, spe, t, clock, k - 1), spe, Advance(t, clock, true, true))
  }

  /** One step of it. */
  lemma AloneStep(s: Sys, spe: U64, t: nat, clock: Clock, k: nat)
    requires spe > 0 && t < |s.threads| && s.threads[t].node < |s.value| == |s.memo|
    ensures var r := Alone(s, spe, t, clock, k);
            Alone(s, spe, t, clock, k + 1) == Apply(r, spe, Advance(t, clock, true, true))
  {
  }

  ghost predicate Holds(s: Sys, spe: U64, t: nat, e: U64, clock: Clock, k: nat)
    requires spe > 0 && t < |s.threads| && s.threads[t].node < |s.value| == |s.memo|
  {
    var r := Alone(s, spe, t, clock, k);
    var v, th := r.value[r.threads[t].node], r.threads[t];
    && e <= v && r.shared >= s.shared && r.memo == s.memo
    && (k == 2 ==> th.phase == Merge)
    && (k == 3 ==> th.phase == Decide(v))
    && (k == 4 ==> (th.phase == Updated(v, false) && v <= r.memo[th.node]) || th.phase == Script(v))
  }

  lemma AloneToDecide(s: Sys, spe: U64, t: nat, e: U64, clock: Clock)
    requires spe > 0 && t < |s.threads| && s.threads[t].node < |s.value| == |s.memo|
    requires s.threads[t].phase == Offer(e) && e > 0 && !s.threads[t].seeding
    ensures Holds(s, spe, t, e, clock, 2) && Holds(s, spe, t, e, clock, 3) && Holds(s, spe, t, e, clock, 4)
  {
    AloneStep(s, spe, t, clock, 0);
    AloneStep(s, spe, t, clock, 1);
    AloneStep(s, spe, t, clock, 2);
    AloneStep(s, spe, t, clock, 3);
  }

  /** A seeding that is let run to its end takes over the shared epoch, if the clock finds it plausible. */
  lemma UndisturbedSeedTakesOver(n: nat, spe: U64, acts: seq<Step>, t: nat, clock: Clock)
    requires Runs(n, spe, acts) && t < |State(n, spe, acts).threads| && State(n, spe, acts).threads[t].phase.Get?
    ensures var s := State(n, spe, acts);
            && s.threads[t].node < |s.value|
            && var end := Alone(s, spe, t, clock, 4);
               && end.threads[t].phase == Seeded && end.shared == s.shared
               && (PlausibleEpoch(clock, spe, s.shared) ==> s.shared <= end.value[s.threads[t].node])
               && (!PlausibleEpoch(clock, spe, s.shared) ==> end.value == s.value)
  {
    Always(n, spe, acts);
    var s := State(n, spe, acts);
    assert ThreadOk(HistoryOf(n, spe, acts), s, s.threads[t]);
    assert s.memo[s.threads[t].node] <= s.shared;
    AloneStep(s, spe, t, clock, 0);
    AloneStep(s, spe, t, clock, 1);
    AloneStep(s, spe, t, clock, 2);
    AloneStep(s, spe, t, clock, 3);
  }

  /**
   An update that is let run to its end with Redis answering publishes: after six
   steps it has returned at least the epoch it offered, and the shared key holds
   what it returned.
   */
  lemma UndisturbedUpdatePublishes(n: nat, spe: U64, acts: seq<Step>, t: nat, clock: Clock)
    requires Runs(n, spe, acts) && t < |State(n, spe, acts).threads|
    requires State(n, spe, acts).threads[t].phase.Offer? && State(n, spe, acts).threads[t].phase.epoch > 0 && !State(n, spe, acts).threads[t].seeding
    ensures var s := State(n, spe, acts);
            && s.threads[t].node < |s.value|
            && var end := Alone(s, spe, t, clock, 6);
               && end.threads[t].phase.Updated?
               && s.threads[t].phase.epoch <= end.threads[t].phase.result <= end.shared
  {
    Always(n, spe, acts);
    var s := State(n, spe, acts);
    assert ThreadOk(HistoryOf(n, spe, acts), s, s.threads[t]);
    AloneToDecide(s, spe, t, s.threads[t].phase.epoch, clock);
    AloneStep(s, spe, t, clock, 4);
    AloneStep(s, spe, t, clock, 5);
    assert s.memo[s.threads[t].node] <= s.shared;
  }

  /** An update that skips its publish because of the memo loses nothing: the key is already there. */
  lemma SkippedPublishLosesNothing(n: nat, spe: U64, acts: seq<Step>, t: nat)
    requires Runs(n, spe, acts) && t < |State(n, spe, acts).threads| && State(n, spe, acts).threads[t].phase.Decide?
    ensures var s := State(n, spe, acts);
            var th := s.threads[t];
            && th.node < |s.memo|
            && (th.phase.merged <= s.memo[th.node] ==> th.phase.merged <= s.shared)
  {
    Always(n, spe, acts);
  }

  lemma {:induction false} PrefixRuns(n: nat, spe: U64, acts: seq<Step>, k: nat)
    requires Runs(n, spe, acts) && k <= |acts|
    ensures Runs(n, spe, acts[..k])
  {
    if k < |acts| {
      PrefixRuns(n, spe, acts[..|acts| - 1], k);
      assert acts[..|acts| - 1][..k] == acts[..k];
    } else {
      assert acts[..k] == acts;
    }
  }

  /** Pool values, memos and the shared key never decrease. */
  lemma {:induction false} NothingDecreases(n: nat, spe: U64, acts: seq<Step>, k: nat, i: nat)
    requires Runs(n, spe, acts) && k <= |acts| && i < n
    ensures Runs(n, spe, acts[..k])
    ensures var past, now := State(n, spe, acts[..k]), State(n, spe, acts);
            past.shared <= now.shared && past.value[i] <= now.value[i] && past.memo[i] <= now.memo[i]
  {
    PrefixRuns(n, spe, acts, k);
    if k < |acts| {
      var front := acts[..|acts| - 1];
      NothingDecreases(n, spe, front, k, i);
      assert front[..k] == acts[..k];
      StepGrows(HistoryOf(n, spe, front), State(n, spe, front), spe, acts[|acts| - 1]);
    } else {
      assert acts[..k] == acts;
    }
  }

  ghost predicate PassedTestsHold(h: History, spe: U64)
    requires spe > 0
  {
    forall t :: t in h.passed ==> PlausibleEpoch(t.clock, spe, t.epoch)
  }

  lemma {:induction false} TestsHold(n: nat, spe: U64, acts: seq<Step>)
    requires Runs(n, spe, acts)
    ensures PassedTestsHold(HistoryOf(n, spe, acts), spe)
  {
    if acts != [] {
      TestsHold(n, spe, acts[..|acts| - 1]);
    }
  }

  /** A pool's epoch starts no later than the wall-clock slot of some moment that pool accepted it at. */
  lemma PoolEpochHasStarted(n: nat, spe: U64, acts: seq<Step>, i: nat) returns (c: Clock)
    requires Runs(n, spe, acts) && i < n
    ensures var v := State(n, spe, acts).value[i];
            && (v == 0 || Test(i, v, c) in HistoryOf(n, spe, acts).passed)
            && (WallSlot(c).Some? ==> v * spe <= WallSlot(c).value)
  {
    Always(n, spe, acts);
    TestsHold(n, spe, acts);
    var h, v := HistoryOf(n, spe, acts), State(n, spe, acts).value[i];
    c := Clock(0, 0, 0);
    if v != 0 {
      assert IsMaximum(v, h.merged[i]) && Passed(h, i, v);
      c :| Test(i, v, c) in h.passed;
      PlausibleEpochStarted(c, spe, v);
    }
  }

  // ---------------------------------------------------------------------
  // The compare-and-swap loop as code
  // ---------------------------------------------------------------------

  class Pool {
    var finalizedEpoch: U64
    const spe: U64

    constructor (spe: U64)
      requires spe > 0
      ensures finalizedEpoch == 0 && this.spe == spe
    {
      finalizedEpoch := 0;
      this.spe := spe;
    }

    /** Other threads run: they can only raise the value. */
    method Interfere()
      modifies this
      ensures finalizedEpoch >= old(finalizedEpoch)
    {
      var raised: int := *;
      if finalizedEpoch < raised < TWO64 {
        finalizedEpoch := raised;
      }
    }

    method CompareAndSwap(expected: U64, replacement: U64) returns (swapped: bool)
      modifies this
      ensures swapped == (old(finalizedEpoch) == expected)
      ensures finalizedEpoch == if swapped then replacement else old(finalizedEpoch)
    {
      swapped := finalizedEpoch == expected;
      if swapped {
        finalizedEpoch := replacement;
      }
    }

    /**
     The merge loop ends however others interfere, because a failed swap means
     the value rose. `seen` is the highest value others had left before it ended.
     */
    method MergeEpoch(epoch: U64) returns (seen: U64)
      modifies this
      ensures old(finalizedEpoch) <= seen
      ensures finalizedEpoch == Max(seen, epoch)
    {
      seen := finalizedEpoch;
      while true
        invariant old(finalizedEpoch) <= seen == finalizedEpoch
        decreases TWO64 - finalizedEpoch
      {
        Interfere();
        var loaded := finalizedEpoch;
        seen := loaded;
        if epoch <= loaded {
          return;
        }
        Interfere();
        seen := finalizedEpoch;
        var swapped := CompareAndSwap(loaded, epoch);
        if swapped {
          return;
        }
      }
    }

    /** The value returned is the offered epoch merged with what others left if the clock allows it, else what others left alone. */
    method UpdateFinalizedEpoch(epoch: U64, clock: Clock) returns (merged: U64, ghost others: U64)
      requires spe > 0
      modifies this
      ensures old(finalizedEpoch) <= others && merged == finalizedEpoch
      ensures merged == if PlausibleEpoch(clock, spe, epoch) then Max(others, epoch) else others
    {
      others := finalizedEpoch;
      if PlausibleEpoch(clock, spe, epoch) {
        var seen := MergeEpoch(epoch);
        others := seen;
      }
      ghost var before := finalizedEpoch;
      Interfere();
      merged := finalizedEpoch;
      if merged > before {
        others := merged;
      }
    }
  }
}
