/**
 Responses cached forever, over every sequential run of fills, warm-ups, finality
 events, health probes, head events, reorganisations and reads.
 */
module Permanence {
  import opened Options
  import opened LruSpec
  import opened ForkTracker
  import opened Paths
  import opened Text
  import L = LruTheorems
  import CK = CacheKey
  import FE = FinalizedEpoch

  datatype Config = Config(network: string, spe: U64, genesis: int, secondsPerSlot: int, max: nat)

  /** Times are in nanoseconds. A warm-up fetches the response of a listed key again. */
  datatype Event =
    | Fill(now: int, request: CK.Request, body: string, policyTTL: int)
    | Warm(now: int, key: Key, body: string, policyTTL: int)
    | Finalized(now: int, epoch: U64)
    | Probe(now: int, epoch: U64)
    | HeadSeen(now: int)
    | Reorg(now: int, slot: U64)
    | Use(op: L.Op)

  datatype State = State(epoch: U64, ops: seq<L.Op>)

  function ClockAt(c: Config, now: int): Clock {
    Clock(now / SECOND, c.genesis, c.secondsPerSlot)
  }

  predicate Sound(c: Config) {
    c.max >= 1 && c.spe > 0
  }

  /** A clock past a known genesis, and no writes to the store but the ones below. */
  predicate Fits(c: Config, e: Event) {
    match e
    case Finalized(now, _) => 0 < c.genesis < now / SECOND
    case Probe(now, _) => 0 < c.genesis < now / SECOND
    case Use(op) => op.Get? || op.List? || op.Delete?
    case _ => true
  }

  /** The decoded path of a request; its key has the path as it was escaped. */
  function PathOf(r: CK.Request): string {
    Unescape(CK.Before(r.pathQuery, "?"))
  }

  /** A write into the store, with the path that decides how long it is kept. */
  datatype Write = Write(key: Key, path: string, body: string, policyTTL: int)

  /** The request that a warm-up makes of a key. */
  function Refetched(c: Config, parts: CK.Parts): CK.Request {
    CK.Request(c.network, "GET", parts.pathQuery, parts.binary, parts.scope)
  }

  /** A fill decides by the decoded path; a warm-up, for named slots only, by the path of the key. */
  function WriteOf(c: Config, e: Event): Option<Write> {
    match e
    case Fill(_, request, body, policyTTL) => Some(Write(CK.Build(request), PathOf(request), body, policyTTL))
    case Warm(_, key, body, policyTTL) =>
      (match CK.Parse(key)
       case Some(parts) =>
         if parts.verb == "GET" && HasNamedSlot(parts.path)
         then Some(Write(CK.Build(Refetched(c, parts)), parts.path, body, policyTTL))
         else None
       case None => None)
    case _ => None
  }

  function TTLOf(c: Config, epoch: U64, w: Write, now: int): int {
    EffectiveTTL(epoch, c.spe, c.genesis, c.secondsPerSlot, w.policyTTL, w.path, now / SECOND)
  }

  function Stored(c: Config, s: State, now: int, w: Write): State {
    s.(ops := s.ops + [L.Set(now, Entry(w.key, w.body, Expiry(TTLOf(c, s.epoch, w, now), now)))])
  }

  function Merged(c: Config, epoch: U64, now: int, offered: U64): U64
    requires Sound(c)
  {
    if FE.PlausibleEpoch(ClockAt(c, now), c.spe, offered) then FE.Max(epoch, offered) else epoch
  }

  function FinalKeys(c: Config, epoch: U64): Key -> bool {
    k => CK.OwnsKey(c.network, k) && CK.KeyPath(k) != "" && IsFinalized(CK.KeyPath(k), epoch, c.spe)
  }

  function HeadKeys(c: Config): Key -> bool {
    k => CK.OwnsKey(c.network, k) && HasNamedSlot(CK.KeyPath(k))
  }

  predicate Orphaned(path: string, slot: U64) {
    HasNamedSlot(path) || (NumericSlot(path).Some? && NumericSlot(path).value >= slot)
  }

  function ReorgKeys(c: Config, slot: U64): Key -> bool {
    k => CK.OwnsKey(c.network, k) && CK.KeyPath(k) != "" && Orphaned(CK.KeyPath(k), slot)
  }

  function Chosen(keys: seq<Key>, fn: Key -> bool): seq<Key> {
    if keys == [] then [] else (if fn(keys[0]) then [keys[0]] else []) + Chosen(keys[1..], fn)
  }

  function Deletions(keys: seq<Key>, now: int): seq<L.Op> {
    seq(|keys|, i requires 0 <= i < |keys| => L.Delete(now, keys[i]))
  }

  /** List everything, then delete the chosen keys one by one. */
  ghost function PurgeOps(c: Config, ops: seq<L.Op>, now: int, fn: Key -> bool): seq<L.Op>
    requires Sound(c)
  {
    var listed := ops + [L.List(now, 0)];
    listed + Deletions(Chosen(KeysOf(L.Run(c.max, listed)), fn), now)
  }

  ghost function After(c: Config, s: State, e: Event): State
    requires Sound(c)
  {
    match e
    case Fill(now, _, _, _) => Stored(c, s, now, WriteOf(c, e).value)
    case Warm(now, _, _, _) => if WriteOf(c, e).Some? then Stored(c, s, now, WriteOf(c, e).value) else s
    case Finalized(now, offered) =>
      if offered == 0 then s
      else
        var epoch := Merged(c, s.epoch, now, offered);
        State(epoch, if epoch == 0 then s.ops else s.ops + [L.Promote(now, FinalKeys(c, epoch))])
    case Probe(now, offered) => s.(epoch := Merged(c, s.epoch, now, offered))
    case HeadSeen(now) => s.(ops := PurgeOps(c, s.ops, now, HeadKeys(c)))
    case Reorg(now, slot) => if slot == 0 then s else s.(ops := PurgeOps(c, s.ops, now, ReorgKeys(c, slot)))
    case Use(op) => s.(ops := s.ops + [op])
  }

  ghost function Exec(c: Config, es: seq<Event>): State
    requires Sound(c)
  {
    if es == [] then State(0, []) else After(c, Exec(c, es[..|es| - 1]), es[|es| - 1])
  }

  ghost predicate Runs(c: Config, es: seq<Event>) {
    Sound(c) && forall i :: 0 <= i < |es| ==> Fits(c, es[i])
  }

  ghost function StoreAfter(c: Config, es: seq<Event>): seq<Entry>
    requires Sound(c)
  {
    L.Run(c.max, Exec(c, es).ops)
  }

  // ---------------------------------------------------------------------
  // The epoch never runs ahead of the clock
  // ---------------------------------------------------------------------

  /** Some event offered this epoch at a time the wall clock, with its ten minutes of tolerance, had reached its first slot. */
  ghost predicate StartedAt(c: Config, es: seq<Event>, epoch: U64, i: int) {
    && 0 <= i < |es|
    && (es[i].Finalized? || es[i].Probe?)
    && es[i].epoch == epoch
    && WallSlot(ClockAt(c, es[i].now)).Some?
    && epoch * c.spe <= WallSlot(ClockAt(c, es[i].now)).value
  }

  lemma MergedStarted(c: Config, s: State, e: Event)
    requires Sound(c) && Fits(c, e) && (e.Finalized? || e.Probe?)
    ensures var m := Merged(c, s.epoch, e.now, e.epoch);
            s.epoch <= m && (m == s.epoch || StartedAt(c, [e], m, 0))
  {
    FE.PlausibleEpochStarted(ClockAt(c, e.now), c.spe, e.epoch);
  }

  /** The finalized epoch is 0 or was offered when its first slot had begun by the wall clock with its tolerance. */
  lemma {:induction false} EpochHasStarted(c: Config, es: seq<Event>)
    requires Runs(c, es)
    ensures Exec(c, es).epoch == 0 || exists i :: StartedAt(c, es, Exec(c, es).epoch, i)
  {
    if es != [] {
      var front, e := es[..|es| - 1], es[|es| - 1];
      EpochHasStarted(c, front);
      var s, epoch := Exec(c, front), Exec(c, es).epoch;
      if e.Finalized? || e.Probe? {
        MergedStarted(c, s, e);
      }
      if epoch == s.epoch {
        if epoch != 0 {
          var i :| StartedAt(c, front, epoch, i);
          assert StartedAt(c, es, epoch, i);
        }
      } else {
        assert StartedAt(c, es, epoch, |es| - 1);
      }
    }
  }

  lemma {:induction false} EpochNeverDecreases(c: Config, es: seq<Event>, k: nat)
    requires Runs(c, es) && k <= |es|
    ensures Exec(c, es[..k]).epoch <= Exec(c, es).epoch
  {
    if k == |es| {
      assert es[..k] == es;
    } else {
      var front, e := es[..|es| - 1], es[|es| - 1];
      assert front[..k] == es[..k];
      EpochNeverDecreases(c, front, k);
      if e.Finalized? || e.Probe? {
        MergedStarted(c, Exec(c, front), e);
      }
    }
  }

  /** And no accepted epoch is lost: the epoch is at least every one offered once the clock had reached it. */
  lemma AcceptedEpochsCount(c: Config, es: seq<Event>, epoch: U64, i: int)
    requires Runs(c, es) && StartedAt(c, es, epoch, i)
    ensures epoch <= Exec(c, es).epoch
  {
    var until := es[..i + 1];
    assert until[..i] == es[..i] && until[i] == es[i];
    FE.PlausibleEpochStarted(ClockAt(c, es[i].now), c.spe, epoch);
    assert epoch <= Exec(c, until).epoch;
    EpochNeverDecreases(c, es, i + 1);
  }

  /** Unix times below 2^63 seconds, so that slots fit in 64 bits. */
  ghost predicate ClockFits(es: seq<Event>) {
    forall i :: 0 <= i < |es| && (es[i].Finalized? || es[i].Probe?) ==> es[i].now / SECOND < 0x8000_0000_0000_0000
  }

  lemma WallSlotFits(k: Clock)
    requires 0 < k.genesis < k.now < 0x8000_0000_0000_0000
    ensures WallSlot(k).value < TWO64
  {
    var slotSeconds := if k.secondsPerSlot <= 0 then DEFAULT_SECONDS_PER_SLOT else k.secondsPerSlot;
    var elapsed := k.now - k.genesis + CLOCK_SKEW_SECONDS;
    FE.Quotient(elapsed, slotSeconds, TWO64);
    assert TWO64 <= TWO64 * slotSeconds;
  }

  lemma EpochFits(c: Config, es: seq<Event>)
    requires Runs(c, es) && ClockFits(es)
    ensures Exec(c, es).epoch * c.spe < TWO64
  {
    EpochHasStarted(c, es);
    var epoch := Exec(c, es).epoch;
    if epoch != 0 {
      var i :| StartedAt(c, es, epoch, i);
      WallSlotFits(ClockAt(c, es[i].now));
    }
  }

  // ---------------------------------------------------------------------
  // Permanent entries
  // ---------------------------------------------------------------------

  predicate Writes(c: Config, e: Event, k: Key) {
    WriteOf(c, e).Some? && WriteOf(c, e).value.key == k
  }

  /** Some response stored under this key was for a path that is final now. */
  ghost predicate FilledFinal(c: Config, es: seq<Event>, k: Key, epoch: U64) {
    exists i :: 0 <= i < |es| && Writes(c, es[i], k) && IsFinalized(WriteOf(c, es[i]).value.path, epoch, c.spe)
  }

  /** Some response was stored under this key by a policy that keeps forever. */
  ghost predicate FilledForever(c: Config, es: seq<Event>, k: Key) {
    exists i :: 0 <= i < |es| && Writes(c, es[i], k) && WriteOf(c, es[i]).value.policyTTL <= 0
  }

  ghost predicate Justified(c: Config, es: seq<Event>, k: Key, epoch: U64) {
    IsFinalized(CK.KeyPath(k), epoch, c.spe) || FilledFinal(c, es, k, epoch) || FilledForever(c, es, k)
  }

  ghost predicate Permanent(m: map<Key, Entry>, k: Key) {
    k in m && m[k].expires.None?
  }

  ghost predicate AllJustified(c: Config, es: seq<Event>, s: State) {
    forall k :: Permanent(L.Reference(s.ops), k) ==> Justified(c, es, k, s.epoch)
  }

  lemma JustifiedLater(c: Config, es: seq<Event>, e: Event, k: Key, epoch: U64, later: U64)
    requires epoch <= later && later * c.spe < TWO64
    ensures Justified(c, es, k, epoch) ==> Justified(c, es + [e], k, later)
  {
    if IsFinalized(CK.KeyPath(k), epoch, c.spe) {
      FinalityGrows(CK.KeyPath(k), epoch, later, c.spe);
    } else if FilledFinal(c, es, k, epoch) {
      var i :| 0 <= i < |es| && Writes(c, es[i], k) && IsFinalized(WriteOf(c, es[i]).value.path, epoch, c.spe);
      FinalityGrows(WriteOf(c, es[i]).value.path, epoch, later, c.spe);
      assert (es + [e])[i] == es[i];
    } else if FilledForever(c, es, k) {
      var i :| 0 <= i < |es| && Writes(c, es[i], k) && WriteOf(c, es[i]).value.policyTTL <= 0;
      assert (es + [e])[i] == es[i];
    }
  }

  lemma ReferenceSnoc(ops: seq<L.Op>, op: L.Op)
    ensures (ops + [op])[..|ops + [op]| - 1] == ops && (ops + [op])[|ops + [op]| - 1] == op
  {
  }

  /** Deleting only removes. */
  lemma {:induction false} DeletionsRemove(ops: seq<L.Op>, keys: seq<Key>, now: int, k: Key)
    ensures Permanent(L.Reference(ops + Deletions(keys, now)), k) ==> Permanent(L.Reference(ops), k)
  {
    var all := ops + Deletions(keys, now);
    if keys == [] {
      assert all == ops;
    } else {
      var front := keys[..|keys| - 1];
      assert all[..|all| - 1] == ops + Deletions(front, now) && all[|all| - 1] == L.Delete(now, keys[|keys| - 1]);
      DeletionsRemove(ops, front, now, k);
    }
  }

  lemma PurgeRemoves(c: Config, ops: seq<L.Op>, now: int, fn: Key -> bool, k: Key)
    requires Sound(c)
    ensures Permanent(L.Reference(PurgeOps(c, ops, now, fn)), k) ==> Permanent(L.Reference(ops), k)
  {
    var listed := ops + [L.List(now, 0)];
    DeletionsRemove(listed, Chosen(KeysOf(L.Run(c.max, listed)), fn), now, k);
    ReferenceSnoc(ops, L.List(now, 0));
  }

  lemma FillJustifies(c: Config, es: seq<Event>, s: State, e: Event, k: Key)
    requires Sound(c) && (e.Fill? || e.Warm?)
    requires Permanent(L.Reference(After(c, s, e).ops), k) && !Permanent(L.Reference(s.ops), k)
    ensures FilledFinal(c, es + [e], k, s.epoch) || FilledForever(c, es + [e], k)
  {
    var w := WriteOf(c, e).value;
    StoredPermanent(c, s, e.now, w, k);
    if w.policyTTL > 0 {
      ForeverExactlyIfFinal(s.epoch, c.spe, c.genesis, c.secondsPerSlot, w.policyTTL, w.path, e.now / SECOND);
    }
    assert (es + [e])[|es|] == e && Writes(c, e, k);
  }

  lemma StoredPermanent(c: Config, s: State, now: int, w: Write, k: Key)
    requires Permanent(L.Reference(Stored(c, s, now, w).ops), k) && !Permanent(L.Reference(s.ops), k)
    ensures k == w.key && TTLOf(c, s.epoch, w, now) <= 0
  {
    var entry := Entry(w.key, w.body, Expiry(TTLOf(c, s.epoch, w, now), now));
    ReferenceSnoc(s.ops, L.Set(now, entry));
    assert L.Reference(s.ops + [L.Set(now, entry)]) == L.Reference(s.ops)[entry.key := entry];
  }

  lemma PromotionJustifies(ops: seq<L.Op>, now: int, fn: Key -> bool, k: Key)
    requires Permanent(L.Reference(ops + [L.Promote(now, fn)]), k) && !Permanent(L.Reference(ops), k)
    ensures fn(k)
  {
    var all := ops + [L.Promote(now, fn)];
    ReferenceSnoc(ops, L.Promote(now, fn));
    L.ReferenceKeyed(ops, k);
    assert k in L.Reference(ops) && L.Reference(all)[k] == PromotedEntry(L.Reference(ops)[k], now, fn);
  }

  /** What an event can make permanent, it justifies. */
  lemma NewlyPermanent(c: Config, es: seq<Event>, s: State, e: Event, k: Key)
    requires Sound(c) && Fits(c, e)
    requires Permanent(L.Reference(After(c, s, e).ops), k) && !Permanent(L.Reference(s.ops), k)
    ensures Justified(c, es + [e], k, After(c, s, e).epoch)
  {
    match e
    case Fill(_, _, _, _) => FillJustifies(c, es, s, e, k);
    case Warm(_, _, _, _) => FillJustifies(c, es, s, e, k);
    case Finalized(now, _) => PromotionJustifies(s.ops, now, FinalKeys(c, After(c, s, e).epoch), k);
    case Probe(_, _) =>
    case HeadSeen(now) => PurgeRemoves(c, s.ops, now, HeadKeys(c), k);
    case Reorg(now, slot) => PurgeRemoves(c, s.ops, now, ReorgKeys(c, slot), k);
    case Use(op) => ReferenceSnoc(s.ops, op);
  }

  lemma {:induction false} AlwaysJustified(c: Config, es: seq<Event>)
    requires Runs(c, es) && ClockFits(es)
    ensures AllJustified(c, es, Exec(c, es))
  {
    if es != [] {
      var front, e := es[..|es| - 1], es[|es| - 1];
      assert es == front + [e];
      AlwaysJustified(c, front);
      var s, t := Exec(c, front), Exec(c, es);
      EpochFits(c, es);
      EpochNeverDecreases(c, es, |front|);
      forall k | Permanent(L.Reference(t.ops), k) ensures Justified(c, es, k, t.epoch) {
        if Permanent(L.Reference(s.ops), k) {
          JustifiedLater(c, front, e, k, s.epoch, t.epoch);
        } else {
          NewlyPermanent(c, front, s, e, k);
        }
      }
    }
  }

  ghost predicate KeptForever(c: Config, es: seq<Event>, k: Key)
    requires Sound(c)
  {
    Find(StoreAfter(c, es), k).Some? && Find(StoreAfter(c, es), k).value.expires.None?
  }

  /** A never-expiring entry of the store is for a path fixed by the current finalized epoch, or was stored under a policy that keeps forever. */
  lemma PermanentEntriesAreFinal(c: Config, es: seq<Event>, k: Key)
    requires Runs(c, es) && ClockFits(es)
    ensures KeptForever(c, es, k) ==> Justified(c, es, k, Exec(c, es).epoch)
  {
    AlwaysJustified(c, es);
    L.StoreRefinesMap(c.max, Exec(c, es).ops, k);
    assert KeptForever(c, es, k) ==> Permanent(L.Reference(Exec(c, es).ops), k);
  }

  // ---------------------------------------------------------------------
  // Requests whose path is written as it is in their key
  // ---------------------------------------------------------------------

  /** The path needs no escaping; it may hold anything else, key separators included. */
  ghost predicate PlainRequest(c: Config, e: Event)
    requires e.Fill? || e.Warm?
  {
    if e.Fill? then CK.ColonFree(e.request) && Free(CK.Before(e.request.pathQuery, "?"), '%') else CK.NoColon(c.network)
  }

  /** What was stored under one key: by policies that expire, for plain requests. Other keys may hold anything. */
  ghost predicate PlainWrites(c: Config, es: seq<Event>, k: Key) {
    forall i :: 0 <= i < |es| && Writes(c, es[i], k) ==> WriteOf(c, es[i]).value.policyTTL > 0 && PlainRequest(c, es[i])
  }

  lemma PlainWriteCuts(c: Config, e: Event, k: Key)
    requires Writes(c, e, k) && PlainRequest(c, e)
    ensures CutAtColon(CK.KeyPath(k), WriteOf(c, e).value.path)
  {
    if e.Fill? {
      CK.KeyPathCut(e.request);
      UnescapePlain(CK.Before(e.request.pathQuery, "?"));
    } else {
      CK.KeyPathCut(Refetched(c, CK.Parse(e.key).value));
    }
  }

  /** Then the path of an entry's key is a cut of a path it was filled for. */
  lemma PlainJustified(c: Config, es: seq<Event>, k: Key, epoch: U64)
    requires PlainWrites(c, es, k)
    ensures Justified(c, es, k, epoch) ==>
              exists path :: CutAtColon(CK.KeyPath(k), path) && IsFinalized(path, epoch, c.spe)
  {
    if FilledFinal(c, es, k, epoch) {
      var i :| 0 <= i < |es| && Writes(c, es[i], k) && IsFinalized(WriteOf(c, es[i]).value.path, epoch, c.spe);
      PlainWriteCuts(c, es[i], k);
    } else if IsFinalized(CK.KeyPath(k), epoch, c.spe) {
      assert CutAtColon(CK.KeyPath(k), CK.KeyPath(k));
    }
  }

  lemma PlainPermanentIsFinal(c: Config, es: seq<Event>, k: Key)
    requires Runs(c, es) && ClockFits(es) && PlainWrites(c, es, k)
    ensures KeptForever(c, es, k) ==>
              exists path :: CutAtColon(CK.KeyPath(k), path) && IsFinalized(path, Exec(c, es).epoch, c.spe)
  {
    PermanentEntriesAreFinal(c, es, k);
    PlainJustified(c, es, k, Exec(c, es).epoch);
  }

  /** At or before the epoch's first slot or, for a payload envelope, before the first slot of the epoch preceding it. */
  ghost predicate SlotFixed(path: string, epoch: int, spe: int) {
    && NumericSlot(path).Some?
    && if IsPayloadEnvelope(path) then NumericSlot(path).value < (epoch - 1) * spe else NumericSlot(path).value <= epoch * spe
  }

  lemma FinalizedIsFixed(cut: string, path: string, epoch: U64, spe: U64)
    requires epoch * spe < TWO64 && CutAtColon(cut, path) && IsFinalized(path, epoch, spe)
    ensures NumericSlot(cut).Some? ==> SlotFixed(cut, epoch, spe)
  {
    if NumericSlot(cut).Some? {
      CutNumeric(cut, path, epoch, spe);
      FinalizedSlotIs(path, epoch, spe);
    }
  }

  /**
   A permanent entry for a numeric slot has its slot fixed by the finalized
   epoch, which had begun by the wall clock, with its tolerance, when it was accepted.
   */
  lemma PermanentSlotsAreFinal(c: Config, es: seq<Event>, k: Key)
    requires Runs(c, es) && ClockFits(es) && PlainWrites(c, es, k)
    ensures KeptForever(c, es, k) && NumericSlot(CK.KeyPath(k)).Some? ==>
              SlotFixed(CK.KeyPath(k), Exec(c, es).epoch, c.spe) && exists i :: StartedAt(c, es, Exec(c, es).epoch, i)
  {
    PlainPermanentIsFinal(c, es, k);
    EpochFits(c, es);
    EpochHasStarted(c, es);
    if KeptForever(c, es, k) {
      var path :| CutAtColon(CK.KeyPath(k), path) && IsFinalized(path, Exec(c, es).epoch, c.spe);
      FinalizedIsFixed(CK.KeyPath(k), path, Exec(c, es).epoch, c.spe);
    }
  }

  /** An entry for head, finalized or justified is never permanent. */
  lemma NamedNeverPermanent(c: Config, es: seq<Event>, k: Key)
    requires Runs(c, es) && ClockFits(es) && PlainWrites(c, es, k)
    ensures HasNamedSlot(CK.KeyPath(k)) ==> !KeptForever(c, es, k)
  {
    PlainPermanentIsFinal(c, es, k);
    if HasNamedSlot(CK.KeyPath(k)) {
      forall path | CutAtColon(CK.KeyPath(k), path) ensures !IsFinalized(path, Exec(c, es).epoch, c.spe) {
        CutNamed(CK.KeyPath(k), path, Exec(c, es).epoch, c.spe);
      }
    }
  }

  // ---------------------------------------------------------------------
  // Escaped paths
  // ---------------------------------------------------------------------

  /** The segments that an escaped path writes as one, with %2F between them. */
  const HIDDEN: seq<string> := ["v1", "beacon", "blocks", "5"]

  /** Taken apart as it is written, it names the head. */
  function Escaped(hidden: string): seq<string> {
    ["eth", hidden, "beacon", "headers", "head"]
  }

  /** The same path decoded: block 5. */
  const DECODED: seq<string> := ["eth", "v1", "beacon", "blocks", "5", "beacon", "headers", "head"]

  lemma {:induction false} HiddenFree(segments: seq<string>, c: char)
    requires c !in "%2F" && forall k :: 0 <= k < |segments| ==> Free(segments[k], c)
    ensures Free(HideSlashes(segments), c)
  {
    if |segments| == 1 {
      assert Free(segments[0], c);
    } else if |segments| > 1 {
      assert Free(segments[0], c);
      HiddenFree(segments[1..], c);
    }
  }

  lemma HiddenIs() returns (hidden: string)
    ensures hidden == HideSlashes(HIDDEN) && |hidden| >= 2 && hidden[0] == 'v'
    ensures Free(hidden, '/') && Free(hidden, ':') && Free(hidden, '?')
  {
    hidden := HideSlashes(HIDDEN);
    HiddenFree(HIDDEN, '/');
    HiddenFree(HIDDEN, ':');
    HiddenFree(HIDDEN, '?');
    assert hidden == "v1" + "%2F" + HideSlashes(HIDDEN[1..]);
  }

  lemma EscapedIsNamed(hidden: string)
    requires |hidden| >= 2 && hidden[0] == 'v' && Free(hidden, '/')
    ensures HasNamedSlot("/" + Join(Escaped(hidden), '/'))
  {
    var segments := Escaped(hidden);
    assert forall k :: 0 <= k < |segments| ==> segments[k] != "" && Free(segments[k], '/');
    SegmentsOf(segments);
  }

  lemma EscapedIsPlain(hidden: string)
    requires Free(hidden, ':') && Free(hidden, '?')
    ensures Free("/" + Join(Escaped(hidden), '/'), ':') && Free("/" + Join(Escaped(hidden), '/'), '?')
  {
    var segments := Escaped(hidden);
    assert forall k :: 0 <= k < |segments| ==> Free(segments[k], ':') && Free(segments[k], '?');
    JoinFree(segments);
  }

  lemma RootedDecodes(path: string)
    ensures Unescape("/" + path) == "/" + Unescape(path)
  {
    assert ("/" + path)[1..] == path;
  }

  /** A segment that hides slashes decodes to several, whatever surrounds it. */
  lemma HiddenDecodes(first: string, hidden: seq<string>, rest: seq<string>)
    requires hidden != [] && rest != [] && Free(first, '%')
    requires forall k :: 0 <= k < |hidden| ==> Free(hidden[k], '%')
    requires forall k :: 0 <= k < |rest| ==> Free(rest[k], '%')
    ensures Unescape("/" + Join([first, HideSlashes(hidden)] + rest, '/')) == "/" + Join([first] + hidden + rest, '/')
  {
    var written, decoded := [first, HideSlashes(hidden)] + rest, [first, Join(hidden, '/')] + rest;
    UnescapePlain(first);
    UnescapeHidden(hidden);
    forall k | 0 <= k < |rest| ensures Unescape(rest[k]) == rest[k] {
      UnescapePlain(rest[k]);
    }
    UnescapeJoin(written, decoded);
    JoinNested(first, hidden, rest, '/');
    RootedDecodes(Join(written, '/'));
  }

  const TAIL: seq<string> := ["beacon", "headers", "head"]

  lemma SegmentsPlain()
    ensures Free("eth", '%')
    ensures forall k :: 0 <= k < |HIDDEN| ==> Free(HIDDEN[k], '%')
    ensures forall k :: 0 <= k < |TAIL| ==> Free(TAIL[k], '%')
  {
  }

  lemma SegmentsAre(hidden: string)
    ensures ["eth", hidden] + TAIL == Escaped(hidden) && ["eth"] + HIDDEN + TAIL == DECODED
  {
  }

  lemma EscapedDecodes()
    ensures Unescape("/" + Join(Escaped(HideSlashes(HIDDEN)), '/')) == "/" + Join(DECODED, '/')
  {
    SegmentsPlain();
    HiddenDecodes("eth", HIDDEN, TAIL);
    SegmentsAre(HideSlashes(HIDDEN));
  }

  lemma DecodedSegments()
    ensures Segments("/" + Join(DECODED, '/')) == DECODED
  {
    assert forall k :: 0 <= k < |DECODED| ==> DECODED[k] != "" && Free(DECODED[k], '/');
    SegmentsOf(DECODED);
  }

  lemma DecodedIsFinal(epoch: U64, spe: U64)
    requires 5 <= epoch * spe < TWO64
    ensures IsFinalized("/" + Join(DECODED, '/'), epoch, spe)
  {
    var path := "/" + Join(DECODED, '/');
    DecodedSegments();
    assert SlotNumber("5") == Some(5);
    FinalizedSlotIs(path, epoch, spe);
  }

  /**
   A fill decides by the decoded path; the path of its key is the escaped one, up
   to one of its colons, and all of it if it holds no separator.
   */
  lemma KeptUnderName(c: Config, es: seq<Event>, e: Event)
    requires Sound(c) && e.Fill? && e.policyTTL > 0 && CK.ColonFree(e.request)
    ensures var k, escaped := CK.Build(e.request), CK.Before(e.request.pathQuery, "?");
            && (KeptForever(c, es + [e], k) <==> IsFinalized(Unescape(escaped), Exec(c, es).epoch, c.spe))
            && CutAtColon(CK.KeyPath(k), escaped)
            && (CK.Separated(e.request) ==> CK.KeyPath(k) == escaped)
  {
    FillsKeptForever(c, es, e);
    CK.KeyPathCut(e.request);
    if CK.Separated(e.request) {
      CK.KeyPathWhole(e.request);
    }
  }

  lemma EscapedPath(epoch: U64, spe: U64) returns (escaped: string)
    requires 5 <= epoch * spe < TWO64
    ensures HasNamedSlot(escaped) && Free(escaped, ':') && Free(escaped, '?') && escaped != ""
    ensures IsFinalized(Unescape(escaped), epoch, spe)
  {
    var hidden := HiddenIs();
    escaped := "/" + Join(Escaped(hidden), '/');
    EscapedIsNamed(hidden);
    EscapedIsPlain(hidden);
    EscapedDecodes();
    DecodedIsFinal(epoch, spe);
  }

  /** So once block 5 is final, some fill is kept forever under a key whose path names the head. */
  lemma EscapedNameKeptForever(c: Config, es: seq<Event>) returns (e: Event)
    requires Sound(c) && 5 <= Exec(c, es).epoch * c.spe < TWO64
    ensures e.Fill? && e.policyTTL > 0
    ensures HasNamedSlot(CK.KeyPath(CK.Build(e.request))) && KeptForever(c, es + [e], CK.Build(e.request))
  {
    var escaped := EscapedPath(Exec(c, es).epoch, c.spe);
    e := Fill(0, CK.Request("n", "GET", escaped, false, ""), "", 1);
    CK.PlainText(escaped);
    CK.KeyPathWhole(e.request);
    FillsKeptForever(c, es, e);
  }

  lemma {:induction false} JoinFree(segments: seq<string>)
    requires forall k :: 0 <= k < |segments| ==> Free(segments[k], ':') && Free(segments[k], '?')
    ensures Free(Join(segments, '/'), ':') && Free(Join(segments, '/'), '?')
  {
    if |segments| == 1 {
      assert Free(segments[0], ':') && Free(segments[0], '?');
    } else if |segments| > 1 {
      assert Free(segments[0], ':') && Free(segments[0], '?');
      JoinFree(segments[1..]);
    }
  }

  // ---------------------------------------------------------------------
  // Final responses are kept
  // ---------------------------------------------------------------------

  lemma ExecSnoc(c: Config, es: seq<Event>, e: Event)
    requires Sound(c)
    ensures Exec(c, es + [e]) == After(c, Exec(c, es), e)
  {
    assert (es + [e])[..|es|] == es;
  }

  lemma StoredIsFound(c: Config, es: seq<Event>, e: Event)
    requires Sound(c) && WriteOf(c, e).Some?
    ensures var w := WriteOf(c, e).value;
            Find(StoreAfter(c, es + [e]), w.key) ==
            Some(Entry(w.key, w.body, Expiry(TTLOf(c, Exec(c, es).epoch, w, e.now), e.now)))
  {
    var s, w := Exec(c, es), WriteOf(c, e).value;
    ExecSnoc(c, es, e);
    var op := L.Set(e.now, Entry(w.key, w.body, Expiry(TTLOf(c, s.epoch, w, e.now), e.now)));
    ReferenceSnoc(s.ops, op);
    assert Exec(c, es + [e]).ops == s.ops + [op];
  }

  /** A response is kept forever exactly if its path is final by then or its policy keeps forever. */
  lemma FillsKeptForever(c: Config, es: seq<Event>, e: Event)
    requires Sound(c) && WriteOf(c, e).Some?
    ensures var w := WriteOf(c, e).value;
            KeptForever(c, es + [e], w.key) <==> w.policyTTL <= 0 || IsFinalized(w.path, Exec(c, es).epoch, c.spe)
  {
    var epoch, w := Exec(c, es).epoch, WriteOf(c, e).value;
    StoredIsFound(c, es, e);
    if w.policyTTL > 0 {
      ForeverExactlyIfFinal(epoch, c.spe, c.genesis, c.secondsPerSlot, w.policyTTL, w.path, e.now / SECOND);
    }
  }

  /**
   What a fill or a warm-up stores for a named slot expires by the end of the slot
   exactly if it falls on a whole second or its policy ends by then, and always
   within a second of it.
   */
  lemma NamedFillExpires(c: Config, es: seq<Event>, e: Event)
    requires Sound(c) && c.genesis != 0 && WriteOf(c, e).Some?
    requires WriteOf(c, e).value.policyTTL > 0 && HasNamedSlot(WriteOf(c, e).value.path)
    ensures var entry := Find(StoreAfter(c, es + [e]), WriteOf(c, e).value.key);
            var end := NextSlot(c.genesis, c.secondsPerSlot, e.now / SECOND) * SECOND;
            && entry.Some?
            && entry.value.expires.Some?
            && (entry.value.expires.value <= end <==> e.now % SECOND == 0 || e.now + e.policyTTL <= end)
            && e.now < entry.value.expires.value < end + SECOND
  {
    StoredIsFound(c, es, e);
    NamedExpiry(Exec(c, es).epoch, c.spe, c.genesis, c.secondsPerSlot, e.policyTTL, WriteOf(c, e).value.path, e.now);
  }

  /** A finality event drops what has expired and makes permanent exactly the network's live entries that are final now. */
  lemma FinalityPromotes(c: Config, es: seq<Event>, now: int, offered: U64, k: Key)
    requires Sound(c) && offered != 0 && Merged(c, Exec(c, es).epoch, now, offered) != 0
    ensures var epoch := Merged(c, Exec(c, es).epoch, now, offered);
            Find(StoreAfter(c, es + [Finalized(now, offered)]), k) ==
            match Got(StoreAfter(c, es), k, now)
            case None => None
            case Some(e) => Some(if FinalKeys(c, epoch)(k) then e.(expires := None) else e)
  {
    var s, epoch := Exec(c, es), Merged(c, Exec(c, es).epoch, now, offered);
    var op := L.Promote(now, FinalKeys(c, epoch));
    assert Exec(c, es + [Finalized(now, offered)]).ops == s.ops + [op] by {
      ExecSnoc(c, es, Finalized(now, offered));
    }
    ReferenceSnoc(s.ops, op);
    L.Bounded(c.max, s.ops);
    PromoteFinds(L.Run(c.max, s.ops), now, FinalKeys(c, epoch), k);
  }

  /** The keys of other networks are left alone; this network's are chosen by the path in them. */
  lemma ChosenKeys(c: Config, r: CK.Request, epoch: U64, slot: U64)
    requires CK.ColonFree(r) && CK.NoColon(c.network) && CK.KeyPath(CK.Build(r)) != ""
    ensures var k, path := CK.Build(r), CK.KeyPath(CK.Build(r));
            && (HeadKeys(c)(k) <==> r.network == c.network && HasNamedSlot(path))
            && (FinalKeys(c, epoch)(k) <==> r.network == c.network && IsFinalized(path, epoch, c.spe))
            && (ReorgKeys(c, slot)(k) <==>
                r.network == c.network && (HasNamedSlot(path) || (NumericSlot(path).Some? && slot <= NumericSlot(path).value)))
  {
    CK.OwnsExactlyItsKeys(c.network, r);
  }

  /** A warm-up stores nothing but responses to reads of named slots, under its own network; slot and epoch 0 are ignored. */
  lemma IgnoredEvents(c: Config, es: seq<Event>, now: int, key: Key, body: string, policyTTL: int)
    requires Sound(c)
    ensures Exec(c, es + [Finalized(now, 0)]) == Exec(c, es) && Exec(c, es + [Reorg(now, 0)]) == Exec(c, es)
    ensures Exec(c, es + [Warm(now, key, body, policyTTL)]) != Exec(c, es) ==>
              && HasNamedSlot(CK.KeyPath(key))
              && CK.Parse(key).Some? && CK.Parse(key).value.verb == "GET"
  {
    ExecSnoc(c, es, Finalized(now, 0));
    ExecSnoc(c, es, Reorg(now, 0));
    ExecSnoc(c, es, Warm(now, key, body, policyTTL));
  }

  // ---------------------------------------------------------------------
  // What head events and reorganisations remove
  // ---------------------------------------------------------------------

  lemma {:induction false} ChosenIs(keys: seq<Key>, fn: Key -> bool, k: Key)
    ensures k in Chosen(keys, fn) <==> k in keys && fn(k)
  {
    if keys != [] {
      ChosenIs(keys[1..], fn, k);
    }
  }

  lemma {:induction false} DeletionsRun(max: nat, ops: seq<L.Op>, keys: seq<Key>, now: int, k: Key)
    requires max >= 1
    ensures var r := Find(L.Run(max, ops + Deletions(keys, now)), k);
            r == if k in keys then None else Find(L.Run(max, ops), k)
  {
    var all := ops + Deletions(keys, now);
    if keys == [] {
      assert all == ops;
    } else {
      var front, last := keys[..|keys| - 1], keys[|keys| - 1];
      assert keys == front + [last];
      assert all[..|all| - 1] == ops + Deletions(front, now) && all[|all| - 1] == L.Delete(now, last);
      DeletionsRun(max, ops, front, now, k);
      var before := L.Run(max, ops + Deletions(front, now));
      assert L.Run(max, all) == Without(before, last);
      L.FindWithout(before, last, k);
    }
  }

  /** After a purge nothing chosen is left, and everything live that was not chosen is. */
  lemma PurgeLeaves(c: Config, ops: seq<L.Op>, now: int, fn: Key -> bool, k: Key)
    requires Sound(c)
    ensures Find(L.Run(c.max, PurgeOps(c, ops, now, fn)), k) ==
            if fn(k) then None else Got(L.Run(c.max, ops), k, now)
  {
    var listed := ops + [L.List(now, 0)];
    var left := L.Run(c.max, listed);
    ReferenceSnoc(ops, L.List(now, 0));
    L.Bounded(c.max, ops);
    ListFinds(L.Run(c.max, ops), now, 0, k);
    ChosenIs(KeysOf(left), fn, k);
    KeysOfIs(left, k);
    DeletionsRun(c.max, listed, Chosen(KeysOf(left), fn), now, k);
  }

  lemma PurgingEvent(c: Config, es: seq<Event>, e: Event, now: int, fn: Key -> bool, k: Key)
    requires Sound(c) && Exec(c, es + [e]).ops == PurgeOps(c, Exec(c, es).ops, now, fn)
    ensures Find(StoreAfter(c, es + [e]), k) == if fn(k) then None else Got(StoreAfter(c, es), k, now)
  {
    PurgeLeaves(c, Exec(c, es).ops, now, fn, k);
  }

  /** A head event leaves none of the network's named entries and every other live entry as it was. */
  lemma HeadEventPurges(c: Config, es: seq<Event>, now: int, k: Key)
    requires Sound(c)
    ensures Find(StoreAfter(c, es + [HeadSeen(now)]), k) ==
            if HeadKeys(c)(k) then None else Got(StoreAfter(c, es), k, now)
  {
    ExecSnoc(c, es, HeadSeen(now));
    PurgingEvent(c, es, HeadSeen(now), now, HeadKeys(c), k);
  }

  /** A reorganisation leaves none of the network's entries for named slots or for slots from the reorganised one on. */
  lemma ReorgPurges(c: Config, es: seq<Event>, now: int, slot: U64, k: Key)
    requires Sound(c) && slot != 0
    ensures Find(StoreAfter(c, es + [Reorg(now, slot)]), k) ==
            if ReorgKeys(c, slot)(k) then None else Got(StoreAfter(c, es), k, now)
  {
    ExecSnoc(c, es, Reorg(now, slot));
    PurgingEvent(c, es, Reorg(now, slot), now, ReorgKeys(c, slot), k);
  }
}
