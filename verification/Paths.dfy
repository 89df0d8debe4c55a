/** Which Beacon API paths name a slot or an epoch, and which of them finality has fixed. */
module Paths {
  import opened Options
  import opened Text
  import opened ForkTracker

  function Segments(path: string): (r: seq<string>)
    ensures r != []
  {
    Split(Trim(path, '/'), '/')
  }

  predicate Versioned(segments: seq<string>) {
    |segments| >= 2 && segments[0] == "eth" && |segments[1]| >= 2 && segments[1][0] == 'v'
  }

  const SLOT_ROUTES: set<string> :=
    {"headers", "blocks", "blinded_blocks", "blobs", "blob_sidecars", "states", "execution_payload_envelopes"}

  const NAMES: set<string> := {"head", "finalized", "justified"}

  /** A positive number of at most twelve characters. */
  function SlotNumber(segment: string): (r: Option<nat>)
    ensures r.Some? ==> segment != "" && IsDigit(segment[0]) && 0 < r.value <= MAX_UINT64
  {
    if segment == "" || |segment| > 12 || !IsDigit(segment[0]) then None
    else
      var r := ParseUint(segment);
      if r.Some? && r.value != 0 then r else None
  }

  function NumericSlot(path: string): (r: Option<nat>)
    ensures r.Some? ==> 0 < r.value <= MAX_UINT64
  {
    var s := Segments(path);
    if |s| < 5 || !Versioned(s) || s[2] != "beacon" then None
    else if s[3] in SLOT_ROUTES then SlotNumber(s[4])
    else if s[3] == "rewards" && |s| >= 6 && (s[4] == "blocks" || s[4] == "sync_committee") then SlotNumber(s[5])
    else None
  }

  predicate IsPayloadEnvelope(path: string) {
    var s := Segments(path);
    |s| >= 4 && s[2] == "beacon" && s[3] == "execution_payload_envelopes"
  }

  predicate HasNamedSlot(path: string) {
    var s := Segments(path);
    && |s| >= 4
    && Versioned(s)
    && s[2] == "beacon"
    && s[3] in SLOT_ROUTES
    && if |s| < 5 then s[3] == "headers" else s[4] in NAMES
  }

  function NumericEpoch(path: string): Option<nat> {
    var s := Segments(path);
    if |s| != 6 || !Versioned(s) then None
    else if (s[2] == "beacon" && s[3] == "rewards" && s[4] == "attestations") ||
            (s[2] == "validator" && s[3] == "duties" && s[4] == "proposer") then ParseUint(s[5])
    else None
  }

  /** Multiplication modulo 2^64. */
  function Mul64(a: U64, b: U64): U64 {
    (a * b) % TWO64
  }

  /** Fixed by the checkpoint at `epoch`, computed in 64 bits. */
  predicate IsFinalized(path: string, epoch: U64, spe: U64) {
    && epoch != 0
    && if NumericSlot(path).Some? && IsPayloadEnvelope(path) then
         epoch >= 2 && NumericSlot(path).value < Mul64(epoch - 1, spe)
       else
         || (NumericSlot(path).Some? && NumericSlot(path).value <= Mul64(epoch, spe))
         || (NumericEpoch(path).Some? && epoch >= 2 && NumericEpoch(path).value <= epoch - 2)
  }

  // ---------------------------------------------------------------------
  // Properties
  // ---------------------------------------------------------------------

  /** No path names both a slot and an epoch. */
  lemma SlotOrEpoch(path: string)
    ensures NumericSlot(path).None? || NumericEpoch(path).None?
  {
  }

  /** A named slot is never a number, so finality never fixes it. */
  lemma NamedNeverFinalized(path: string, epoch: U64, spe: U64)
    requires HasNamedSlot(path)
    ensures NumericSlot(path).None? && NumericEpoch(path).None? && !IsFinalized(path, epoch, spe)
  {
    var s := Segments(path);
    if |s| >= 5 {
      assert s[4] in NAMES && s[4] != "" && !IsDigit(s[4][0]);
    }
  }

  lemma ProductNonNegative(a: nat, b: nat)
    ensures 0 <= a * b
  {
  }

  lemma Mul64Exact(a: U64, b: U64)
    requires a * b < TWO64
    ensures Mul64(a, b) == a * b
  {
    ProductNonNegative(a, b);
    var p := a * b;
    assert p % TWO64 == p;
  }

  /** An epoch is final two epochs later: rewards and duties can change through the epoch after it. */
  lemma FinalizedEpochIs(path: string, epoch: U64, spe: U64)
    requires NumericEpoch(path).Some?
    ensures IsFinalized(path, epoch, spe) <==> NumericEpoch(path).value + 2 <= epoch
  {
    SlotOrEpoch(path);
  }

  /** Without wrap-around, finality of a slot path is the plain comparison. */
  lemma FinalizedSlotIs(path: string, epoch: U64, spe: U64)
    requires NumericSlot(path).Some? && epoch * spe < TWO64
    ensures IsFinalized(path, epoch, spe) <==>
            if IsPayloadEnvelope(path) then epoch >= 2 && NumericSlot(path).value < (epoch - 1) * spe
            else epoch != 0 && NumericSlot(path).value <= epoch * spe
  {
    SlotOrEpoch(path);
    Mul64Exact(epoch, spe);
    if epoch >= 2 {
      assert (epoch - 1) * spe == epoch * spe - spe;
      Mul64Exact(epoch - 1, spe);
    }
  }

  lemma Ordered(a: U64, b: U64, c: U64)
    requires a <= b
    ensures a * c <= b * c
  {
  }

  /** What is final stays final as the epoch grows, as long as the epoch's first slot fits in 64 bits. */
  lemma FinalityGrows(path: string, epoch: U64, later: U64, spe: U64)
    requires epoch <= later && later * spe < TWO64 && IsFinalized(path, epoch, spe)
    ensures IsFinalized(path, later, spe)
  {
    Ordered(epoch, later, spe);
    if NumericSlot(path).Some? {
      FinalizedSlotIs(path, epoch, spe);
      FinalizedSlotIs(path, later, spe);
      if epoch >= 2 {
        Ordered(epoch - 1, later - 1, spe);
      }
    }
  }

  /** In general it stays final exactly if it names an epoch, or its slot is within the wrapped product of the later epoch. */
  lemma FinalityKeptExactly(path: string, epoch: U64, later: U64, spe: U64)
    requires epoch <= later && IsFinalized(path, epoch, spe)
    ensures IsFinalized(path, later, spe) <==>
            || NumericSlot(path).None?
            || (if IsPayloadEnvelope(path) then NumericSlot(path).value < ((later - 1) * spe) % TWO64
                else NumericSlot(path).value <= (later * spe) % TWO64)
  {
    SlotOrEpoch(path);
  }

  // ---------------------------------------------------------------------
  // Paths from segments
  // ---------------------------------------------------------------------

  /** A path written from its segments splits back into them. */
  lemma SegmentsOf(segments: seq<string>)
    requires segments != [] && forall k :: 0 <= k < |segments| ==> segments[k] != "" && Free(segments[k], '/')
    ensures Segments("/" + Join(segments, '/')) == segments
  {
    JoinEnds(segments);
    TrimSlash(Join(segments, '/'));
    SplitJoin(segments, '/');
  }

  lemma TrimSlash(text: string)
    requires text != "" && text[0] != '/' && text[|text| - 1] != '/'
    ensures Trim("/" + text, '/') == text
  {
    assert ("/" + text)[1..] == text;
    assert TrimLeft("/" + text, '/') == TrimLeft(text, '/');
  }

  lemma {:induction false} JoinEnds(segments: seq<string>)
    requires segments != [] && forall k :: 0 <= k < |segments| ==> segments[k] != "" && Free(segments[k], '/')
    ensures var text := Join(segments, '/'); text != "" && text[0] != '/' && text[|text| - 1] != '/'
  {
    assert segments[0] != "" && Free(segments[0], '/');
    if |segments| > 1 {
      JoinEnds(segments[1..]);
    }
  }

  function BeaconPath(route: string, id: string): string {
    "/" + Join(["eth", "v1", "beacon", route, id], '/')
  }

  lemma BeaconSegments(route: string, id: string)
    requires route != "" && id != "" && Free(route, '/') && Free(id, '/')
    ensures Segments(BeaconPath(route, id)) == ["eth", "v1", "beacon", route, id]
  {
    var s := ["eth", "v1", "beacon", route, id];
    assert forall k :: 0 <= k < |s| ==> s[k] != "" && Free(s[k], '/');
    SegmentsOf(s);
  }

  ghost predicate Segment(s: string) {
    s != "" && Free(s, '/')
  }

  lemma NumberIsSegment(n: nat)
    ensures Segment(Digits(n)) && IsDigit(Digits(n)[0])
  {
  }

  /** A slot route followed by a number of at most twelve digits, whatever follows it, names that slot. */
  lemma SlotPath(version: string, route: string, n: nat, more: seq<string>)
    requires Segment(version) && |version| >= 2 && version[0] == 'v' && route in SLOT_ROUTES && Segment(route)
    requires forall k :: 0 <= k < |more| ==> Segment(more[k])
    ensures var path := "/" + Join(["eth", version, "beacon", route, Digits(n)] + more, '/');
            && NumericSlot(path) == (if 0 < n && |Digits(n)| <= 12 && n <= MAX_UINT64 then Some(n) else None)
            && (IsPayloadEnvelope(path) <==> route == "execution_payload_envelopes")
            && !HasNamedSlot(path)
  {
    var s := ["eth", version, "beacon", route, Digits(n)] + more;
    NumberIsSegment(n);
    ParseDigits(n);
    SegmentsAgain(s);
    DigitsNotNamed(Digits(n));
  }

  /** On each of the seven block and state routes, a number is read as the slot. */
  lemma SlotRoutes(route: string, n: nat)
    requires route == "headers" || route == "blocks" || route == "blinded_blocks" || route == "blobs" || route == "blob_sidecars" ||
             route == "states" || route == "execution_payload_envelopes"
    requires 0 < n <= MAX_UINT64 && |Digits(n)| <= 12
    ensures NumericSlot(BeaconPath(route, Digits(n))) == Some(n)
  {
    assert Segment("v1") && Segment(route);
    SlotPath("v1", route, n, []);
    assert ["eth", "v1", "beacon", route, Digits(n)] + [] == ["eth", "v1", "beacon", route, Digits(n)];
  }

  /** The rewards of a block and of a sync committee are read at the slot too. */
  lemma RewardSlots(kind: string, n: nat)
    requires kind == "blocks" || kind == "sync_committee"
    requires 0 < n <= MAX_UINT64 && |Digits(n)| <= 12
    ensures NumericSlot("/" + Join(["eth", "v1", "beacon", "rewards", kind, Digits(n)], '/')) == Some(n)
  {
    var s := ["eth", "v1", "beacon", "rewards", kind, Digits(n)];
    NumberIsSegment(n);
    ParseDigits(n);
    assert forall k :: 0 <= k < |s| ==> Segment(s[k]);
    SegmentsAgain(s);
  }

  lemma DigitsNotNamed(s: string)
    requires s != "" && IsDigit(s[0])
    ensures s !in NAMES
  {
  }

  lemma SegmentsAgain(s: seq<string>)
    requires s != [] && forall k :: 0 <= k < |s| ==> Segment(s[k])
    ensures Segments("/" + Join(s, '/')) == s
  {
    forall k | 0 <= k < |s| ensures s[k] != "" && Free(s[k], '/') {
      assert Segment(s[k]);
    }
    SegmentsOf(s);
  }

  lemma EpochSegments(s: seq<string>, n: nat)
    requires |s| == 6 && Versioned(s) && s[5] == Digits(n) && forall k :: 0 <= k < |s| ==> Segment(s[k])
    requires (s[2] == "beacon" && s[3] == "rewards" && s[4] == "attestations") || (s[2] == "validator" && s[3] == "duties" && s[4] == "proposer")
    ensures NumericEpoch("/" + Join(s, '/')) == if n <= MAX_UINT64 then Some(n) else None
  {
    SegmentsAgain(s);
    ParseDigits(n);
  }

  /** Attestation rewards of an epoch are final two epochs later, not before. */
  lemma RewardsFinalTwoEpochsLater(n: nat, epoch: U64, spe: U64)
    requires n <= MAX_UINT64
    ensures var path := "/" + Join(["eth", "v1", "beacon", "rewards", "attestations", Digits(n)], '/');
            NumericEpoch(path) == Some(n) && (IsFinalized(path, epoch, spe) <==> n + 2 <= epoch)
  {
    var s := ["eth", "v1", "beacon", "rewards", "attestations", Digits(n)];
    NumberIsSegment(n);
    assert forall k :: 0 <= k < |s| ==> Segment(s[k]);
    EpochSegments(s, n);
    FinalizedEpochIs("/" + Join(s, '/'), epoch, spe);
  }

  /** /eth/v1/beacon/blocks/1 */
  const BLOCK_ONE: string := BeaconPath("blocks", "1")

  /** /eth/v1/beacon/headers/head */
  const HEAD_HEADER: string := BeaconPath("headers", "head")

  lemma BlockPath(id: string, slot: nat)
    requires SlotNumber(id) == Some(slot) && Free(id, '/')
    ensures NumericSlot(BeaconPath("blocks", id)) == Some(slot) && !IsPayloadEnvelope(BeaconPath("blocks", id))
  {
    BeaconSegments("blocks", id);
  }

  lemma BlockOneIsSlotOne()
    ensures NumericSlot(BLOCK_ONE) == Some(1) && !IsPayloadEnvelope(BLOCK_ONE)
  {
    assert Free("1", '/') && SlotNumber("1") == Some(1);
    BlockPath("1", 1);
  }

  /** On a slot route exactly head, finalized and justified are names. */
  lemma NamesAre(route: string, id: string)
    requires route in SLOT_ROUTES && Segment(route) && Segment(id)
    ensures HasNamedSlot(BeaconPath(route, id)) == (id == "head" || id == "finalized" || id == "justified")
  {
    BeaconSegments(route, id);
  }

  lemma HeadHeaderIsNamed()
    ensures HasNamedSlot(HEAD_HEADER)
  {
    BeaconSegments("headers", "head");
  }

  /** A path that is final at epoch 1 and no longer at an epoch whose first slot wraps to 0. */
  lemma WrapLosesFinality()
    ensures IsFinalized(BLOCK_ONE, 1, 32) && !IsFinalized(BLOCK_ONE, 0x800_0000_0000_0000, 32)
  {
    BlockOneIsSlotOne();
    SlotOneWraps(BLOCK_ONE);
  }

  lemma SlotOneWraps(path: string)
    requires NumericSlot(path) == Some(1) && !IsPayloadEnvelope(path)
    ensures IsFinalized(path, 1, 32) && !IsFinalized(path, 0x800_0000_0000_0000, 32)
  {
    SlotOrEpoch(path);
    assert 0x800_0000_0000_0000 * 32 == TWO64;
  }

  // ---------------------------------------------------------------------
  // Paths cut at a colon
  // ---------------------------------------------------------------------

  /** `cut` is the path, or the path up to one of its colons. */
  ghost predicate CutAtColon(cut: string, path: string) {
    cut <= path && (|cut| < |path| ==> path[|cut|] == ':')
  }

  /** Segment lists that agree but for the last segment of the shorter, which may be cut at a colon. */
  ghost predicate CutLists(s: seq<string>, t: seq<string>) {
    && 0 < |s| <= |t|
    && (forall k :: 0 <= k < |s| - 1 ==> s[k] == t[k])
    && CutAtColon(s[|s| - 1], t[|s| - 1])
    && (|s| < |t| && s[|s| - 1] == t[|s| - 1] ==> t[|s|] == "" || t[|s|][0] == ':')
  }

  lemma CutSplit(m: string, b: string)
    requires b != "" && (b[0] == ':' || (b[0] == '/' && |b| > 1 && (b[1] == '/' || b[1] == ':')))
    ensures CutLists(Split(m, '/'), Split(m + b, '/'))
  {
    SplitConcat(m, b, '/');
  }

  /** The segments of the cut path are those of the path, but for its last one, which may be cut at a colon. */
  lemma CutSegments(cut: string, path: string)
    requires CutAtColon(cut, path)
    ensures CutLists(Segments(cut), Segments(path))
  {
    if |cut| == |path| {
      assert cut == path;
    } else {
      var more := path[|cut|..];
      assert path == cut + more && more[0] == ':';
      var l := TrimLeft(cut, '/');
      TrimLeftConcat(cut, more, '/');
      TrimRightKeeps(l, more, '/');
      var m, tail := TrimRight(l, '/'), TrimRight(more, '/');
      TrimmedTail(l, '/');
      var b := l[|m|..] + tail;
      assert l + tail == m + b;
      CutSplit(m, b);
    }
  }

  /** A cut path with a named slot was cut from a path that finality never fixes. */
  lemma CutNamed(cut: string, path: string, epoch: U64, spe: U64)
    requires CutAtColon(cut, path) && HasNamedSlot(cut)
    ensures !IsFinalized(path, epoch, spe)
  {
    CutSegments(cut, path);
    var s, t := Segments(cut), Segments(path);
    if |s| >= 5 {
      assert s[4] in NAMES && s[4] <= t[4] && !IsDigit(t[4][0]);
    }
  }

  /** A cut path with a numeric slot was cut from a path with the same slot, or from one that finality never fixes. */
  lemma CutNumeric(cut: string, path: string, epoch: U64, spe: U64)
    requires CutAtColon(cut, path) && NumericSlot(cut).Some? && IsFinalized(path, epoch, spe)
    ensures NumericSlot(path) == NumericSlot(cut) && (IsPayloadEnvelope(path) <==> IsPayloadEnvelope(cut))
  {
    CutSegments(cut, path);
    var s, t := Segments(cut), Segments(path);
    var k := if s[3] in SLOT_ROUTES then 4 else 5;
    if s[k] != t[k] {
      ColonIsNoNumber(t[k], |s[k]|);
    }
  }

  lemma ColonIsNoNumber(segment: string, i: nat)
    requires i < |segment| && segment[i] == ':'
    ensures SlotNumber(segment) == None
  {
  }

  // ---------------------------------------------------------------------
  // Time to live
  // ---------------------------------------------------------------------

  const SECOND := 1_000_000_000

  function SlotSeconds(secondsPerSlot: int): (r: int)
    ensures r > 0
  {
    if secondsPerSlot <= 0 then DEFAULT_SECONDS_PER_SLOT else secondsPerSlot
  }

  /** Whole seconds left in the slot at `unix`, counting the current one. */
  function Remaining(genesis: int, secondsPerSlot: int, unix: int): (r: int)
  {
    SlotSeconds(secondsPerSlot) - (unix - genesis) % SlotSeconds(secondsPerSlot)
  }

  /** Nanoseconds to keep a response for; 0 is forever. */
  function EffectiveTTL(epoch: U64, spe: U64, genesis: int, secondsPerSlot: int, policyTTL: int, path: string, unix: int): int {
    if IsFinalized(path, epoch, spe) then 0
    else if policyTTL > 0 && genesis != 0 && HasNamedSlot(path) then
      var remaining := Remaining(genesis, secondsPerSlot, unix) * SECOND;
      var atLeast := if remaining < SECOND then SECOND else remaining;
      if atLeast < policyTTL then atLeast else policyTTL
    else policyTTL
  }

  /** Under a positive policy a response is kept forever exactly if finality has fixed its path. */
  lemma ForeverExactlyIfFinal(epoch: U64, spe: U64, genesis: int, secondsPerSlot: int, policyTTL: int, path: string, unix: int)
    requires policyTTL > 0
    ensures EffectiveTTL(epoch, spe, genesis, secondsPerSlot, policyTTL, path, unix) >= 0
    ensures EffectiveTTL(epoch, spe, genesis, secondsPerSlot, policyTTL, path, unix) == 0 <==> IsFinalized(path, epoch, spe)
  {
  }

  /** What is neither final nor for a named slot is kept as long as its policy says; so is everything while genesis is unknown. */
  lemma PolicyKept(epoch: U64, spe: U64, genesis: int, secondsPerSlot: int, policyTTL: int, path: string, unix: int)
    requires !IsFinalized(path, epoch, spe) && (!HasNamedSlot(path) || genesis == 0 || policyTTL <= 0)
    ensures EffectiveTTL(epoch, spe, genesis, secondsPerSlot, policyTTL, path, unix) == policyTTL
  {
  }

  /** The end of the slot that the second `unix` lies in. */
  function NextSlot(genesis: int, secondsPerSlot: int, unix: int): (b: int)
  {
    genesis + ((unix - genesis) / SlotSeconds(secondsPerSlot) + 1) * SlotSeconds(secondsPerSlot)
  }

  lemma RemainingIs(genesis: int, secondsPerSlot: int, unix: int)
    ensures NextSlot(genesis, secondsPerSlot, unix) == unix + Remaining(genesis, secondsPerSlot, unix)
    ensures 1 <= Remaining(genesis, secondsPerSlot, unix)
  {
    var d := SlotSeconds(secondsPerSlot);
    var slot, elapsed := (unix - genesis) / d, (unix - genesis) % d;
    assert unix - genesis == slot * d + elapsed;
    assert (slot + 1) * d == slot * d + d;
  }

  /**
   A named response expires by the end of its slot exactly if it is filled on a
   whole second or its policy would expire it by then anyway: the time left is
   counted from the second in which the fill falls, the expiry from the fill
   itself. It never outlives the slot by a whole second.
   */
  lemma NamedExpiry(epoch: U64, spe: U64, genesis: int, secondsPerSlot: int, policyTTL: int, path: string, now: int)
    requires policyTTL > 0 && genesis != 0 && HasNamedSlot(path)
    ensures var ttl := EffectiveTTL(epoch, spe, genesis, secondsPerSlot, policyTTL, path, now / SECOND);
            var end := NextSlot(genesis, secondsPerSlot, now / SECOND) * SECOND;
            && ttl > 0
            && now < end
            && (now + ttl <= end <==> now % SECOND == 0 || now + policyTTL <= end)
            && now + ttl < end + SECOND
  {
    NamedNeverFinalized(path, epoch, spe);
    RemainingIs(genesis, secondsPerSlot, now / SECOND);
    assert now == now / SECOND * SECOND + now % SECOND;
  }

  lemma OneSecondLeft(path: string)
    requires HasNamedSlot(path)
    ensures NextSlot(1, 12, 12) == 13 && EffectiveTTL(0, 32, 1, 12, 4 * SECOND, path, 12) == SECOND
  {
    NamedNeverFinalized(path, 0, 32);
    assert Remaining(1, 12, 12) == 1;
  }

  /** Filled 0.1 seconds before the end of a slot, a head response is kept for a second. */
  lemma NamedOutlivesSlot()
    ensures HasNamedSlot(HEAD_HEADER)
    ensures var now, ttl := 12_900_000_000, EffectiveTTL(0, 32, 1, 12, 4 * SECOND, HEAD_HEADER, 12_900_000_000 / SECOND);
            now < NextSlot(1, 12, now / SECOND) * SECOND == 13 * SECOND < now + ttl
  {
    HeadHeaderIsNamed();
    OneSecondLeft(HEAD_HEADER);
    assert 12_900_000_000 / SECOND == 12;
  }
}
