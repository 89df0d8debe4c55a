/**
 The response cache's memory store on values: entries in recency order, most
 recent first, with expiry times.
 */
module LruSpec {
  import opened Options

  type Key = string

  /** `expires` is None for an entry that never expires. */
  datatype Entry = Entry(key: Key, body: string, expires: Option<int>)

  predicate Expired(e: Entry, now: int) {
    e.expires.Some? && now > e.expires.value
  }

  function KeySet(s: seq<Entry>): set<Key> {
    if s == [] then {} else {s[0].key} + KeySet(s[1..])
  }

  ghost predicate Distinct(s: seq<Entry>) {
    s == [] || (s[0].key !in KeySet(s[1..]) && Distinct(s[1..]))
  }

  function Find(s: seq<Entry>, k: Key): (r: Option<Entry>)
    ensures r.Some? <==> k in KeySet(s)
    ensures r.Some? ==> r.value in s && r.value.key == k
  {
    if s == [] then None
    else if s[0].key == k then Some(s[0])
    else Find(s[1..], k)
  }

  function Without(s: seq<Entry>, k: Key): seq<Entry> {
    if s == [] then []
    else if s[0].key == k then Without(s[1..], k)
    else [s[0]] + Without(s[1..], k)
  }

  // ---------------------------------------------------------------------
  // Operations
  // ---------------------------------------------------------------------

  function Got(s: seq<Entry>, k: Key, now: int): (r: Option<Entry>)
    ensures r.Some? ==> Find(s, k) == r && !Expired(r.value, now)
  {
    var r := Find(s, k);
    if r.Some? && !Expired(r.value, now) then r else None
  }

  /** A hit moves to the front; an expired entry is dropped; a miss changes nothing. */
  function AfterGet(s: seq<Entry>, k: Key, now: int): seq<Entry> {
    match Find(s, k)
    case None => s
    case Some(e) => if Expired(e, now) then Without(s, k) else [e] + Without(s, k)
  }

  /** A known key is replaced in front; a new one evicts the least recent entries first. */
  function AfterSet(s: seq<Entry>, max: nat, e: Entry): seq<Entry>
    requires max >= 1
  {
    if Find(s, e.key).Some? then [e] + Without(s, e.key)
    else [e] + if |s| < max then s else s[..max - 1]
  }

  function AfterPromote(s: seq<Entry>, now: int, fn: Key -> bool): seq<Entry> {
    if s == [] then []
    else if s[0].expires.None? then [s[0]] + AfterPromote(s[1..], now, fn)
    else if Expired(s[0], now) then AfterPromote(s[1..], now, fn)
    else if fn(s[0].key) then [s[0].(expires := None)] + AfterPromote(s[1..], now, fn)
    else [s[0]] + AfterPromote(s[1..], now, fn)
  }

  function Promotions(s: seq<Entry>, now: int, fn: Key -> bool): nat {
    if s == [] then 0
    else (if s[0].expires.Some? && !Expired(s[0], now) && fn(s[0].key) then 1 else 0) + Promotions(s[1..], now, fn)
  }

  /** Listing drops the expired entries it passes; with a positive limit it stops after that many live ones. */
  function AfterList(s: seq<Entry>, now: int, limit: int): seq<Entry> {
    if s == [] then []
    else if Expired(s[0], now) then AfterList(s[1..], now, limit)
    else if limit == 1 then s
    else [s[0]] + AfterList(s[1..], now, if limit > 0 then limit - 1 else limit)
  }

  function Listed(s: seq<Entry>, now: int, limit: int): seq<Entry> {
    if s == [] then []
    else if Expired(s[0], now) then Listed(s[1..], now, limit)
    else if limit == 1 then [s[0]]
    else [s[0]] + Listed(s[1..], now, if limit > 0 then limit - 1 else limit)
  }

  function Purged(s: seq<Entry>, fn: Key -> bool): seq<Entry> {
    if s == [] then []
    else if fn(s[0].key) then Purged(s[1..], fn)
    else [s[0]] + Purged(s[1..], fn)
  }

  // ---------------------------------------------------------------------
  // Lists that only lose or rewrite entries
  // ---------------------------------------------------------------------

  lemma {:induction false} MemberKey(s: seq<Entry>, e: Entry)
    requires e in s
    ensures e.key in KeySet(s)
  {
    if s[0] != e {
      MemberKey(s[1..], e);
    }
  }

  lemma {:induction false} FindIn(s: seq<Entry>, e: Entry)
    requires Distinct(s) && e in s
    ensures Find(s, e.key) == Some(e)
  {
    if s[0] != e {
      MemberKey(s[1..], e);
      FindIn(s[1..], e);
    }
  }

  lemma {:induction false} WithoutKeys(s: seq<Entry>, k: Key)
    ensures KeySet(Without(s, k)) == KeySet(s) - {k}
    ensures Distinct(s) ==> Distinct(Without(s, k))
    ensures Distinct(s) ==> |Without(s, k)| == |s| - if k in KeySet(s) then 1 else 0
  {
    if s != [] {
      WithoutKeys(s[1..], k);
    }
  }

  lemma {:induction false} WithoutAbsent(s: seq<Entry>, k: Key)
    requires k !in KeySet(s)
    ensures Without(s, k) == s
  {
    if s != [] {
      WithoutAbsent(s[1..], k);
    }
  }

  // ---------------------------------------------------------------------
  // The keys ahead of a key
  // ---------------------------------------------------------------------

  function Ahead(s: seq<Entry>, k: Key): set<Key> {
    if s == [] || s[0].key == k then {} else {s[0].key} + Ahead(s[1..], k)
  }

  lemma {:induction false} AheadKeys(s: seq<Entry>, k: Key)
    ensures Ahead(s, k) <= KeySet(s) - {k}
  {
    if s != [] && s[0].key != k {
      AheadKeys(s[1..], k);
    }
  }

  lemma {:induction false} AheadWithout(s: seq<Entry>, j: Key, k: Key)
    requires j != k
    ensures Ahead(Without(s, j), k) <= Ahead(s, k)
  {
    if s != [] && s[0].key != k {
      AheadWithout(s[1..], j, k);
    }
  }

  lemma {:induction false} CutKeys(s: seq<Entry>, m: nat)
    requires m <= |s|
    ensures KeySet(s[..m]) <= KeySet(s)
    ensures Distinct(s) ==> Distinct(s[..m])
  {
    if m > 0 {
      CutKeys(s[1..], m - 1);
      assert s[..m][1..] == s[1..][..m - 1];
    }
  }

  /** Cutting the list keeps a key exactly if fewer keys are ahead of it than fit. */
  lemma {:induction false} CutKeeps(s: seq<Entry>, m: nat, k: Key)
    requires Distinct(s) && k in KeySet(s) && m <= |s|
    ensures k in KeySet(s[..m]) <==> |Ahead(s, k)| < m
    ensures Ahead(s[..m], k) <= Ahead(s, k)
  {
    if m > 0 {
      assert s[..m][1..] == s[1..][..m - 1];
      if s[0].key != k {
        CutKeeps(s[1..], m - 1, k);
        AheadKeys(s[1..], k);
      }
    }
  }

  function PromotedEntry(e: Entry, now: int, fn: Key -> bool): Entry {
    if !Expired(e, now) && fn(e.key) then e.(expires := None) else e
  }

  lemma {:induction false} PromoteKeys(s: seq<Entry>, now: int, fn: Key -> bool)
    ensures KeySet(AfterPromote(s, now, fn)) <= KeySet(s)
    ensures |AfterPromote(s, now, fn)| <= |s|
    ensures Distinct(s) ==> Distinct(AfterPromote(s, now, fn))
  {
    if s != [] {
      PromoteKeys(s[1..], now, fn);
    }
  }

  lemma {:induction false} PromoteFinds(s: seq<Entry>, now: int, fn: Key -> bool, k: Key)
    requires Distinct(s)
    ensures Find(AfterPromote(s, now, fn), k) ==
            match Find(s, k)
            case None => None
            case Some(e) => if Expired(e, now) then None else Some(PromotedEntry(e, now, fn))
  {
    if s != [] {
      PromoteFinds(s[1..], now, fn, k);
      PromoteKeys(s[1..], now, fn);
    }
  }

  lemma {:induction false} AheadPromote(s: seq<Entry>, now: int, fn: Key -> bool, k: Key)
    requires k in KeySet(AfterPromote(s, now, fn)) && Distinct(s)
    ensures Ahead(AfterPromote(s, now, fn), k) <= Ahead(s, k)
  {
    PromoteKeys(s[1..], now, fn);
    if s[0].key != k {
      AheadPromote(s[1..], now, fn, k);
    }
  }

  lemma {:induction false} ListKeys(s: seq<Entry>, now: int, limit: int)
    ensures KeySet(AfterList(s, now, limit)) <= KeySet(s)
    ensures |AfterList(s, now, limit)| <= |s|
    ensures Distinct(s) ==> Distinct(AfterList(s, now, limit))
  {
    if s != [] {
      var next := if Expired(s[0], now) || limit <= 0 then limit else limit - 1;
      ListKeys(s[1..], now, next);
    }
  }

  /** Listing loses expired entries only, and with no limit all of them. */
  lemma {:induction false} ListFinds(s: seq<Entry>, now: int, limit: int, k: Key)
    requires Distinct(s)
    ensures Find(AfterList(s, now, limit), k) == Find(s, k) ||
            (Find(AfterList(s, now, limit), k).None? && Find(s, k).Some? && Expired(Find(s, k).value, now))
    ensures limit <= 0 && Find(AfterList(s, now, limit), k).Some? ==> !Expired(Find(s, k).value, now)
  {
    if s != [] {
      var next := if Expired(s[0], now) || limit <= 0 then limit else limit - 1;
      ListFinds(s[1..], now, next, k);
      ListKeys(s[1..], now, next);
    }
  }

  lemma {:induction false} AheadList(s: seq<Entry>, now: int, limit: int, k: Key)
    requires k in KeySet(AfterList(s, now, limit)) && Distinct(s)
    ensures Ahead(AfterList(s, now, limit), k) <= Ahead(s, k)
  {
    var next := if Expired(s[0], now) || limit <= 0 then limit else limit - 1;
    if Expired(s[0], now) || limit != 1 {
      ListKeys(s[1..], now, next);
      if s[0].key != k {
        AheadList(s[1..], now, next, k);
      }
    }
  }

  function KeysOf(s: seq<Entry>): seq<Key> {
    seq(|s|, i requires 0 <= i < |s| => s[i].key)
  }

  lemma {:induction false} SameKeys(s: seq<Entry>, t: seq<Entry>)
    requires |s| == |t| && forall i :: 0 <= i < |s| ==> s[i].key == t[i].key
    ensures KeySet(s) == KeySet(t)
    ensures Distinct(s) <==> Distinct(t)
  {
    if s != [] {
      SameKeys(s[1..], t[1..]);
    }
  }

  function Expiry(ttl: int, now: int): Option<int> {
    if ttl > 0 then Some(now + ttl) else None
  }

  function WithoutAll(s: seq<Entry>, ks: seq<Key>): seq<Entry> {
    if ks == [] then s else Without(WithoutAll(s, ks[..|ks| - 1]), ks[|ks| - 1])
  }

  lemma {:induction false} WithoutAllCons(e: Entry, s: seq<Entry>, ks: seq<Key>)
    ensures WithoutAll([e] + s, ks) == (if e.key in ks then [] else [e]) + WithoutAll(s, ks)
  {
    if ks != [] {
      var front := ks[..|ks| - 1];
      WithoutAllCons(e, s, front);
      assert ks == front + [ks[|ks| - 1]];
      var rest, k := WithoutAll(s, front), ks[|ks| - 1];
      assert Without([e] + rest, k) == (if e.key == k then [] else [e]) + Without(rest, k);
      assert [] + rest == rest && [] + Without(rest, k) == Without(rest, k);
    }
  }

  lemma {:induction false} WithoutAllNone(ks: seq<Key>)
    ensures WithoutAll([], ks) == []
  {
    if ks != [] {
      WithoutAllNone(ks[..|ks| - 1]);
    }
  }

  /** Deleting all the chosen keys one by one is filtering them out. */
  lemma {:induction false} PurgedIs(s: seq<Entry>, ks: seq<Key>, fn: Key -> bool)
    requires forall k :: k in KeySet(s) ==> (k in ks <==> fn(k))
    ensures WithoutAll(s, ks) == Purged(s, fn)
  {
    if s == [] {
      WithoutAllNone(ks);
    } else {
      WithoutAllCons(s[0], s[1..], ks);
      assert [s[0]] + s[1..] == s;
      PurgedIs(s[1..], ks, fn);
    }
  }

  lemma {:induction false} KeysOfIs(s: seq<Entry>, k: Key)
    ensures k in KeysOf(s) <==> k in KeySet(s)
  {
    if s != [] {
      KeysOfIs(s[1..], k);
      assert KeysOf(s) == [s[0].key] + KeysOf(s[1..]);
    }
  }

  lemma {:induction false} ListedAll(s: seq<Entry>, now: int)
    ensures Listed(s, now, 0) == AfterList(s, now, 0)
  {
    if s != [] {
      ListedAll(s[1..], now);
    }
  }

  /** Without a limit, the keys listed are exactly the keys left. */
  lemma ListedLive(s: seq<Entry>, now: int)
    ensures forall k :: k in KeysOf(Listed(s, now, 0)) <==> k in KeySet(AfterList(s, now, 0))
  {
    ListedAll(s, now);
    forall k ensures k in KeysOf(Listed(s, now, 0)) <==> k in KeySet(AfterList(s, now, 0)) {
      KeysOfIs(AfterList(s, now, 0), k);
    }
  }

  /** Deleting the chosen ones of the listed keys deletes exactly the live entries chosen. */
  lemma ChosenPurged(s: seq<Entry>, now: int, fn: Key -> bool, purged: seq<Key>)
    requires Distinct(s) && forall k :: k in purged <==> fn(k) && k in KeysOf(Listed(s, now, 0))
    ensures WithoutAll(AfterList(s, now, 0), purged) == Purged(AfterList(s, now, 0), fn)
    ensures forall k :: k in purged <==> fn(k) && Got(s, k, now).Some?
  {
    ListedLive(s, now);
    PurgedIs(AfterList(s, now, 0), purged, fn);
    forall k ensures k in KeySet(AfterList(s, now, 0)) <==> Got(s, k, now).Some? {
      ListFinds(s, now, 0, k);
    }
  }

  /** The entries that have not expired, in order. */
  function Alive(s: seq<Entry>, now: int): seq<Entry> {
    if s == [] then [] else (if Expired(s[0], now) then [] else [s[0]]) + Alive(s[1..], now)
  }

  /** A listing is the live entries from the front, up to the limit if there is one. */
  lemma {:induction false} ListedIs(s: seq<Entry>, now: int, limit: int)
    ensures var live := Alive(s, now);
            Listed(s, now, limit) == if 0 < limit < |live| then live[..limit] else live
  {
    if s != [] {
      var rest := if !Expired(s[0], now) && limit > 0 then limit - 1 else limit;
      ListedIs(s[1..], now, rest);
    }
  }

  function Permanents(s: seq<Entry>): nat {
    if s == [] then 0 else (if s[0].expires.None? then 1 else 0) + Permanents(s[1..])
  }

  /** The count a promotion reports is how many permanent entries there are more. */
  lemma {:induction false} PromotionsCounted(s: seq<Entry>, now: int, fn: Key -> bool)
    ensures Permanents(AfterPromote(s, now, fn)) == Permanents(s) + Promotions(s, now, fn)
  {
    if s != [] {
      PromotionsCounted(s[1..], now, fn);
      var e, rest := s[0], AfterPromote(s[1..], now, fn);
      assert ([e] + rest)[1..] == rest && ([e.(expires := None)] + rest)[1..] == rest;
    }
  }
}
