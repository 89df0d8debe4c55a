/** The memory store as code: a key index over list elements shared with a recency list. */
module MemoryStores {
  import opened Options
  import opened LruSpec

  const DEFAULT_SIZE := 2048

  class Element {
    var entry: Entry

    constructor (e: Entry)
      ensures entry == e
    {
      entry := e;
    }
  }

  function EntriesOf(els: seq<Element>): (r: seq<Entry>)
    reads els
    ensures |r| == |els|
  {
    if els == [] then [] else [els[0].entry] + EntriesOf(els[1..])
  }

  lemma {:induction false} EntriesAt(els: seq<Element>, i: nat)
    requires i < |els|
    ensures EntriesOf(els)[i] == els[i].entry
  {
    if i > 0 {
      EntriesAt(els[1..], i - 1);
    }
  }

  function Removed(els: seq<Element>, el: Element): seq<Element> {
    if els == [] then []
    else if els[0] == el then els[1..]
    else [els[0]] + Removed(els[1..], el)
  }

  /** The index and the list hold the same elements, each under its own key. */
  ghost predicate Indexed(items: map<Key, Element>, lru: seq<Element>)
    reads lru
  {
    && (forall el :: el in lru ==> el.entry.key in items && items[el.entry.key] == el)
    && (forall k :: k in items ==> items[k] in lru && items[k].entry.key == k)
  }

  lemma EntryIn(els: seq<Element>, el: Element)
    requires el in els
    ensures el.entry in EntriesOf(els) && el.entry.key in KeySet(EntriesOf(els))
  {
    var i :| 0 <= i < |els| && els[i] == el;
    EntriesAt(els, i);
    MemberKey(EntriesOf(els), el.entry);
  }

  lemma {:induction false} KeysIndexed(items: map<Key, Element>, els: seq<Element>, k: Key)
    requires forall el :: el in els ==> el.entry.key in items
    requires k in KeySet(EntriesOf(els))
    ensures k in items
  {
    if els[0].entry.key != k {
      KeysIndexed(items, els[1..], k);
    }
  }

  lemma {:induction false} RemovedEntries(els: seq<Element>, el: Element)
    requires el in els && Distinct(EntriesOf(els))
    ensures EntriesOf(Removed(els, el)) == Without(EntriesOf(els), el.entry.key)
    ensures forall x :: x in Removed(els, el) <==> x in els && x != el
  {
    if els[0] == el {
      WithoutAbsent(EntriesOf(els[1..]), el.entry.key);
      if el in els[1..] {
        EntryIn(els[1..], el);
      }
    } else {
      EntryIn(els[1..], el);
      RemovedEntries(els[1..], el);
      var rest := Removed(els[1..], el);
      assert ([els[0]] + rest)[1..] == rest;
    }
  }

  lemma {:induction false} JoinedEntries(a: seq<Element>, b: seq<Element>)
    ensures EntriesOf(a + b) == EntriesOf(a) + EntriesOf(b)
  {
    if a == [] {
      assert a + b == b;
    } else {
      JoinedEntries(a[1..], b);
      assert (a + b)[1..] == a[1..] + b;
    }
  }

  lemma CutEntries(els: seq<Element>, m: nat)
    requires m <= |els|
    ensures EntriesOf(els[..m]) == EntriesOf(els)[..m]
    ensures EntriesOf(els[m..]) == EntriesOf(els)[m..]
  {
    JoinedEntries(els[..m], els[m..]);
    assert els[..m] + els[m..] == els;
  }

  lemma DroppedEntries(els: seq<Element>, i: nat)
    requires i < |els|
    ensures EntriesOf(els[..i] + els[i + 1..]) == EntriesOf(els)[..i] + EntriesOf(els)[i + 1..]
  {
    CutEntries(els, i);
    CutEntries(els, i + 1);
    JoinedEntries(els[..i], els[i + 1..]);
  }

  /** With distinct keys an element occurs once. */
  lemma {:induction false} OnceOnly(els: seq<Element>, i: nat, j: nat)
    requires i < j < |els| && Distinct(EntriesOf(els))
    ensures els[i] != els[j]
  {
    assert EntriesOf(els)[1..] == EntriesOf(els[1..]);
    if i == 0 {
      EntryIn(els[1..], els[1..][j - 1]);
    } else {
      OnceOnly(els[1..], i - 1, j - 1);
    }
  }

  lemma {:induction false} RemovedAt(els: seq<Element>, i: nat)
    requires i < |els| && forall j :: 0 <= j < i ==> els[j] != els[i]
    ensures Removed(els, els[i]) == els[..i] + els[i + 1..]
  {
    if i > 0 {
      RemovedAt(els[1..], i - 1);
      assert els[0] != els[i];
      assert els[..i] + els[i + 1..] == [els[0]] + (els[1..][..i - 1] + els[1..][i..]);
    }
  }

  /** Partway through promotion: what is done plus what the rest will become is the goal. */
  ghost predicate Promoting(s: seq<Entry>, i: nat, now: int, fn: Key -> bool, goal: seq<Entry>, n: nat, total: nat) {
    i <= |s| && s[..i] + AfterPromote(s[i..], now, fn) == goal && n + Promotions(s[i..], now, fn) == total
  }

  lemma PromotingKeep(s: seq<Entry>, i: nat, now: int, fn: Key -> bool, goal: seq<Entry>, n: nat, total: nat)
    requires i < |s| && Promoting(s, i, now, fn, goal, n, total) && !Expired(s[i], now)
    ensures var n' := n + if s[i].expires.Some? && fn(s[i].key) then 1 else 0;
            Promoting(s[i := PromotedEntry(s[i], now, fn)], i + 1, now, fn, goal, n', total)
  {
    var t := s[i := PromotedEntry(s[i], now, fn)];
    assert t[..i + 1] == s[..i] + [t[i]] && t[i + 1..] == s[i + 1..] == s[i..][1..];
    assert t[..i + 1] + AfterPromote(t[i + 1..], now, fn) == s[..i] + ([t[i]] + AfterPromote(t[i + 1..], now, fn));
  }

  /** Partway through a listing. */
  ghost predicate Listing(s: seq<Entry>, i: nat, now: int, limit: int, goal: seq<Entry>, out: seq<Entry>, all: seq<Entry>) {
    i <= |s| && s[..i] + AfterList(s[i..], now, limit) == goal && out + Listed(s[i..], now, limit) == all
  }

  lemma ListingDrop(s: seq<Entry>, i: nat, now: int, limit: int, goal: seq<Entry>, out: seq<Entry>, all: seq<Entry>)
    requires i < |s| && Listing(s, i, now, limit, goal, out, all) && Expired(s[i], now)
    ensures Listing(s[..i] + s[i + 1..], i, now, limit, goal, out, all)
  {
    var t := s[..i] + s[i + 1..];
    assert t[..i] == s[..i] && t[i..] == s[i + 1..] == s[i..][1..];
  }

  lemma ListingKeep(s: seq<Entry>, i: nat, now: int, limit: int, goal: seq<Entry>, out: seq<Entry>, all: seq<Entry>)
    requires i < |s| && Listing(s, i, now, limit, goal, out, all) && !Expired(s[i], now)
    ensures limit == 1 ==> goal == s && out + [s[i]] == all
    ensures limit != 1 ==> Listing(s, i + 1, now, if limit > 0 then limit - 1 else limit, goal, out + [s[i]], all)
  {
    assert s[i + 1..] == s[i..][1..];
    assert s[..i] + s[i..] == s && s[..i + 1] == s[..i] + [s[i]];
    if limit != 1 {
      var next := if limit > 0 then limit - 1 else limit;
      assert s[..i + 1] + AfterList(s[i + 1..], now, next) == s[..i] + ([s[i]] + AfterList(s[i + 1..], now, next));
      assert out + [s[i]] + Listed(s[i + 1..], now, next) == out + ([s[i]] + Listed(s[i + 1..], now, next));
    }
  }

  class MemoryStore {
    var items: map<Key, Element>
    var lru: seq<Element>
    const maxSize: nat

    ghost predicate Valid()
      reads this, lru
    {
      && maxSize >= 1
      && |lru| <= maxSize
      && Distinct(EntriesOf(lru))
      && Indexed(items, lru)
    }

    ghost function Contents(): seq<Entry>
      reads this, lru
    {
      EntriesOf(lru)
    }

    constructor (maxSize: int)
      ensures Valid() && Contents() == []
      ensures this.maxSize == if maxSize <= 0 then DEFAULT_SIZE else maxSize
    {
      items := map[];
      lru := [];
      this.maxSize := if maxSize <= 0 then DEFAULT_SIZE else maxSize;
    }

    lemma Lookup(k: Key)
      requires Valid()
      ensures k in items <==> Find(Contents(), k).Some?
      ensures k in items ==> Find(Contents(), k) == Some(items[k].entry)
    {
      if k in items {
        EntryIn(lru, items[k]);
        FindIn(Contents(), items[k].entry);
      } else if Find(Contents(), k).Some? {
        KeysIndexed(items, lru, k);
      }
    }

    /** Takes an element out of the list and its key out of the index. */
    method Drop(el: Element)
      requires Valid() && el in lru
      modifies this
      ensures Valid() && Contents() == Without(old(Contents()), el.entry.key)
      ensures forall x :: x in lru <==> x in old(lru) && x != el
      ensures lru == Removed(old(lru), el)
    {
      RemovedEntries(lru, el);
      WithoutKeys(Contents(), el.entry.key);
      lru := Removed(lru, el);
      items := items - {el.entry.key};
    }

    method MoveToFront(el: Element)
      requires Valid() && el in lru
      modifies this
      ensures Valid() && Contents() == [el.entry] + Without(old(Contents()), el.entry.key)
      ensures lru == [el] + Removed(old(lru), el)
      ensures items == old(items)
    {
      RemovedEntries(lru, el);
      WithoutKeys(Contents(), el.entry.key);
      EntryIn(lru, el);
      lru := [el] + Removed(lru, el);
    }

    method Get(k: Key, now: int) returns (r: Option<Entry>)
      requires Valid()
      modifies this
      ensures Valid()
      ensures r == Got(old(Contents()), k, now)
      ensures Contents() == AfterGet(old(Contents()), k, now)
    {
      Lookup(k);
      if k !in items {
        return None;
      }
      var el := items[k];
      if Expired(el.entry, now) {
        Drop(el);
        return None;
      }
      MoveToFront(el);
      return Some(el.entry);
    }

    method Delete(k: Key)
      requires Valid()
      modifies this
      ensures Valid() && Contents() == Without(old(Contents()), k)
      ensures forall x :: x in lru ==> x in old(lru)
    {
      Lookup(k);
      if k in items {
        Drop(items[k]);
      } else {
        WithoutAbsent(Contents(), k);
      }
    }

    method DropAt(i: nat)
      requires Valid() && i < |lru|
      modifies this
      ensures Valid() && lru == old(lru)[..i] + old(lru)[i + 1..]
      ensures Contents() == old(Contents())[..i] + old(Contents())[i + 1..]
      ensures forall k :: k in items ==> k in old(items)
    {
      forall j | 0 <= j < i ensures lru[j] != lru[i] {
        OnceOnly(lru, j, i);
      }
      RemovedAt(lru, i);
      DroppedEntries(lru, i);
      RemovedEntries(lru, lru[i]);
      WithoutKeys(Contents(), lru[i].entry.key);
      items := items - {lru[i].entry.key};
      lru := Removed(lru, lru[i]);
    }

    /** Evicts from the back until there is room for one more. */
    method Evict()
      requires Valid()
      modifies this
      ensures Valid() && |lru| < maxSize
      ensures Contents() == if |old(Contents())| < maxSize then old(Contents()) else old(Contents())[..maxSize - 1]
      ensures forall k :: k in items ==> k in old(items)
    {
      while |lru| >= maxSize
        invariant Valid()
        invariant Contents() == old(Contents()) || (|old(lru)| == maxSize && Contents() == old(Contents())[..maxSize - 1])
        invariant forall k :: k in items ==> k in old(items)
        decreases |lru|
      {
        DropAt(|lru| - 1);
      }
    }

    method Replace(el: Element, e: Entry)
      requires Valid() && el in lru && el.entry.key == e.key
      modifies this, el
      ensures Valid() && Contents() == [e] + Without(old(Contents()), e.key)
    {
      ghost var rest := Removed(lru, el);
      RemovedEntries(lru, el);
      MoveToFront(el);
      el.entry := e;
      assert EntriesOf(rest) == old(EntriesOf(rest));
      WithoutKeys(old(Contents()), e.key);
    }

    method Insert(e: Entry)
      requires Valid() && e.key !in items && |lru| < maxSize
      modifies this
      ensures Valid() && Contents() == [e] + old(Contents())
    {
      Lookup(e.key);
      var el := new Element(e);
      lru := [el] + lru;
      items := items[e.key := el];
    }

    method Set(e: Entry)
      requires Valid()
      modifies this, lru
      ensures Valid() && Contents() == AfterSet(old(Contents()), maxSize, e)
    {
      Lookup(e.key);
      if e.key in items {
        Replace(items[e.key], e);
      } else {
        Evict();
        Insert(e);
      }
    }

    /** Makes the i-th element's entry permanent. */
    method MakePermanent(i: nat)
      requires Valid() && i < |lru|
      modifies lru[i]
      ensures Valid() && Contents() == old(Contents())[i := old(Contents())[i].(expires := None)]
    {
      var el := lru[i];
      ghost var before := Contents();
      forall j | 0 <= j < |lru| ensures before[j] == lru[j].entry && (lru[j] == el ==> j == i) {
        EntriesAt(lru, j);
        if j != i {
          OnceOnly(lru, if j < i then j else i, if j < i then i else j);
        }
      }
      el.entry := el.entry.(expires := None);
      forall j | 0 <= j < |lru| ensures Contents()[j] == lru[j].entry {
        EntriesAt(lru, j);
      }
      SameKeys(before, Contents());
    }

    /** What the promotion loop does with the i-th element. */
    method PromoteAt(i: nat, now: int, fn: Key -> bool, n: nat, ghost goal: seq<Entry>, ghost total: nat)
      returns (next: nat, n': nat)
      requires Valid() && i < |lru| && Promoting(Contents(), i, now, fn, goal, n, total)
      modifies this, lru[i]
      ensures Valid() && Promoting(Contents(), next, now, fn, goal, n', total)
      ensures |lru| - next < |old(lru)| - i
      ensures forall x :: x in lru ==> x in old(lru)
    {
      ghost var s := Contents();
      EntriesAt(lru, i);
      var e := lru[i].entry;
      next, n' := i + 1, n;
      if e.expires.None? {
        PromotingKeep(s, i, now, fn, goal, n, total);
        assert s[i := e] == s;
      } else if Expired(e, now) {
        DropAt(i);
        next := i;
      } else if fn(e.key) {
        PromotingKeep(s, i, now, fn, goal, n, total);
        MakePermanent(i);
        n' := n + 1;
      } else {
        PromotingKeep(s, i, now, fn, goal, n, total);
        assert s[i := e] == s;
      }
    }

    /** Sweeps expired entries and makes the chosen live ones permanent, front to back. */
    method PromoteIf(now: int, fn: Key -> bool) returns (n: nat)
      requires Valid()
      modifies this, lru
      ensures Valid() && Contents() == AfterPromote(old(Contents()), now, fn)
      ensures n == Promotions(old(Contents()), now, fn)
    {
      n := 0;
      var i: nat := 0;
      ghost var goal, total := AfterPromote(Contents(), now, fn), Promotions(Contents(), now, fn);
      assert Contents()[0..] == Contents();
      while i < |lru|
        invariant Valid() && forall x :: x in lru ==> x in old(lru)
        invariant Promoting(Contents(), i, now, fn, goal, n, total)
        decreases |lru| - i
      {
        assert lru[i] in lru;
        i, n := PromoteAt(i, now, fn, n, goal, total);
      }
      assert Contents()[..i] == Contents();
    }

    /** Lists live entries from the most recent, sweeping the expired ones it passes. */
    method Entries(now: int, limit: int) returns (entries: seq<Entry>)
      requires Valid()
      modifies this
      ensures Valid() && Contents() == AfterList(old(Contents()), now, limit)
      ensures entries == Listed(old(Contents()), now, limit)
    {
      entries := [];
      var i := 0;
      ghost var left, goal, all := limit, AfterList(Contents(), now, limit), Listed(Contents(), now, limit);
      assert Contents()[0..] == Contents();
      while i < |lru|
        invariant Valid()
        invariant if limit > 0 then left == limit - |entries| > 0 else left == limit
        invariant Listing(Contents(), i, now, left, goal, entries, all)
        decreases |lru| - i
      {
        EntriesAt(lru, i);
        var e := lru[i].entry;
        if Expired(e, now) {
          ListingDrop(Contents(), i, now, left, goal, entries, all);
          DropAt(i);
          continue;
        }
        ListingKeep(Contents(), i, now, left, goal, entries, all);
        entries := entries + [e];
        if limit > 0 && |entries| >= limit {
          return;
        }
        left := if left > 0 then left - 1 else left;
        i := i + 1;
      }
      assert Contents()[..i] == Contents();
    }

    method Keys(now: int) returns (keys: seq<Key>)
      requires Valid()
      modifies this
      ensures Valid() && Contents() == AfterList(old(Contents()), now, 0)
      ensures keys == KeysOf(Listed(old(Contents()), now, 0))
    {
      var entries := Entries(now, 0);
      keys := KeysOf(entries);
    }

    /** A positive time to live sets an expiry; otherwise the entry is permanent. */
    method Store(k: Key, body: string, ttl: int, now: int)
      requires Valid()
      modifies this, lru
      ensures Valid()
      ensures Contents() == AfterSet(old(Contents()), maxSize, Entry(k, body, Expiry(ttl, now)))
    {
      var expires := None;
      if ttl > 0 {
        expires := Some(now + ttl);
      }
      Set(Entry(k, body, expires));
    }

    /** Deletes the chosen ones of these keys, one by one. */
    method DeleteChosen(keys: seq<Key>, fn: Key -> bool) returns (chosen: seq<Key>)
      requires Valid()
      modifies this
      ensures Valid() && Contents() == WithoutAll(old(Contents()), chosen)
      ensures forall k :: k in chosen <==> fn(k) && k in keys
    {
      ghost var before := Contents();
      chosen := [];
      for i := 0 to |keys|
        invariant Valid() && Contents() == WithoutAll(before, chosen)
        invariant forall k :: k in chosen <==> fn(k) && k in keys[..i]
      {
        assert keys[..i + 1] == keys[..i] + [keys[i]];
        if fn(keys[i]) {
          Delete(keys[i]);
          chosen := chosen + [keys[i]];
        }
      }
      assert keys[..|keys|] == keys;
    }

    /** Deletes the live entries whose keys are chosen, and every expired entry. */
    method PurgeCollect(now: int, fn: Key -> bool) returns (purged: seq<Key>)
      requires Valid()
      modifies this
      ensures Valid() && Contents() == Purged(AfterList(old(Contents()), now, 0), fn)
      ensures forall k :: k in purged <==> fn(k) && Got(old(Contents()), k, now).Some?
    {
      var keys := Keys(now);
      purged := DeleteChosen(keys, fn);
      ChosenPurged(old(Contents()), now, fn, purged);
    }
  }
}
