/** Building cache keys from requests and taking them apart again. */
module CacheKey {
  import opened Options
  import opened Text

  /** What a key is built from. `pathQuery` is the path with its query string, as the cache normalises it. */
  datatype Request = Request(network: string, verb: string, pathQuery: string, binary: bool, scope: string)

  /** What a key is taken apart into. */
  datatype Parts = Parts(verb: string, pathQuery: string, path: string, scope: string, binary: bool)

  const ACCEPT: string := ":accept="
  const BINARY: string := ":accept=binary"
  const UPSTREAM: string := ":upstream="

  function Suffix(binary: bool, scope: string): string {
    (if binary then BINARY else "") + (if scope != "" then UPSTREAM + scope else "")
  }

  function Build(r: Request): string {
    r.network + ":" + r.verb + ":" + r.pathQuery + Suffix(r.binary, r.scope)
  }

  /** What comes before a character, or all of it. */
  function Before(s: string, c: string): string {
    match Index(s, c)
    case None => s
    case Some(i) => s[..i]
  }

  function Earliest(s: string, a: string, b: string): (end: nat)
    ensures end <= |s|
  {
    var end := |s|;
    var first := match Index(s, a) case Some(j) => if j < end then j else end case None => end;
    match Index(s, b) case Some(j) => if j < first then j else first case None => first
  }

  function Parse(key: string): Option<Parts> {
    match Index(key, ":")
    case None => None
    case Some(i) =>
      if i == |key| - 1 then None
      else
        var tail := key[i + 1..];
        match Index(tail, ":")
        case None => None
        case Some(j) =>
          if j == |tail| - 1 then None else ParseRest(tail[..j], tail[j + 1..])
  }

  /** What follows the second colon. */
  function ParseRest(verb: string, rest: string): Option<Parts> {
    var end := Earliest(rest, ACCEPT, UPSTREAM);
    if end == 0 then None
    else Some(Parts(verb, rest[..end], Before(rest[..end], "?"), ScopeOf(rest[end..]), Contains(rest[end..], BINARY)))
  }

  function ScopeOf(suffix: string): string {
    match Index(suffix, UPSTREAM)
    case None => ""
    case Some(j) => suffix[j + |UPSTREAM|..]
  }

  /** The parser as code, with its separator loop. */
  method ParseCacheKey(key: string) returns (r: Option<Parts>)
    ensures r == Parse(key)
  {
    var tail := key;
    var i := Index(tail, ":");
    if i.None? || i.value == |tail| - 1 {
      return None;
    }
    tail := tail[i.value + 1..];
    i := Index(tail, ":");
    if i.None? || i.value == |tail| - 1 {
      return None;
    }
    r := TakeApart(tail[..i.value], tail[i.value + 1..]);
  }

  method TakeApart(verb: string, rest: string) returns (r: Option<Parts>)
    ensures r == ParseRest(verb, rest)
  {
    var end := PathEnd(rest);
    if end == 0 {
      return None;
    }
    var pathQuery, suffix := rest[..end], rest[end..];
    var scope := "";
    var j := Index(suffix, UPSTREAM);
    if j.Some? {
      scope := suffix[j.value + |UPSTREAM|..];
    }
    var path := pathQuery;
    j := Index(path, "?");
    if j.Some? {
      path := path[..j.value];
    }
    r := Some(Parts(verb, pathQuery, path, scope, Contains(suffix, BINARY)));
  }

  method PathEnd(rest: string) returns (end: nat)
    ensures end == Earliest(rest, ACCEPT, UPSTREAM)
  {
    var separators := [ACCEPT, UPSTREAM];
    end := FirstSeparator(rest, separators);
    assert separators[0] == ACCEPT && separators[1] == UPSTREAM;
  }

  method FirstSeparator(rest: string, separators: seq<string>) returns (end: nat)
    ensures end <= |rest|
    ensures forall k, i :: 0 <= k < |separators| && 0 <= i < end ==> !OccursAt(rest, separators[k], i)
    ensures end == |rest| || exists k :: 0 <= k < |separators| && OccursAt(rest, separators[k], end)
  {
    end := |rest|;
    for n := 0 to |separators|
      invariant end <= |rest|
      invariant forall k, i :: 0 <= k < n && 0 <= i < end ==> !OccursAt(rest, separators[k], i)
      invariant end == |rest| || exists k :: 0 <= k < n && OccursAt(rest, separators[k], end)
    {
      var j := Index(rest, separators[n]);
      if j.Some? && j.value < end {
        end := j.value;
      }
    }
  }

  // ---------------------------------------------------------------------
  // Where separators can occur
  // ---------------------------------------------------------------------

  ghost predicate NoColon(s: string) {
    forall i :: 0 <= i < |s| ==> s[i] != ':'
  }

  /** A string that starts with its only colon. */
  ghost predicate Separator(sep: string) {
    sep != "" && sep[0] == ':' && NoColon(sep[1..])
  }

  lemma SeparatorsAre()
    ensures Separator(ACCEPT) && Separator(BINARY) && Separator(UPSTREAM)
  {
  }

  /** Across a boundary where the right part is empty or starts with a colon, a separator lies on one side. */
  lemma SeparatorSides(a: string, b: string, sep: string, i: nat)
    requires Separator(sep) && (b == "" || b[0] == ':')
    requires OccursAt(a + b, sep, i)
    ensures if i < |a| then OccursAt(a, sep, i) else OccursAt(b, sep, i - |a|)
  {
    OccursInJoin(a, b, sep, i);
    forall m | i < m < i + |sep| ensures (a + b)[m] != ':' {
      assert (a + b)[i + (m - i)] == sep[m - i] && sep[m - i] == sep[1..][m - i - 1];
    }
    assert b != "" ==> (a + b)[|a|] == ':';
  }

  lemma FirstColon(a: string, b: string)
    requires NoColon(a)
    ensures Index(a + ":" + b, ":") == Some(|a|)
    ensures (a + ":" + b)[..|a|] == a && (a + ":" + b)[|a| + 1..] == b
  {
    var s := a + ":" + b;
    assert s[|a|..|a| + 1] == ":";
    forall j | 0 <= j < |a| ensures !OccursAt(s, ":", j) {
      assert s[j..j + 1] == [a[j]];
    }
    IndexIs(s, ":", |a|);
  }

  lemma NoUpstreamInBinary(i: int)
    ensures !OccursAt(BINARY, UPSTREAM, i)
  {
    if 0 <= i && i + |UPSTREAM| <= |BINARY| {
      assert BINARY[i..i + |UPSTREAM|][1] == BINARY[i + 1];
    }
  }

  /** The suffix holds the upstream separator exactly if there is a scope, and the scope follows its first occurrence. */
  lemma SuffixScope(binary: bool, scope: string)
    ensures ScopeOf(Suffix(binary, scope)) == scope
  {
    var left := if binary then BINARY else "";
    var right := if scope != "" then UPSTREAM + scope else "";
    var s := Suffix(binary, scope);
    assert s == left + right;
    SeparatorsAre();
    forall i | OccursAt(s, UPSTREAM, i) ensures i >= |left| && scope != "" {
      SeparatorSides(left, right, UPSTREAM, i);
      NoUpstreamInBinary(i);
    }
    if scope != "" {
      assert s == left + UPSTREAM + scope;
      assert s[|left|..|left| + |UPSTREAM|] == UPSTREAM;
      IndexIs(s, UPSTREAM, |left|);
      assert s[|left| + |UPSTREAM|..] == scope;
    }
  }

  lemma SuffixBinary(binary: bool, scope: string)
    ensures Contains(Suffix(binary, scope), BINARY) <==> binary || Contains(scope, BINARY)
  {
    var left := if binary then BINARY else "";
    var right := if scope != "" then UPSTREAM + scope else "";
    var s := Suffix(binary, scope);
    assert s == left + right;
    SeparatorsAre();
    if binary {
      assert s[0..|BINARY|] == BINARY;
      assert OccursAt(s, BINARY, 0);
    } else {
      assert s == right;
      if Contains(scope, BINARY) {
        OccursInRight(UPSTREAM, scope, BINARY, Index(scope, BINARY).value);
      }
      if Contains(s, BINARY) {
        var i := Index(s, BINARY).value;
        OccursInJoin(UPSTREAM, scope, BINARY, i);
        if i < |UPSTREAM| {
          assert s[i + 1] == BINARY[1] && s[i] == BINARY[0];
          assert UPSTREAM[i] == s[i];
        }
      }
    }
  }

  // ---------------------------------------------------------------------
  // Round trip
  // ---------------------------------------------------------------------

  predicate Separated(r: Request) {
    && r.pathQuery != ""
    && !Contains(r.pathQuery, ACCEPT)
    && !Contains(r.pathQuery, UPSTREAM)
    && (r.binary || !Contains(r.scope, BINARY))
  }

  ghost predicate ColonFree(r: Request) {
    NoColon(r.network) && NoColon(r.verb)
  }

  /** The path ends where the suffix begins exactly if the path holds no separator. */
  lemma EndOfPath(pathQuery: string, binary: bool, scope: string)
    ensures Earliest(pathQuery + Suffix(binary, scope), ACCEPT, UPSTREAM) == |pathQuery| <==>
            !Contains(pathQuery, ACCEPT) && !Contains(pathQuery, UPSTREAM)
  {
    var suffix := Suffix(binary, scope);
    var rest := pathQuery + suffix;
    SeparatorsAre();
    if !Contains(pathQuery, ACCEPT) && !Contains(pathQuery, UPSTREAM) {
      forall i, sep | (sep == ACCEPT || sep == UPSTREAM) && OccursAt(rest, sep, i) ensures i >= |pathQuery| {
        SeparatorSides(pathQuery, suffix, sep, i);
      }
      if binary {
        assert rest[|pathQuery|..|pathQuery| + |ACCEPT|] == ACCEPT;
        IndexIs(rest, ACCEPT, |pathQuery|);
      } else if scope != "" {
        assert rest[|pathQuery|..|pathQuery| + |UPSTREAM|] == UPSTREAM;
        IndexIs(rest, UPSTREAM, |pathQuery|);
      }
    } else {
      var sep := if Contains(pathQuery, ACCEPT) then ACCEPT else UPSTREAM;
      OccursInLeft(pathQuery, suffix, sep, Index(pathQuery, sep).value);
    }
  }

  lemma ParseBuilt(r: Request)
    requires ColonFree(r)
    ensures var rest := r.pathQuery + Suffix(r.binary, r.scope);
            var end := Earliest(rest, ACCEPT, UPSTREAM);
            Parse(Build(r)) ==
            if end == 0 then None
            else Some(Parts(r.verb, rest[..end], Before(rest[..end], "?"), ScopeOf(rest[end..]), Contains(rest[end..], BINARY)))
  {
    var rest := r.pathQuery + Suffix(r.binary, r.scope);
    assert Build(r) == r.network + ":" + (r.verb + ":" + rest);
    FirstColon(r.network, r.verb + ":" + rest);
    FirstColon(r.verb, rest);
  }

  ghost function PartsOf(r: Request): Parts {
    Parts(r.verb, r.pathQuery, Before(r.pathQuery, "?"), r.scope, r.binary)
  }

  /** Parsing a built key returns the parts it was built from exactly when the parts are separated. */
  lemma RoundTrip(r: Request)
    requires ColonFree(r)
    ensures Parse(Build(r)) == Some(PartsOf(r)) <==> Separated(r)
  {
    var suffix := Suffix(r.binary, r.scope);
    var rest := r.pathQuery + suffix;
    ParseBuilt(r);
    EndOfPath(r.pathQuery, r.binary, r.scope);
    SuffixScope(r.binary, r.scope);
    SuffixBinary(r.binary, r.scope);
    assert rest[..|r.pathQuery|] == r.pathQuery && rest[|r.pathQuery|..] == suffix;
  }

  lemma NetworkFirst(r: Request)
    requires NoColon(r.network)
    ensures Index(Build(r), ":") == Some(|r.network|) && Build(r)[..|r.network|] == r.network
  {
    var tail := r.verb + ":" + r.pathQuery + Suffix(r.binary, r.scope);
    assert Build(r) == r.network + ":" + tail;
    FirstColon(r.network, tail);
  }

  /** So on separated parts different requests have different keys. */
  lemma BuildInjective(r: Request, s: Request)
    requires ColonFree(r) && Separated(r) && ColonFree(s) && Separated(s) && Build(r) == Build(s)
    ensures r == s
  {
    RoundTrip(r);
    RoundTrip(s);
    NetworkFirst(r);
    NetworkFirst(s);
  }

  /** A network's watcher claims the keys with its prefix. */
  predicate OwnsKey(network: string, key: string) {
    HasPrefix(key, network + ":")
  }

  lemma OwnsExactlyItsKeys(mine: string, r: Request)
    requires NoColon(mine) && NoColon(r.network)
    ensures OwnsKey(mine, Build(r)) <==> mine == r.network
  {
    var key, prefix := Build(r), mine + ":";
    NetworkFirst(r);
    assert key[|r.network|..|r.network| + 1][0] == key[|r.network|];
    if mine == r.network {
      assert key[..|prefix|] == prefix;
    }
    if OwnsKey(mine, key) {
      assert key[..|prefix|] == prefix && key[|mine|] == prefix[|mine|];
      assert key[|mine|..|mine| + 1] == ":";
      assert OccursAt(key, ":", |mine|);
      assert key[..|mine|] == mine;
      assert forall i :: 0 <= i < |mine| ==> key[i] == mine[i];
    }
  }

  /** The path of a key, or nothing if it does not parse. */
  function KeyPath(key: string): string {
    match Parse(key)
    case None => ""
    case Some(parts) => parts.path
  }

  // ---------------------------------------------------------------------
  // Keys whose path holds a separator
  // ---------------------------------------------------------------------

  /** The earliest occurrence of either text, if there is one. */
  lemma EarliestIs(s: string, a: string, b: string)
    requires a != "" && b != "" && a[0] == b[0]
    ensures var end := Earliest(s, a, b);
            && (forall i :: OccursAt(s, a, i) || OccursAt(s, b, i) ==> end <= i)
            && (end < |s| ==> s[end] == a[0])
  {
    var end := Earliest(s, a, b);
    if end < |s| {
      var sub := if OccursAt(s, a, end) then a else b;
      assert OccursAt(s, sub, end);
      assert s[end..end + |sub|][0] == s[end];
    }
  }

  /** The end of the path in a key is the end of the path it was built from, or one of its colons. */
  lemma EndIsColon(pathQuery: string, binary: bool, scope: string)
    ensures var end := Earliest(pathQuery + Suffix(binary, scope), ACCEPT, UPSTREAM);
            end <= |pathQuery| && (end < |pathQuery| ==> pathQuery[end] == ':')
  {
    var rest := pathQuery + Suffix(binary, scope);
    EndOfPath(pathQuery, binary, scope);
    EarliestIs(rest, ACCEPT, UPSTREAM);
    if Contains(pathQuery, ACCEPT) {
      OccursInLeft(pathQuery, Suffix(binary, scope), ACCEPT, Index(pathQuery, ACCEPT).value);
    } else if Contains(pathQuery, UPSTREAM) {
      OccursInLeft(pathQuery, Suffix(binary, scope), UPSTREAM, Index(pathQuery, UPSTREAM).value);
    }
  }

  /** The path of a built key is the path it was built from, or that path up to one of its colons. */
  lemma KeyPathCut(r: Request)
    requires ColonFree(r)
    ensures var cut, path := KeyPath(Build(r)), Before(r.pathQuery, "?");
            cut <= path && (|cut| < |path| ==> path[|cut|] == ':')
  {
    var rest := r.pathQuery + Suffix(r.binary, r.scope);
    var end := Earliest(rest, ACCEPT, UPSTREAM);
    ParseBuilt(r);
    EndIsColon(r.pathQuery, r.binary, r.scope);
    assert rest[..end] == r.pathQuery[..end];
    BeforeCut(r.pathQuery, end);
  }

  /** Cutting a text and then taking what comes before a question mark only cuts it further. */
  lemma BeforeCut(s: string, end: nat)
    requires end <= |s| && (end < |s| ==> s[end] == ':')
    ensures var cut, path := Before(s[..end], "?"), Before(s, "?");
            cut <= path && (|cut| < |path| ==> path[|cut|] == ':')
  {
    assert s == s[..end] + s[end..];
    if Index(s[..end], "?").Some? {
      var i := Index(s[..end], "?").value;
      OccursInLeft(s[..end], s[end..], "?", i);
      forall j | 0 <= j < i ensures !OccursAt(s, "?", j) {
        assert !OccursAt(s[..end], "?", j);
        assert s[j..j + 1] == s[..end][j..j + 1];
      }
      IndexIs(s, "?", i);
    } else if Index(s, "?").Some? {
      var i := Index(s, "?").value;
      if i < end {
        OccursInJoin(s[..end], s[end..], "?", i);
      }
      assert s[i..i + 1][0] == s[i];
    }
  }

  /** And it is all of that path exactly if no separator cuts it. */
  lemma KeyPathWhole(r: Request)
    requires ColonFree(r) && r.pathQuery != "" && !Contains(r.pathQuery, ACCEPT) && !Contains(r.pathQuery, UPSTREAM)
    ensures KeyPath(Build(r)) == Before(r.pathQuery, "?")
  {
    var rest := r.pathQuery + Suffix(r.binary, r.scope);
    ParseBuilt(r);
    EndOfPath(r.pathQuery, r.binary, r.scope);
    assert rest[..|r.pathQuery|] == r.pathQuery;
  }

  /** The query is what is cut off, all of it and nothing else. */
  lemma BeforeMeans(s: string)
    ensures Before(s, "?") <= s && Free(Before(s, "?"), '?')
    ensures |Before(s, "?")| < |s| ==> s[|Before(s, "?")|] == '?'
  {
    var r := Index(s, "?");
    forall i | 0 <= i < |s| && s[i] == '?' ensures r.Some? && r.value <= i {
      assert s[i..i + 1] == "?";
      assert OccursAt(s, "?", i);
    }
    if r.Some? {
      assert s[r.value..r.value + 1][0] == s[r.value];
    }
  }

  /** A text without colons holds no separator, one without question marks no query. */
  lemma PlainText(s: string)
    ensures Free(s, ':') ==> !Contains(s, ACCEPT) && !Contains(s, UPSTREAM)
    ensures Free(s, '?') ==> Before(s, "?") == s
  {
    forall sep, i | (sep == ACCEPT || sep == UPSTREAM || sep == "?") && OccursAt(s, sep, i) ensures s[i] == sep[0] {
      assert s[i..i + |sep|][0] == s[i];
    }
  }
}
