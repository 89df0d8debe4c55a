/** String searching, splitting and number parsing as the request paths and cache keys use them. */
module Text {
  import opened Options

  predicate OccursAt(s: string, sub: string, i: int) {
    0 <= i && i + |sub| <= |s| && s[i..i + |sub|] == sub
  }

  /** The first occurrence at or after `from`. */
  function IndexFrom(s: string, sub: string, from: nat): (r: Option<nat>)
    requires from <= |s|
    ensures r.Some? ==> from <= r.value && OccursAt(s, sub, r.value)
    ensures forall i :: from <= i && OccursAt(s, sub, i) ==> r.Some? && r.value <= i
    decreases |s| - from
  {
    if OccursAt(s, sub, from) then Some(from)
    else if from == |s| then None
    else IndexFrom(s, sub, from + 1)
  }

  function Index(s: string, sub: string): (r: Option<nat>)
    ensures r.Some? ==> OccursAt(s, sub, r.value)
    ensures forall i :: OccursAt(s, sub, i) ==> r.Some? && r.value <= i
  {
    IndexFrom(s, sub, 0)
  }

  predicate Contains(s: string, sub: string) {
    Index(s, sub).Some?
  }

  predicate HasPrefix(s: string, p: string) {
    p <= s
  }

  /** An index is the first occurrence if nothing occurs before it. */
  lemma IndexIs(s: string, sub: string, i: nat)
    requires OccursAt(s, sub, i) && forall j :: 0 <= j < i ==> !OccursAt(s, sub, j)
    ensures Index(s, sub) == Some(i)
  {
  }

  /** An occurrence in `a + b` that starts in `b` is one in `b`, and one that ends in `a` is one in `a`. */
  lemma OccursInJoin(a: string, b: string, sub: string, i: nat)
    requires OccursAt(a + b, sub, i)
    ensures i >= |a| ==> OccursAt(b, sub, i - |a|)
    ensures i + |sub| <= |a| ==> OccursAt(a, sub, i)
    ensures forall k :: 0 <= k < |sub| ==> i + k < |a + b| && (a + b)[i + k] == sub[k]
  {
    forall k | 0 <= k < |sub| ensures i + k < |a + b| && (a + b)[i + k] == sub[k] {
      assert (a + b)[i..i + |sub|][k] == (a + b)[i + k];
    }
    if i >= |a| {
      assert b[i - |a|..i - |a| + |sub|] == (a + b)[i..i + |sub|];
    }
    if i + |sub| <= |a| {
      assert a[i..i + |sub|] == (a + b)[i..i + |sub|];
    }
  }

  lemma OccursInRight(a: string, b: string, sub: string, i: nat)
    requires OccursAt(b, sub, i)
    ensures OccursAt(a + b, sub, |a| + i)
  {
    assert (a + b)[|a| + i..|a| + i + |sub|] == b[i..i + |sub|];
  }

  lemma OccursInLeft(a: string, b: string, sub: string, i: nat)
    requires OccursAt(a, sub, i)
    ensures OccursAt(a + b, sub, i)
  {
    assert (a + b)[i..i + |sub|] == a[i..i + |sub|];
  }

  // ---------------------------------------------------------------------
  // Splitting and trimming
  // ---------------------------------------------------------------------

  function TrimLeft(s: string, c: char): string {
    if s != [] && s[0] == c then TrimLeft(s[1..], c) else s
  }

  function TrimRight(s: string, c: char): string {
    if s != [] && s[|s| - 1] == c then TrimRight(s[..|s| - 1], c) else s
  }

  function Trim(s: string, c: char): string {
    TrimRight(TrimLeft(s, c), c)
  }

  function Split(s: string, c: char): (r: seq<string>)
    ensures r != []
  {
    if s == [] then [""]
    else
      var rest := Split(s[1..], c);
      if s[0] == c then [""] + rest else [[s[0]] + rest[0]] + rest[1..]
  }

  function Join(segments: seq<string>, c: char): string {
    if segments == [] then ""
    else if |segments| == 1 then segments[0]
    else segments[0] + [c] + Join(segments[1..], c)
  }

  /** Two segment lists, the last of the one glued to the first of the other. */
  ghost function Glue(s: seq<string>, t: seq<string>): (r: seq<string>)
    requires s != [] && t != []
    ensures |r| == |s| + |t| - 1
  {
    s[..|s| - 1] + [s[|s| - 1] + t[0]] + t[1..]
  }

  lemma GlueHead(x: char, s: seq<string>, t: seq<string>)
    requires s != [] && t != []
    ensures Glue([[x] + s[0]] + s[1..], t) == [[x] + Glue(s, t)[0]] + Glue(s, t)[1..]
  {
    var l := [[x] + s[0]] + s[1..];
    if |s| == 1 {
      assert ([x] + s[0]) + t[0] == [x] + (s[0] + t[0]);
    } else {
      assert l[..|l| - 1] == [l[0]] + s[1..|s| - 1];
      assert s[..|s| - 1] == [s[0]] + s[1..|s| - 1];
    }
  }

  lemma GlueRest(first: string, s: seq<string>, t: seq<string>)
    requires s != [] && t != []
    ensures Glue([first] + s, t) == [first] + Glue(s, t) && Glue([""], t) == t
  {
    assert ([first] + s)[..|s|] == [first] + s[..|s| - 1];
    assert "" + t[0] == t[0];
  }

  /** Splitting a concatenation glues the last segment of the one to the first of the other. */
  lemma {:induction false} SplitConcat(a: string, b: string, c: char)
    ensures Split(a + b, c) == Glue(Split(a, c), Split(b, c))
  {
    var t := Split(b, c);
    if a == [] {
      assert a + b == b;
      GlueRest("", t, t);
    } else {
      SplitConcat(a[1..], b, c);
      assert (a + b)[1..] == a[1..] + b && (a + b)[0] == a[0];
      var rest := Split(a[1..], c);
      if a[0] == c {
        GlueRest("", rest, t);
      } else {
        GlueHead(a[0], rest, t);
      }
    }
  }

  ghost predicate Free(s: string, c: char) {
    forall i :: 0 <= i < |s| ==> s[i] != c
  }

  lemma {:induction false} SplitFree(s: string, c: char)
    requires Free(s, c)
    ensures Split(s, c) == [s]
  {
    if s != [] {
      SplitFree(s[1..], c);
      assert s == [s[0]] + s[1..];
    }
  }

  /** Splitting undoes joining. */
  lemma {:induction false} SplitJoin(segments: seq<string>, c: char)
    requires segments != [] && forall k :: 0 <= k < |segments| ==> Free(segments[k], c)
    ensures Split(Join(segments, c), c) == segments
  {
    var first := segments[0];
    assert Free(first, c);
    SplitFree(first, c);
    if |segments| > 1 {
      var rest := Join(segments[1..], c);
      SplitJoin(segments[1..], c);
      assert Join(segments, c) == first + ([c] + rest);
      SplitConcat(first, [c] + rest, c);
      assert ([c] + rest)[1..] == rest;
      assert Split([c] + rest, c) == [""] + segments[1..];
      assert first + "" == first;
    }
  }

  lemma {:induction false} TrimRightKeeps(a: string, b: string, c: char)
    requires b != "" && b[0] != c
    ensures TrimRight(a + b, c) == a + TrimRight(b, c)
    ensures TrimRight(b, c) != "" && TrimRight(b, c)[0] == b[0]
    decreases |b|
  {
    if b[|b| - 1] == c {
      TrimRightKeeps(a, b[..|b| - 1], c);
      assert (a + b)[..|a + b| - 1] == a + b[..|b| - 1];
    }
  }

  /** What trimming on the right removes is nothing but the character. */
  lemma {:induction false} TrimmedTail(s: string, c: char)
    ensures TrimRight(s, c) <= s
    ensures forall i :: |TrimRight(s, c)| <= i < |s| ==> s[i] == c
  {
    if s != [] && s[|s| - 1] == c {
      TrimmedTail(s[..|s| - 1], c);
    }
  }

  lemma {:induction false} TrimLeftConcat(a: string, b: string, c: char)
    requires b != "" && b[0] != c
    ensures TrimLeft(a + b, c) == TrimLeft(a, c) + b
  {
    if a == [] {
      assert a + b == b;
    } else if a[0] == c {
      TrimLeftConcat(a[1..], b, c);
      assert (a + b)[1..] == a[1..] + b;
    }
  }

  lemma {:induction false} JoinConcat(s: seq<string>, t: seq<string>, c: char)
    requires s != [] && t != []
    ensures Join(s + t, c) == Join(s, c) + [c] + Join(t, c)
  {
    if |s| == 1 {
      assert (s + t)[1..] == t;
    } else {
      assert (s + t)[1..] == s[1..] + t;
      JoinConcat(s[1..], t, c);
    }
  }

  /** A segment that is itself a joined list reads as that list. */
  lemma JoinNested(first: string, inner: seq<string>, rest: seq<string>, c: char)
    requires inner != [] && rest != []
    ensures Join([first, Join(inner, c)] + rest, c) == Join([first] + inner + rest, c)
  {
    var mid := Join(inner, c);
    JoinConcat([first, mid], rest, c);
    JoinConcat([first], [mid], c);
    assert [first] + [mid] == [first, mid];
    JoinConcat([first] + inner, rest, c);
    JoinConcat([first], inner, c);
  }

  // ---------------------------------------------------------------------
  // Percent-encoding
  // ---------------------------------------------------------------------

  function Hex(c: char): (r: Option<nat>)
    ensures r.Some? ==> r.value < 16
  {
    if '0' <= c <= '9' then Some((c - '0') as nat)
    else if 'a' <= c <= 'f' then Some((c - 'a') as nat + 10)
    else if 'A' <= c <= 'F' then Some((c - 'A') as nat + 10)
    else None
  }

  predicate EscapeAt0(s: string) {
    |s| >= 3 && s[0] == '%' && Hex(s[1]).Some? && Hex(s[2]).Some?
  }

  function FirstByte(s: string): char
    requires s != ""
  {
    if EscapeAt0(s) then (16 * Hex(s[1]).value + Hex(s[2]).value) as char else s[0]
  }

  function AfterFirst(s: string): (r: string)
    requires s != ""
    ensures |r| < |s|
  {
    if EscapeAt0(s) then s[3..] else s[1..]
  }

  /** Every byte written as a percent sign and two hexadecimal digits is decoded. */
  function Unescape(s: string): string {
    if s == "" then "" else [FirstByte(s)] + Unescape(AfterFirst(s))
  }

  function HexDigit(n: nat): char
    requires n < 16
  {
    if n < 10 then n as char + '0' else (n - 10) as char + 'A'
  }

  /** Any byte can be written as an escape, and decodes to itself. */
  lemma EscapedByte(n: nat)
    requires n < 256
    ensures Unescape(['%', HexDigit(n / 16), HexDigit(n % 16)]) == [n as char]
  {
    var s := ['%', HexDigit(n / 16), HexDigit(n % 16)];
    assert Hex(s[1]) == Some(n / 16) && Hex(s[2]) == Some(n % 16);
    assert AfterFirst(s) == [] && FirstByte(s) == n as char;
  }

  /** A text without percent signs is its own decoding. */
  lemma {:induction false} UnescapePlain(s: string)
    requires Free(s, '%')
    ensures Unescape(s) == s
  {
    if s != "" {
      UnescapePlain(s[1..]);
    }
  }

  lemma FirstByteStays(a: string, b: string)
    requires a != "" && (b == "" || Hex(b[0]).None?)
    ensures FirstByte(a + b) == FirstByte(a) && AfterFirst(a + b) == AfterFirst(a) + b
  {
    assert EscapeAt0(a + b) <==> EscapeAt0(a);
  }

  /** Decoding goes part by part where the second part cannot complete an escape. */
  lemma {:induction false} UnescapeConcat(a: string, b: string)
    requires b == "" || Hex(b[0]).None?
    ensures Unescape(a + b) == Unescape(a) + Unescape(b)
  {
    if a == "" {
      assert a + b == b;
    } else {
      FirstByteStays(a, b);
      UnescapeConcat(AfterFirst(a), b);
    }
  }

  /** So a joined path decodes segment by segment. */
  lemma {:induction false} UnescapeJoin(segments: seq<string>, decoded: seq<string>)
    requires |segments| == |decoded| && forall k :: 0 <= k < |segments| ==> Unescape(segments[k]) == decoded[k]
    ensures Unescape(Join(segments, '/')) == Join(decoded, '/')
  {
    if |segments| > 1 {
      var rest := Join(segments[1..], '/');
      UnescapeJoin(segments[1..], decoded[1..]);
      assert Join(segments, '/') == segments[0] + (['/'] + rest);
      UnescapeConcat(segments[0], ['/'] + rest);
      assert (['/'] + rest)[1..] == rest;
    } else if |segments| == 1 {
      assert Unescape(segments[0]) == decoded[0];
    }
  }

  /** Segments joined by escaped slashes decode to a path of several segments. */
  function HideSlashes(segments: seq<string>): string {
    if segments == [] then ""
    else if |segments| == 1 then segments[0]
    else segments[0] + "%2F" + HideSlashes(segments[1..])
  }

  lemma EscapedSlash(rest: string)
    ensures Unescape("%2F" + rest) == "/" + Unescape(rest)
  {
    var s := "%2F" + rest;
    assert s[0] == '%' && s[1] == '2' && s[2] == 'F' && s[3..] == rest;
    assert FirstByte(s) == '/' && AfterFirst(s) == rest;
  }

  lemma {:induction false} UnescapeHidden(segments: seq<string>)
    requires forall k :: 0 <= k < |segments| ==> Free(segments[k], '%')
    ensures Unescape(HideSlashes(segments)) == Join(segments, '/')
  {
    if segments != [] {
      assert Free(segments[0], '%');
      UnescapePlain(segments[0]);
    }
    if |segments| > 1 {
      var rest := HideSlashes(segments[1..]);
      UnescapeHidden(segments[1..]);
      assert HideSlashes(segments) == segments[0] + ("%2F" + rest);
      UnescapeConcat(segments[0], "%2F" + rest);
      EscapedSlash(rest);
    }
  }

  // ---------------------------------------------------------------------
  // Numbers
  // ---------------------------------------------------------------------

  const MAX_UINT64: int := 0xFFFF_FFFF_FFFF_FFFF

  predicate IsDigit(c: char) {
    '0' <= c <= '9'
  }

  function Decimal(s: string): (r: Option<nat>)
    ensures r.Some? ==> s != [] && forall i :: 0 <= i < |s| ==> IsDigit(s[i])
  {
    if s == [] then None
    else if !IsDigit(s[|s| - 1]) then None
    else
      var d := (s[|s| - 1] - '0') as nat;
      if |s| == 1 then Some(d)
      else
        match Decimal(s[..|s| - 1])
        case None => None
        case Some(n) => Some(10 * n + d)
  }

  /** A number as it is written. */
  function Digits(n: nat): (s: string)
    ensures s != "" && forall i :: 0 <= i < |s| ==> IsDigit(s[i])
  {
    var last := [(n % 10) as char + '0'];
    if n < 10 then last else Digits(n / 10) + last
  }

  /** Reading undoes writing. */
  lemma {:induction false} DecimalOfDigits(n: nat)
    ensures Decimal(Digits(n)) == Some(n)
  {
    var s, last := Digits(n), [(n % 10) as char + '0'];
    if n < 10 {
      assert s == last && (s[0] - '0') as nat == n;
    } else {
      DecimalOfDigits(n / 10);
      assert s[..|s| - 1] == Digits(n / 10) && s[|s| - 1] == last[0];
      assert (last[0] - '0') as nat == n % 10;
    }
  }

  /** Base 10, 64 bits; no sign, no separators. */
  function ParseUint(s: string): (r: Option<nat>)
    ensures r.Some? ==> r.value <= MAX_UINT64 && s != [] && IsDigit(s[0])
  {
    var r := Decimal(s);
    if r.Some? && r.value <= MAX_UINT64 then r else None
  }

  /** A written number is read back exactly if it fits in 64 bits. */
  lemma ParseDigits(n: nat)
    ensures ParseUint(Digits(n)) == if n <= MAX_UINT64 then Some(n) else None
  {
    DecimalOfDigits(n);
  }
}
