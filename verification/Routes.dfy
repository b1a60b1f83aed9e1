/** Which request paths and queries reach the gateway: `internal/bridge/routes.go`.
    A Go string is a string of bytes here, one char below 256 for each. */
module Routes {
  import opened Options
  import opened Utf8

  // ---------- Byte classes ----------

  predicate IsUnreserved(b: char) {
    'a' <= b <= 'z' || 'A' <= b <= 'Z' || '0' <= b <= '9' || b == '-' || b == '.' || b == '_' || b == '~'
  }

  predicate IsSubDelim(b: char) { b in "!$&'()*+,;=:@" }

  predicate IsPathByte(b: char) { IsUnreserved(b) || b == '/' || IsSubDelim(b) }

  predicate IsQueryByte(b: char) { IsUnreserved(b) || b in "!$&'()*+,;=:@/?" }

  predicate IsHex(b: char) { '0' <= b <= '9' || 'a' <= b <= 'f' || 'A' <= b <= 'F' }

  function Unhex(b: char): (n: nat)
    requires IsHex(b)
    ensures n < 16
  {
    if '0' <= b <= '9' then b as int - '0' as int
    else if 'a' <= b <= 'f' then b as int - 'a' as int + 10
    else b as int - 'A' as int + 10
  }

  function Pair(hi: char, lo: char): (b: char)
    requires IsHex(hi) && IsHex(lo)
    ensures b as int < 256
  {
    (Unhex(hi) * 16 + Unhex(lo)) as char
  }

  // ---------- Decoding ----------

  /** An escape at the head of `s`. */
  predicate Escaped(s: string) { 3 <= |s| && s[0] == '%' && IsHex(s[1]) && IsHex(s[2]) }

  /** What `url.PathUnescape` returns. */
  function Unescape(s: string): Option<string> {
    if s == "" then Some("")
    else if s[0] != '%' then
      var rest := Unescape(s[1..]);
      if rest.Some? then Some([s[0]] + rest.value) else None
    else if !Escaped(s) then None
    else
      var rest := Unescape(s[3..]);
      if rest.Some? then Some([Pair(s[1], s[2])] + rest.value) else None
  }

  /** No escape may stand for a byte that could be written as itself, or for a
      separator or another escape. */
  predicate MayEscape(b: char) { b != '/' && b != '\\' && b != '%' && !IsUnreserved(b) }

  predicate EscapesOk(s: string) {
    s == "" ||
    if s[0] != '%' then IsPathByte(s[0]) && EscapesOk(s[1..])
    else Escaped(s) && MayEscape(Pair(s[1], s[2])) && EscapesOk(s[3..])
  }

  function Width(s: string): nat
    requires s != "" && EscapesOk(s)
  {
    if s[0] == '%' then 3 else 1
  }

  function Head(s: string): char
    requires s != "" && EscapesOk(s)
  {
    if s[0] == '%' then Pair(s[1], s[2]) else s[0]
  }

  function Decoded(s: string): (d: string)
    requires EscapesOk(s)
  {
    if s == "" then "" else [Head(s)] + Decoded(s[Width(s)..])
  }

  lemma {:induction false} UnescapeDecodes(s: string)
    requires EscapesOk(s)
    ensures Unescape(s) == Some(Decoded(s))
  {
    if s != "" {
      UnescapeDecodes(s[Width(s)..]);
    }
  }

  // ---------- The path check ----------

  function Split(s: string): (parts: seq<string>)
    ensures parts != []
  {
    if s == "" then [""]
    else if s[0] == '/' then [""] + Split(s[1..])
    else var rest := Split(s[1..]); [[s[0]] + rest[0]] + rest[1..]
  }

  predicate HasControlByte(s: string) { exists i :: 0 <= i < |s| && (s[i] as int < 0x20 || s[i] as int == 0x7f) }

  predicate DoubleSlash(s: string) { exists i :: 0 <= i < |s| - 1 && s[i] == '/' && s[i + 1] == '/' }

  predicate DotSegment(s: string) { "." in Split(s) || ".." in Split(s) }

  /** The checks on the raw spelling before the byte loop. */
  predicate LooksLikePath(s: string) {
    && s != "" && s[0] == '/' && !DoubleSlash(s)
    && '?' !in s && '#' !in s && '\\' !in s && '\0' !in s
  }

  /** The checks on the decoded path. */
  predicate CleanPath(d: string) { ValidUtf8(d) && '\\' !in d && !HasControlByte(d) && !DotSegment(d) }

  predicate Accepts(raw: string) { LooksLikePath(raw) && EscapesOk(raw) && CleanPath(Decoded(raw)) }

  datatype CanonicalPath = CanonicalPath(path: string, rawPath: string)

  method HasDotSegment(d: string) returns (found: bool)
    ensures found == DotSegment(d)
  {
    var segments := Split(d);
    for k := 0 to |segments|
      invariant "." !in segments[..k] && ".." !in segments[..k]
    {
      if segments[k] == "." || segments[k] == ".." {
        return true;
      }
      assert segments[..k + 1] == segments[..k] + [segments[k]];
    }
    assert segments[..|segments|] == segments;
    return false;
  }

  method CanonicalizePath(raw: string) returns (result: Option<CanonicalPath>)
    ensures result == if Accepts(raw) then Some(CanonicalPath(Decoded(raw), raw)) else None
  {
    if !LooksLikePath(raw) {
      return None;
    }
    var i := 0;
    while i < |raw|
      invariant 0 <= i <= |raw| && EscapesOk(raw) == EscapesOk(raw[i..])
    {
      var b := raw[i];
      if b != '%' {
        if !IsPathByte(b) {
          return None;
        }
        assert raw[i..][1..] == raw[i + 1..];
        i := i + 1;
        continue;
      }
      if i + 2 >= |raw| || !IsHex(raw[i + 1]) || !IsHex(raw[i + 2]) {
        return None;
      }
      var decoded := Pair(raw[i + 1], raw[i + 2]);
      if decoded == '/' || decoded == '\\' || decoded == '%' || IsUnreserved(decoded) {
        return None;
      }
      assert raw[i..][3..] == raw[i + 3..];
      i := i + 3;
    }
    UnescapeDecodes(raw);
    var decoded := Unescape(raw);
    if decoded == None || !ValidUtf8(decoded.value) || '\\' in decoded.value || HasControlByte(decoded.value) {
      return None;
    }
    var dots := HasDotSegment(decoded.value);
    if dots {
      return None;
    }
    return Some(CanonicalPath(decoded.value, raw));
  }

  /** Accepts queries of the production of section 3.4 of RFC 3986. */
  method ValidateRawQuery(raw: string) returns (ok: bool)
    ensures ok <==> WellFormedQuery(raw)
  {
    var i := 0;
    while i < |raw|
      invariant 0 <= i <= |raw| && forall k :: 0 <= k < i ==> QueryByteOk(raw, k)
    {
      var b := raw[i];
      if b as int >= 0x80 || b as int < 0x21 || b as int == 0x7f || b == '#' {
        assert !QueryByteOk(raw, i);
        return false;
      }
      if b == '%' {
        if i + 2 >= |raw| || !IsHex(raw[i + 1]) || !IsHex(raw[i + 2]) {
          assert !QueryByteOk(raw, i);
          return false;
        }
        assert QueryByteOk(raw, i) && QueryByteOk(raw, i + 1) && QueryByteOk(raw, i + 2);
        i := i + 3;
        continue;
      }
      if !IsQueryByte(b) {
        assert !QueryByteOk(raw, i);
        return false;
      }
      i := i + 1;
    }
    return true;
  }

  predicate QueryByteOk(raw: string, i: int)
    requires 0 <= i < |raw|
  {
    if raw[i] == '%' then i + 2 < |raw| && IsHex(raw[i + 1]) && IsHex(raw[i + 2]) else IsQueryByte(raw[i])
  }

  /** Every percent sign starts an escape, every other byte is a query byte. */
  predicate WellFormedQuery(raw: string) { forall i :: 0 <= i < |raw| ==> QueryByteOk(raw, i) }

  // ---------- What decoding keeps ----------

  lemma PrependHead(s: string, part: string)
    requires s != "" && EscapesOk(s) && EscapesOk(part)
    ensures EscapesOk(s[..Width(s)] + part) && Decoded(s[..Width(s)] + part) == [Head(s)] + Decoded(part)
  {
    var t := s[..Width(s)] + part;
    assert t[Width(s)..] == part;
  }

  lemma SplitHead(s: string)
    requires s != "" && EscapesOk(s) && s[0] != '/'
    ensures var rest := Split(s[Width(s)..]); Split(s) == [s[..Width(s)] + rest[0]] + rest[1..]
  {
    if s[0] == '%' {
      assert s[1..][1..] == s[2..] && s[2..][1..] == s[3..];
      var rest := Split(s[3..]);
      assert Split(s[2..]) == [[s[2]] + rest[0]] + rest[1..];
      assert Split(s[1..]) == [[s[1]] + ([s[2]] + rest[0])] + rest[1..];
      assert [s[0]] + ([s[1]] + ([s[2]] + rest[0])) == s[..3] + rest[0];
    } else {
      assert s[..1] == [s[0]];
    }
  }

  ghost predicate Means(raw: string, d: string) { EscapesOk(raw) && d == Decoded(raw) }

  /** Segment by segment, `ds` is what `parts` decode to. */
  ghost predicate AllMean(parts: seq<string>, ds: seq<string>) {
    |ds| == |parts| && forall i :: 0 <= i < |parts| ==> Means(parts[i], ds[i])
  }

  ghost predicate DecodesPartwise(s: string)
    requires EscapesOk(s)
  {
    AllMean(Split(s), Split(Decoded(s)))
  }

  lemma FirstSegmentChanges(parts: seq<string>, ds: seq<string>, part: string, d: string)
    requires AllMean(parts, ds) && parts != [] && Means(part, d)
    ensures AllMean([part] + parts[1..], [d] + ds[1..]) && AllMean([part] + parts, [d] + ds)
  {}

  lemma SlashStartsSegment(s: string)
    requires s != "" && s[0] == '/' && EscapesOk(s) && DecodesPartwise(s[1..])
    ensures DecodesPartwise(s)
  {
    assert Decoded(s)[1..] == Decoded(s[1..]);
    FirstSegmentChanges(Split(s[1..]), Split(Decoded(s[1..])), "", "");
  }

  lemma ByteExtendsSegment(s: string)
    requires s != "" && s[0] != '/' && EscapesOk(s) && DecodesPartwise(s[Width(s)..])
    ensures DecodesPartwise(s)
  {
    var parts, ds := Split(s[Width(s)..]), Split(Decoded(s[Width(s)..]));
    assert Means(parts[0], ds[0]);
    SplitHead(s);
    PrependHead(s, parts[0]);
    FirstSegmentChanges(parts, ds, s[..Width(s)] + parts[0], [Head(s)] + ds[0]);
    assert Decoded(s)[1..] == Decoded(s[Width(s)..]) && Decoded(s)[0] == Head(s) != '/';
    assert Split(Decoded(s)) == [[Head(s)] + ds[0]] + ds[1..];
  }

  /** Decoding keeps the "/" segmentation: it decodes segment by segment. */
  lemma {:induction false} SegmentsStay(s: string)
    requires EscapesOk(s)
    ensures DecodesPartwise(s)
  {
    if s != "" {
      SegmentsStay(s[Width(s)..]);
      if s[0] == '/' {
        SlashStartsSegment(s);
      } else {
        ByteExtendsSegment(s);
      }
    }
  }

  /** Decoding again changes nothing. */
  lemma {:induction false} DecodedHasNoEscapes(s: string)
    requires EscapesOk(s)
    ensures '%' !in Decoded(s) && Unescape(Decoded(s)) == Some(Decoded(s))
  {
    if s != "" {
      DecodedHasNoEscapes(s[Width(s)..]);
      assert Decoded(s)[1..] == Decoded(s[Width(s)..]);
    }
  }

  lemma {:induction false} DoubleSlashStays(s: string)
    requires EscapesOk(s)
    ensures DoubleSlash(Decoded(s)) <==> DoubleSlash(s)
  {
    if s != "" {
      var tail := s[Width(s)..];
      DoubleSlashStays(tail);
      DoubleSlashHead(Decoded(s));
      if s[0] == '%' {
        SlashShift(s, 3);
      } else {
        DoubleSlashHead(s);
        assert tail != "" ==> (tail[0] == '/' <==> Head(tail) == '/');
      }
    }
  }

  lemma DoubleSlashHead(s: string)
    requires s != ""
    ensures DoubleSlash(s) <==> (2 <= |s| && s[0] == '/' && s[1] == '/') || DoubleSlash(s[1..])
  {
    SlashShift(s, 1);
    if DoubleSlash(s) && !(2 <= |s| && s[0] == '/' && s[1] == '/') {
      var i :| 0 <= i < |s| - 1 && s[i] == '/' && s[i + 1] == '/';
      assert s[1..][i - 1] == '/' && s[1..][(i - 1) + 1] == '/';
    }
  }

  /** Pairs of slashes are found behind `n` bytes that are not slashes. */
  lemma SlashShift(s: string, n: nat)
    requires n <= |s|
    ensures DoubleSlash(s[n..]) ==> DoubleSlash(s)
    ensures (forall k :: 0 <= k < n ==> s[k] != '/') ==> (DoubleSlash(s) <==> DoubleSlash(s[n..]))
  {
    var t := s[n..];
    if DoubleSlash(t) {
      var i :| 0 <= i < |t| - 1 && t[i] == '/' && t[i + 1] == '/';
      assert s[n + i] == '/' && s[(n + i) + 1] == '/';
    }
    if DoubleSlash(s) && forall k :: 0 <= k < n ==> s[k] != '/' {
      var i :| 0 <= i < |s| - 1 && s[i] == '/' && s[i + 1] == '/';
      assert t[i - n] == '/' && t[(i - n) + 1] == '/';
    }
  }

  lemma {:induction false} OnlyPathBytes(s: string, b: char)
    requires EscapesOk(s) && b != '%' && !IsPathByte(b)
    ensures b !in s
  {
    if s != "" {
      OnlyPathBytes(s[Width(s)..], b);
      assert s == s[..Width(s)] + s[Width(s)..];
    }
  }

  /** A decoded path the bridge would act on. */
  predicate GoodPath(d: string) { d != "" && d[0] == '/' && !DoubleSlash(d) && CleanPath(d) }

  /** Whether a spelling is accepted depends on its escapes and on the path it
      decodes to, on nothing else. */
  lemma AcceptedByMeaning(raw: string)
    requires EscapesOk(raw)
    ensures Accepts(raw) <==> GoodPath(Decoded(raw))
  {
    DoubleSlashStays(raw);
    OnlyPathBytes(raw, '?');
    OnlyPathBytes(raw, '#');
    OnlyPathBytes(raw, '\\');
    OnlyPathBytes(raw, '\0');
  }

  /** No accepted path has a "." or ".." segment, in its raw or decoded form. */
  lemma NoDotSegments(raw: string)
    requires Accepts(raw)
    ensures !DotSegment(Decoded(raw)) && !DotSegment(raw)
  {
    SegmentsStay(raw);
    var parts := Split(raw);
    assert Decoded(".") == "." && Decoded("..") == ['.'] + Decoded(".") == "..";
    forall i | 0 <= i < |parts| ensures parts[i] != "." && parts[i] != ".." {
      assert Means(parts[i], Split(Decoded(raw))[i]);
    }
  }

  // ---------- How many spellings a path has ----------

  /** The byte can be written in one way only. */
  predicate OneSpelling(b: char) {
    IsUnreserved(b) || b == '/' || (!IsSubDelim(b) && b as int < 0x9A && b as int % 16 < 10)
  }

  ghost predicate OnlySpelling(raw: string)
    requires Accepts(raw)
  {
    forall other :: Accepts(other) && Decoded(other) == Decoded(raw) ==> other == raw
  }

  lemma {:induction false} SameMeaningSameSpelling(s: string, t: string)
    requires EscapesOk(s) && EscapesOk(t) && Decoded(s) == Decoded(t)
    requires forall i :: 0 <= i < |Decoded(s)| ==> OneSpelling(Decoded(s)[i])
    ensures s == t
  {
    if s != "" && t != "" {
      var d := Decoded(s);
      assert d[0] == Head(s) == Head(t);
      assert Decoded(s[Width(s)..]) == d[1..] && Decoded(t[Width(t)..]) == d[1..];
      SameMeaningSameSpelling(s[Width(s)..], t[Width(t)..]);
      assert s == s[..Width(s)] + s[Width(s)..] && t == t[..Width(t)] + t[Width(t)..];
      SameHead(s, t);
    }
  }

  lemma SameHead(s: string, t: string)
    requires s != "" && t != "" && EscapesOk(s) && EscapesOk(t) && Head(s) == Head(t) && OneSpelling(Head(s))
    ensures Width(s) == Width(t) && s[..Width(s)] == t[..Width(t)]
  {
    if s[0] == '%' && t[0] == '%' {
      assert Unhex(s[1]) == Unhex(t[1]) && Unhex(s[2]) == Unhex(t[2]);
      assert s[1] == t[1] && s[2] == t[2];
    }
  }

  function HexDigit(n: nat): (h: char)
    requires n < 16
    ensures IsHex(h) && Unhex(h) == n
  {
    if n < 10 then ('0' as int + n) as char else ('A' as int + n - 10) as char
  }

  function OtherCase(h: char): (r: char)
    requires IsHex(h)
    ensures IsHex(r) && Unhex(r) == Unhex(h) && (Unhex(h) >= 10 ==> r != h)
  {
    if 'a' <= h <= 'f' then (h as int - 32) as char
    else if 'A' <= h <= 'F' then (h as int + 32) as char else h
  }

  /** Another way to write the first byte. */
  function RespellHead(s: string): (token: string)
    requires s != "" && EscapesOk(s) && Head(s) as int < 256 && !OneSpelling(Head(s))
  {
    var b := Head(s);
    if s[0] != '%' then ['%', HexDigit(b as int / 16), HexDigit(b as int % 16)]
    else if IsSubDelim(b) then [b]
    else ['%', OtherCase(s[1]), OtherCase(s[2])]
  }

  lemma EscapedByte(b: char)
    requires IsSubDelim(b)
    ensures b as int < 256 && MayEscape(b) && Pair(HexDigit(b as int / 16), HexDigit(b as int % 16)) == b
  {}

  lemma OtherEscape(hi: char, lo: char)
    requires IsHex(hi) && IsHex(lo) && !OneSpelling(Pair(hi, lo)) && !IsSubDelim(Pair(hi, lo))
    ensures Pair(OtherCase(hi), OtherCase(lo)) == Pair(hi, lo)
    ensures OtherCase(hi) != hi || OtherCase(lo) != lo
  {
    assert Unhex(hi) >= 10 || Unhex(lo) >= 10;
  }

  lemma EscapeInFront(hi: char, lo: char, b: char, rest: string)
    requires IsHex(hi) && IsHex(lo) && Pair(hi, lo) == b && MayEscape(b) && EscapesOk(rest)
    ensures var t := ['%', hi, lo] + rest; EscapesOk(t) && Decoded(t) == [b] + Decoded(rest)
  {
    var t := ['%', hi, lo] + rest;
    assert t[1] == hi && t[2] == lo && t[3..] == rest;
  }

  lemma ByteInFront(b: char, rest: string)
    requires IsPathByte(b) && b != '%' && EscapesOk(rest)
    ensures var t := [b] + rest; EscapesOk(t) && Decoded(t) == [b] + Decoded(rest)
  {
    assert ([b] + rest)[1..] == rest;
  }

  lemma RespelledHead(s: string, rest: string)
    requires s != "" && EscapesOk(s) && EscapesOk(rest) && !OneSpelling(Head(s)) && Head(s) as int < 256
    ensures var t := RespellHead(s) + rest;
      t != "" && EscapesOk(t) && Decoded(t) == [Head(s)] + Decoded(rest) && RespellHead(s) != s[..Width(s)]
  {
    var b := Head(s);
    if s[0] != '%' {
      EscapedByte(b);
      EscapeInFront(HexDigit(b as int / 16), HexDigit(b as int % 16), b, rest);
    } else if IsSubDelim(b) {
      ByteInFront(b, rest);
    } else {
      var hi, lo := OtherCase(s[1]), OtherCase(s[2]);
      OtherEscape(s[1], s[2]);
      EscapeInFront(hi, lo, b, rest);
      assert RespellHead(s)[1] == hi && RespellHead(s)[2] == lo;
    }
  }

  /** Another spelling of the same path, changed at decoded byte `i`. */
  function Respell(s: string, i: nat): string
    requires EscapesOk(s) && i < |Decoded(s)| && !OneSpelling(Decoded(s)[i])
    requires forall k :: 0 <= k < |Decoded(s)| ==> Decoded(s)[k] as int < 256
    decreases i
  {
    var tail := s[Width(s)..];
    assert Decoded(s)[1..] == Decoded(tail);
    if i == 0 then RespellHead(s) + tail else s[..Width(s)] + Respell(tail, i - 1)
  }

  lemma SameTail(a: string, b: string, tail: string)
    requires a != b
    ensures a + tail != b + tail
  {
    if |a| == |b| {
      assert (a + tail)[..|a|] == a && (b + tail)[..|b|] == b;
    } else {
      assert |a + tail| != |b + tail|;
    }
  }

  lemma {:induction false} RespelledMeansTheSame(s: string, i: nat)
    requires EscapesOk(s) && i < |Decoded(s)| && !OneSpelling(Decoded(s)[i])
    requires forall k :: 0 <= k < |Decoded(s)| ==> Decoded(s)[k] as int < 256
    ensures EscapesOk(Respell(s, i)) && Decoded(Respell(s, i)) == Decoded(s) && Respell(s, i) != s
    decreases i
  {
    var tail := s[Width(s)..];
    assert Decoded(s)[1..] == Decoded(tail);
    if i == 0 {
      RespelledHead(s, tail);
      assert s == s[..Width(s)] + tail;
      SameTail(RespellHead(s), s[..Width(s)], tail);
    } else {
      RespelledMeansTheSame(tail, i - 1);
      PrependHead(s, Respell(tail, i - 1));
      assert (s[..Width(s)] + Respell(tail, i - 1))[Width(s)..] == Respell(tail, i - 1);
    }
  }

  lemma {:induction false} DecodedAreBytes(s: string)
    requires EscapesOk(s)
    ensures forall k :: 0 <= k < |Decoded(s)| ==> Decoded(s)[k] as int < 256
  {
    if s != "" {
      DecodedAreBytes(s[Width(s)..]);
    }
  }

  /** The comment on `canonicalizePath` speaks of one admitted spelling.  A path
      has just one exactly when each of its bytes is unreserved, a "/", or must be
      escaped with two decimal digits; "!" and "%21", or "%3c" and "%3C", name the
      same path. */
  lemma OneSpellingExactlyWhen(raw: string)
    requires Accepts(raw)
    ensures OnlySpelling(raw) <==> forall i :: 0 <= i < |Decoded(raw)| ==> OneSpelling(Decoded(raw)[i])
  {
    if forall i :: 0 <= i < |Decoded(raw)| ==> OneSpelling(Decoded(raw)[i]) {
      forall other | Accepts(other) && Decoded(other) == Decoded(raw) ensures other == raw {
        SameMeaningSameSpelling(raw, other);
      }
    } else {
      var i :| 0 <= i < |Decoded(raw)| && !OneSpelling(Decoded(raw)[i]);
      DecodedAreBytes(raw);
      RespelledMeansTheSame(raw, i);
      var other := Respell(raw, i);
      AcceptedByMeaning(raw);
      AcceptedByMeaning(other);
      assert Accepts(other) && Decoded(other) == Decoded(raw) && other != raw;
    }
  }

  // ---------- Which paths can be reached ----------

  function JoinedBySlash(parts: seq<string>): string
    requires parts != []
  {
    if |parts| == 1 then parts[0] else parts[0] + "/" + JoinedBySlash(parts[1..])
  }

  /** `Split` cuts at every slash and nowhere else. */
  lemma {:induction false} SplitAtSlashes(s: string)
    ensures JoinedBySlash(Split(s)) == s
    ensures forall i :: 0 <= i < |Split(s)| ==> '/' !in Split(s)[i]
  {
    if s != "" {
      var rest := Split(s[1..]);
      SplitAtSlashes(s[1..]);
      assert s == [s[0]] + s[1..];
      if s[0] == '/' {
        assert ([""] + rest)[1..] == rest;
        assert "" + "/" + s[1..] == s;
      } else {
        FirstPartGrows(rest, s[0]);
      }
    }
  }

  lemma FirstPartGrows(parts: seq<string>, b: char)
    requires parts != []
    ensures JoinedBySlash([[b] + parts[0]] + parts[1..]) == [b] + JoinedBySlash(parts)
  {
    var grown := [[b] + parts[0]] + parts[1..];
    if |parts| > 1 {
      assert grown[1..] == parts[1..];
      assert [b] + parts[0] + "/" + JoinedBySlash(parts[1..]) == [b] + (parts[0] + "/" + JoinedBySlash(parts[1..]));
    }
  }

  /** A byte that a path may decode to. */
  predicate Reachable(b: char) { b as int < 256 && b != '%' && b != '\\' }

  /** A spelling of `d`: every byte that has to be escaped is. */
  function Spelled(d: string): string {
    if d == "" then ""
    else if IsUnreserved(d[0]) || d[0] == '/' then [d[0]] + Spelled(d[1..])
    else if d[0] as int < 256 then
      ['%', HexDigit(d[0] as int / 16), HexDigit(d[0] as int % 16)] + Spelled(d[1..])
    else ""
  }

  lemma EscapedIsByte(b: char)
    requires b as int < 256
    ensures Pair(HexDigit(b as int / 16), HexDigit(b as int % 16)) == b
  {}

  lemma {:induction false} SpelledDecodes(d: string)
    requires forall i :: 0 <= i < |d| ==> Reachable(d[i])
    ensures EscapesOk(Spelled(d)) && Decoded(Spelled(d)) == d
  {
    if d != "" {
      var b := d[0];
      SpelledDecodes(d[1..]);
      if IsUnreserved(b) || b == '/' {
        ByteInFront(b, Spelled(d[1..]));
      } else {
        EscapedIsByte(b);
        EscapeInFront(HexDigit(b as int / 16), HexDigit(b as int % 16), b, Spelled(d[1..]));
      }
    }
  }

  lemma {:induction false} ValidBytes(s: string)
    requires ValidUtf8(s)
    ensures forall i :: 0 <= i < |s| ==> s[i] as int < 256
    decreases |s|
  {
    if s != "" {
      var n, w := FirstCode(s);
      ValidBytes(s[w..]);
      forall i | 0 <= i < |s| ensures s[i] as int < 256 {
        assert i >= w ==> s[i] == s[w..][i - w];
      }
    }
  }

  ghost predicate HasSpelling(d: string) { exists raw :: Accepts(raw) && Decoded(raw) == d }

  /** The paths the gateway can be asked for, by some spelling, are exactly the
      texts in UTF-8 that start with a slash, have no two slashes in a row, no
      percent sign, backslash or control byte, and no segment "." or "..". */
  lemma ReachedExactlyWhen(d: string)
    ensures HasSpelling(d) <==>
              && d != "" && d[0] == '/' && EncodesText(d)
              && (forall i :: 0 <= i < |d| ==>
                    d[i] != '%' && d[i] != '\\' && d[i] as int >= 0x20 && d[i] as int != 0x7f)
              && (forall i :: 0 <= i < |d| - 1 ==> d[i] != '/' || d[i + 1] != '/')
              && "." !in Split(d) && ".." !in Split(d)
  {
    ValidExactlyWhen(d);
    if raw :| Accepts(raw) && Decoded(raw) == d {
      AcceptedByMeaning(raw);
      DecodedHasNoEscapes(raw);
      forall i | 0 <= i < |d| - 1 ensures d[i] != '/' || d[i + 1] != '/' {
        assert !DoubleSlash(d);
      }
    }
    if GoodPath(d) && '%' !in d {
      ValidBytes(d);
      SpelledDecodes(d);
      AcceptedByMeaning(Spelled(d));
    }
  }

  lemma OneBytePath(b: char)
    requires IsPathByte(b) && b != '/' && b != '.'
    ensures Accepts(['/', b])
  {
    var s := ['/', b];
    assert s[1..] == [b] && [b][1..] == "";
    assert Decoded([b]) == [b] + Decoded("") == [b];
    assert Decoded(s) == ['/'] + Decoded([b]) == s;
    assert ValidUtf8([b]) && ValidUtf8(s);
    assert Split([b]) == [[b] + ""] + [] && Split(s) == [""] + Split([b]) == ["", [b]];
    AcceptedByMeaning(s);
  }

  lemma NoOneBytePath(b: char)
    requires !IsPathByte(b) || b == '/'
    ensures !Accepts(['/', b])
  {
    var s := ['/', b];
    if b == '/' {
      assert s[0] == '/' && s[0 + 1] == '/';
    } else {
      assert s[1..] == [b];
      assert !EscapesOk([b]);
    }
  }

  /** The bytes that can stand for themselves in a path, and in a query. */
  lemma BytesThatPass(b: char)
    ensures b != '.' ==>
              (Accepts(['/', b]) <==>
                 'A' <= b <= 'Z' || 'a' <= b <= 'z' || '0' <= b <= '9' || b in "-_~!$&'()*+,;=:@")
    ensures WellFormedQuery([b]) <==>
              'A' <= b <= 'Z' || 'a' <= b <= 'z' || '0' <= b <= '9' || b in "-._~!$&'()*+,;=:@/?"
  {
    assert WellFormedQuery([b]) <==> QueryByteOk([b], 0);
    if IsPathByte(b) && b != '/' && b != '.' {
      OneBytePath(b);
    } else if b != '.' {
      NoOneBytePath(b);
    }
  }
}
