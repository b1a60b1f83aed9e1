/** Well-formed UTF-8, byte by byte as `utf8.ValidString` checks it, and what it
    means. */
module Utf8 {

  predicate Continuation(b: char, lo: int, hi: int) { lo <= b as int <= hi }

  /** The check on the bytes (section 4 of RFC 3629). */
  predicate ValidUtf8(s: string) {
    if s == "" then true
    else
      var b := s[0] as int;
      if b < 0x80 then ValidUtf8(s[1..])
      else if 0xC2 <= b <= 0xDF then |s| >= 2 && Continuation(s[1], 0x80, 0xBF) && ValidUtf8(s[2..])
      else if 0xE0 <= b <= 0xEF then
        && |s| >= 3
        && Continuation(s[1], if b == 0xE0 then 0xA0 else 0x80, if b == 0xED then 0x9F else 0xBF)
        && Continuation(s[2], 0x80, 0xBF) && ValidUtf8(s[3..])
      else if 0xF0 <= b <= 0xF4 then
        && |s| >= 4
        && Continuation(s[1], if b == 0xF0 then 0x90 else 0x80, if b == 0xF4 then 0x8F else 0xBF)
        && Continuation(s[2], 0x80, 0xBF) && Continuation(s[3], 0x80, 0xBF) && ValidUtf8(s[4..])
      else false
  }

  // ---------- What it means ----------

  /** A Unicode scalar value: a code point that is not a surrogate. */
  predicate IsScalar(n: int) { 0 <= n <= 0xD7FF || 0xE000 <= n <= 0x10FFFF }

  /** A byte that continues a code, with its six bits. */
  function Tail(bits: int): char
    requires 0 <= bits
  {
    (0x80 + bits % 64) as char
  }

  /** The code of a scalar value: its bits, seven in one byte, or up to eleven,
      sixteen or twenty-one spread over two, three or four. */
  function Encoded(n: int): (code: string)
    requires IsScalar(n)
    ensures code != ""
  {
    if n < 0x80 then [n as char]
    else if n < 0x800 then [(0xC0 + n / 64) as char, Tail(n)]
    else if n < 0x1_0000 then [(0xE0 + n / 4096) as char, Tail(n / 64), Tail(n)]
    else [(0xF0 + n / 0x4_0000) as char, Tail(n / 4096), Tail(n / 64), Tail(n)]
  }

  predicate AllScalars(ns: seq<int>) { forall i :: 0 <= i < |ns| ==> IsScalar(ns[i]) }

  function EncodedAll(ns: seq<int>): string
    requires AllScalars(ns)
  {
    if ns == [] then "" else Encoded(ns[0]) + EncodedAll(ns[1..])
  }

  ghost predicate EncodesText(s: string) { exists ns: seq<int> :: AllScalars(ns) && EncodedAll(ns) == s }

  lemma TwoByteCode(n: int, rest: string)
    requires 0x80 <= n < 0x800 && ValidUtf8(rest)
    ensures ValidUtf8(Encoded(n) + rest)
  {
    assert (Encoded(n) + rest)[2..] == rest;
  }

  lemma ThreeByteCode(n: int, rest: string)
    requires 0x800 <= n < 0x1_0000 && IsScalar(n) && ValidUtf8(rest)
    ensures ValidUtf8(Encoded(n) + rest)
  {
    assert (Encoded(n) + rest)[3..] == rest;
  }

  lemma FourByteCode(n: int, rest: string)
    requires 0x1_0000 <= n <= 0x10FFFF && ValidUtf8(rest)
    ensures ValidUtf8(Encoded(n) + rest)
  {
    assert (Encoded(n) + rest)[4..] == rest;
  }

  lemma CodeInFront(n: int, rest: string)
    requires IsScalar(n) && ValidUtf8(rest)
    ensures ValidUtf8(Encoded(n) + rest)
  {
    if n < 0x80 {
      assert (Encoded(n) + rest)[1..] == rest;
    } else if n < 0x800 {
      TwoByteCode(n, rest);
    } else if n < 0x1_0000 {
      ThreeByteCode(n, rest);
    } else {
      FourByteCode(n, rest);
    }
  }

  lemma {:induction false} TextIsValid(ns: seq<int>)
    requires AllScalars(ns)
    ensures ValidUtf8(EncodedAll(ns))
  {
    if ns != [] {
      TextIsValid(ns[1..]);
      CodeInFront(ns[0], EncodedAll(ns[1..]));
    }
  }

  lemma TwoByteScalar(a: int, b: int) returns (n: int)
    requires 0xC2 <= a <= 0xDF && 0x80 <= b <= 0xBF
    ensures IsScalar(n) && Encoded(n) == [a as char, b as char]
  {
    n := (a - 0xC0) * 64 + (b - 0x80);
  }

  lemma ThreeByteScalar(a: int, b: int, c: int) returns (n: int)
    requires 0xE0 <= a <= 0xEF && 0x80 <= b <= 0xBF && 0x80 <= c <= 0xBF
    requires (a == 0xE0 ==> b >= 0xA0) && (a == 0xED ==> b <= 0x9F)
    ensures IsScalar(n) && Encoded(n) == [a as char, b as char, c as char]
  {
    n := (a - 0xE0) * 4096 + (b - 0x80) * 64 + (c - 0x80);
    assert n / 64 == (a - 0xE0) * 64 + (b - 0x80);
  }

  lemma FourByteScalar(a: int, b: int, c: int, d: int) returns (n: int)
    requires 0xF0 <= a <= 0xF4 && 0x80 <= b <= 0xBF && 0x80 <= c <= 0xBF && 0x80 <= d <= 0xBF
    requires (a == 0xF0 ==> b >= 0x90) && (a == 0xF4 ==> b <= 0x8F)
    ensures IsScalar(n) && Encoded(n) == [a as char, b as char, c as char, d as char]
  {
    n := (a - 0xF0) * 0x4_0000 + (b - 0x80) * 4096 + (c - 0x80) * 64 + (d - 0x80);
    assert n / 64 == (a - 0xF0) * 4096 + (b - 0x80) * 64 + (c - 0x80);
    assert n / 4096 == (a - 0xF0) * 64 + (b - 0x80);
  }

  /** The first code of a valid string, and what follows it. */
  lemma FirstCode(s: string) returns (n: int, w: nat)
    requires s != "" && ValidUtf8(s)
    ensures 1 <= w <= |s| && IsScalar(n) && s == Encoded(n) + s[w..] && ValidUtf8(s[w..])
  {
    var a := s[0] as int;
    if a < 0x80 {
      n, w := a, 1;
    } else if a <= 0xDF {
      n := TwoByteScalar(a, s[1] as int);
      w := 2;
    } else if a <= 0xEF {
      n := ThreeByteScalar(a, s[1] as int, s[2] as int);
      w := 3;
    } else {
      n := FourByteScalar(a, s[1] as int, s[2] as int, s[3] as int);
      w := 4;
    }
    assert s == s[..w] + s[w..];
  }

  lemma {:induction false} ValidIsText(s: string) returns (ns: seq<int>)
    requires ValidUtf8(s)
    ensures AllScalars(ns) && EncodedAll(ns) == s
    decreases |s|
  {
    ns := [];
    if s != "" {
      var n, w := FirstCode(s);
      var rest := ValidIsText(s[w..]);
      ns := [n] + rest;
      assert ns[1..] == rest;
    }
  }

  /** The bytes pass the check if and only if they are the codes of some sequence
      of scalar values, one after the other. */
  lemma ValidExactlyWhen(s: string)
    ensures ValidUtf8(s) <==> EncodesText(s)
  {
    if ValidUtf8(s) {
      var ns := ValidIsText(s);
    } else if EncodesText(s) {
      var ns: seq<int> :| AllScalars(ns) && EncodedAll(ns) == s;
      TextIsValid(ns);
    }
  }
}
