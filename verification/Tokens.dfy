/** What a channel token is: sixteen bytes in unpadded base64url, as
    `internal/relay/relay.go` draws them and reads them back. */
module Tokens {
  import opened Options
  import opened RelayPhones

  // ---------- Letters and their six bits ----------

  function Sextet(c: char): (n: nat)
    requires Base64Char(c)
    ensures n < 64
  {
    if 'A' <= c <= 'Z' then c as int - 'A' as int
    else if 'a' <= c <= 'z' then c as int - 'a' as int + 26
    else if '0' <= c <= '9' then c as int - '0' as int + 52
    else if c == '-' then 62 else 63
  }

  function Letter(n: nat): (c: char)
    requires n < 64
    ensures Base64Char(c) && Sextet(c) == n
  {
    if n < 26 then ('A' as int + n) as char
    else if n < 52 then ('a' as int + (n - 26)) as char
    else if n < 62 then ('0' as int + (n - 52)) as char
    else if n == 62 then '-' else '_'
  }

  predicate Letters(s: string) { forall i :: 0 <= i < |s| ==> Base64Char(s[i]) }

  predicate Below(v: seq<nat>, limit: nat) { forall i :: 0 <= i < |v| ==> v[i] < limit }

  function Sextets(s: string): (v: seq<nat>)
    requires Letters(s)
    ensures |v| == |s| && forall i :: 0 <= i < |s| ==> v[i] == Sextet(s[i])
  {
    seq(|s|, i requires 0 <= i < |s| => Sextet(s[i]))
  }

  function Spelled(v: seq<nat>): (s: string)
    requires Below(v, 64)
    ensures |s| == |v| && forall i :: 0 <= i < |v| ==> s[i] == Letter(v[i])
  {
    seq(|v|, i requires 0 <= i < |v| => Letter(v[i]))
  }

  // ---------- Six bits and eight ----------

  /** Four sextets are three bytes, two or three at the end one or two; what is
      left of the last sextet is ignored. */
  function BytesOf(v: seq<nat>): Option<seq<nat>> {
    if v == [] then Some([])
    else if |v| == 1 then None
    else if |v| == 2 then Some([First(v[0], v[1])])
    else if |v| == 3 then Some([First(v[0], v[1]), Second(v[1], v[2])])
    else
      var rest := BytesOf(v[4..]);
      if rest == None then None
      else Some([First(v[0], v[1]), Second(v[1], v[2]), Third(v[2], v[3])] + rest.value)
  }

  function First(p: nat, q: nat): nat { p * 4 + q / 16 }

  function Second(q: nat, r: nat): nat { q % 16 * 16 + r / 4 }

  function Third(r: nat, t: nat): nat { r % 4 * 64 + t }

  function SextetsOf(b: seq<nat>): (v: seq<nat>)
    requires Below(b, 256)
  {
    if b == [] then []
    else if |b| == 1 then Group(b[0], 0, 0)[..2]
    else if |b| == 2 then Group(b[0], b[1], 0)[..3]
    else Group(b[0], b[1], b[2]) + SextetsOf(b[3..])
  }

  function Group(x: nat, y: nat, z: nat): (v: seq<nat>)
    requires x < 256 && y < 256 && z < 256
    ensures |v| == 4 && Below(v, 64)
  {
    [x / 4, x % 4 * 16 + y / 16, y % 16 * 4 + z / 64, z % 64]
  }

  lemma GroupGivesBytes(x: nat, y: nat, z: nat)
    requires x < 256 && y < 256 && z < 256
    ensures var v := Group(x, y, z);
      First(v[0], v[1]) == x && Second(v[1], v[2]) == y && Third(v[2], v[3]) == z
  {}

  lemma FourSextets(v: seq<nat>, rest: seq<nat>)
    requires |v| == 4
    ensures BytesOf(v + rest)
         == if BytesOf(rest) == None then None
            else Some([First(v[0], v[1]), Second(v[1], v[2]), Third(v[2], v[3])] + BytesOf(rest).value)
  {
    assert (v + rest)[4..] == rest;
  }

  lemma GroupInFront(x: nat, y: nat, z: nat, rest: seq<nat>, b: seq<nat>)
    requires x < 256 && y < 256 && z < 256 && BytesOf(rest) == Some(b)
    ensures BytesOf(Group(x, y, z) + rest) == Some([x, y, z] + b)
  {
    GroupGivesBytes(x, y, z);
    FourSextets(Group(x, y, z), rest);
  }

  lemma LastSextets(v: seq<nat>)
    requires |v| == 4
    ensures BytesOf(v[..2]) == Some([First(v[0], v[1])])
    ensures BytesOf(v[..3]) == Some([First(v[0], v[1]), Second(v[1], v[2])])
  {}

  lemma ShortGroup(x: nat, y: nat)
    requires x < 256 && y < 256
    ensures BytesOf(Group(x, y, 0)[..2]) == Some([x]) && BytesOf(Group(x, y, 0)[..3]) == Some([x, y])
  {
    GroupGivesBytes(x, y, 0);
    LastSextets(Group(x, y, 0));
  }

  lemma {:induction false} SextetsGiveBytes(b: seq<nat>)
    requires Below(b, 256)
    ensures Below(SextetsOf(b), 64) && BytesOf(SextetsOf(b)) == Some(b)
    decreases |b|
  {
    if |b| >= 3 {
      SextetsGiveBytes(b[3..]);
      GroupInFront(b[0], b[1], b[2], SextetsOf(b[3..]), b[3..]);
      assert b == [b[0], b[1], b[2]] + b[3..];
    } else if b != [] {
      ShortGroup(b[0], if |b| == 2 then b[1] else 0);
      assert b == if |b| == 2 then [b[0], b[1]] else [b[0]];
    }
  }

  // ---------- Tokens ----------

  function Bytes64(s: string): Option<seq<nat>>
    requires Letters(s)
  {
    BytesOf(Sextets(s))
  }

  function Text64(b: seq<nat>): string
    requires Below(b, 256) && Below(SextetsOf(b), 64)
  {
    Spelled(SextetsOf(b))
  }

  /** Three bytes for every four letters, and one less than the letters left over. */
  lemma {:induction false} DecodedSize(v: seq<nat>)
    ensures BytesOf(v) == None <==> |v| % 4 == 1
    ensures BytesOf(v).Some? ==> |BytesOf(v).value| == |v| / 4 * 3 + if |v| % 4 == 0 then 0 else |v| % 4 - 1
  {
    if |v| >= 4 {
      DecodedSize(v[4..]);
      assert |v[4..]| % 4 == |v| % 4 && |v[4..]| / 4 == |v| / 4 - 1;
    }
  }

  /** The relay honours exactly the tokens that decode to sixteen bytes. */
  lemma TokenExactlyWhen(token: string)
    ensures SixteenByteToken(token) <==>
              var s := WithoutBreaks(token);
              Letters(s) && Bytes64(s).Some? && |Bytes64(s).value| == 16
  {
    var s := WithoutBreaks(token);
    assert Letters(s) <==> forall c :: c in s ==> Base64Char(c);
    if Letters(s) {
      DecodedSize(Sextets(s));
    }
  }

  lemma {:induction false} LettersAreNoBreaks(s: string)
    requires Letters(s)
    ensures WithoutBreaks(s) == s
  {
    if s != "" {
      LettersAreNoBreaks(s[1..]);
      assert s == [s[0]] + s[1..];
    }
  }

  /** So every token the relay itself draws is honoured when the bridge sends it
      back, and reads back as the bytes drawn. */
  lemma DrawnTokensPass(b: seq<nat>)
    requires Below(b, 256) && |b| == 16
    ensures Below(SextetsOf(b), 64) && Letters(Text64(b)) && Bytes64(Text64(b)) == Some(b)
    ensures SixteenByteToken(Text64(b))
  {
    SextetsGiveBytes(b);
    assert Sextets(Text64(b)) == SextetsOf(b);
    LettersAreNoBreaks(Text64(b));
    TokenExactlyWhen(Text64(b));
  }
}
