/** The byte strings that are signed and hashed: `internal/protocol/handshake.go`
    and the role labels of `internal/protocol/identity.go`. */
module Encodings {
  import opened Options
  import opened Envelope

  const FIELD_LIMIT := 0x1_0000

  /** A field behind its length, which is cut to 16 bits. */
  function Prefixed(b: Octets): Octets { BigEndian(|b| % FIELD_LIMIT, 2) + b }

  function Fields(fs: seq<Octets>): Octets {
    if fs == [] then [] else Prefixed(fs[0]) + Fields(fs[1..])
  }

  /** A reader of `n` length-prefixed fields: the fields and the bytes left. */
  function Decode(n: nat, b: Octets): Option<(seq<Octets>, Octets)> {
    if n == 0 then Some(([], b))
    else if |b| < 2 || |b| < 2 + Value(b[..2]) then None
    else
      var end := 2 + Value(b[..2]);
      match Decode(n - 1, b[end..])
      case None => None
      case Some(rest) => Some(([b[2..end]] + rest.0, rest.1))
  }

  ghost predicate AllShorter(fs: seq<Octets>, limit: nat) { forall i :: 0 <= i < |fs| ==> |fs[i]| < limit }

  lemma LowBytes(length: nat)
    ensures length % FIELD_LIMIT / 256 % 256 == length / 256 % 256 && length % FIELD_LIMIT % 256 == length % 256
  {
    var q, r := length / FIELD_LIMIT, length % FIELD_LIMIT;
    assert length == 256 * (256 * q + r / 256) + r % 256;
    assert length / 256 == 256 * q + r / 256;
  }

  lemma TwoBytes(n: nat)
    ensures BigEndian(n, 2) == [n / 256 % 256, n % 256]
  {
    assert BigEndian(n / 256, 1) == [n / 256 % 256];
  }

  lemma LengthBytes(b: Octets)
    ensures Prefixed(b) == [|b| / 256 % 256, |b| % 256] + b
  {
    TwoBytes(|b| % FIELD_LIMIT);
    LowBytes(|b|);
  }

  lemma ValueOfTwo(hi: Octet, lo: Octet)
    ensures Value([hi, lo]) == 256 * hi + lo
  {
    assert [hi, lo][..1] == [hi] && [hi][..0] == [];
    assert Value([hi]) == 256 * Value([]) + hi;
  }

  lemma ReadBack(p: Octets, hi: Octet, lo: Octet, f: Octets, rest: Octets)
    requires p == [hi, lo] + f && 256 * hi + lo == |f|
    ensures var b := p + rest;
      && 2 + |f| <= |b| && Value(b[..2]) == |f| && b[2..2 + |f|] == f && b[2 + |f|..] == rest
  {
    ValueOfTwo(hi, lo);
    assert (p + rest)[..2] == [hi, lo];
  }

  lemma PrefixGivesLength(f: Octets, rest: Octets)
    requires |f| < FIELD_LIMIT
    ensures var b := Prefixed(f) + rest;
      && 2 + |f| <= |b| && Value(b[..2]) == |f| && b[2..2 + |f|] == f && b[2 + |f|..] == rest
  {
    LengthBytes(f);
    ReadBack(Prefixed(f), |f| / 256 % 256, |f| % 256, f, rest);
  }

  /** Round trip: what was encoded is read back, whatever follows it. */
  lemma {:induction false} DecodeReadsFields(fs: seq<Octets>, rest: Octets)
    requires AllShorter(fs, FIELD_LIMIT)
    ensures Decode(|fs|, Fields(fs) + rest) == Some((fs, rest))
  {
    if fs == [] {
      assert Fields(fs) + rest == rest;
    } else {
      var after := Fields(fs[1..]) + rest;
      assert Fields(fs) + rest == Prefixed(fs[0]) + after;
      PrefixGivesLength(fs[0], after);
      DecodeReadsFields(fs[1..], rest);
      assert [fs[0]] + fs[1..] == fs;
    }
  }

  lemma FieldsAreUnique(fs: seq<Octets>, gs: seq<Octets>)
    requires |fs| == |gs| && AllShorter(fs, FIELD_LIMIT) && AllShorter(gs, FIELD_LIMIT)
    ensures Fields(fs) == Fields(gs) <==> fs == gs
  {
    DecodeReadsFields(fs, []);
    DecodeReadsFields(gs, []);
    assert Fields(fs) + [] == Fields(fs) && Fields(gs) + [] == Fields(gs);
  }

  // ---------- The limit is exact ----------

  function Zeros(n: nat): (z: Octets)
    ensures |z| == n && forall i :: 0 <= i < n ==> z[i] == 0
  {
    seq(n, _ => 0)
  }

  ghost predicate UniqueUpTo(limit: nat) {
    forall fs: seq<Octets>, gs: seq<Octets> {:trigger Fields(fs), Fields(gs)} ::
      |fs| == |gs| && AllShorter(fs, limit) && AllShorter(gs, limit) && Fields(fs) == Fields(gs) ==> fs == gs
  }

  lemma TwoFields(f: Octets, g: Octets)
    ensures Fields([f, g]) == Prefixed(f) + Prefixed(g)
  {
    assert [f, g][1..] == [g] && [g][1..] == [];
    assert Fields([g]) == Prefixed(g) + Fields([]) == Prefixed(g);
  }

  /** A field whose length wraps to zero can trade places with an empty one. */
  lemma LongFieldCollides()
    ensures var long := Zeros(FIELD_LIMIT);
      Fields([long, []]) == Fields([[], long]) && [long, []] != [[], long]
  {
    var long: Octets := Zeros(FIELD_LIMIT);
    var none: Octets := [];
    TwoFields(long, none);
    TwoFields(none, long);
    assert BigEndian(0, 2) == [0, 0] by {
      assert BigEndian(0, 1) == [0];
    }
    assert Prefixed(none) == [0, 0] && Prefixed(long) == [0, 0] + long;
    assert ([0, 0] + long) + [0, 0] == [0, 0] + ([0, 0] + long);
    assert |[long, none][0]| != |[none, long][0]|;
  }

  /** Lists of fields are told apart by their encoding exactly when fields of
      65536 bytes and more are ruled out. */
  lemma UniqueExactlyBelowTheLimit(limit: nat)
    ensures UniqueUpTo(limit) <==> limit <= FIELD_LIMIT
  {
    if limit <= FIELD_LIMIT {
      forall fs: seq<Octets>, gs: seq<Octets>
        | |fs| == |gs| && AllShorter(fs, limit) && AllShorter(gs, limit) && Fields(fs) == Fields(gs)
        ensures fs == gs
      {
        FieldsAreUnique(fs, gs);
      }
    } else {
      var long: Octets := Zeros(FIELD_LIMIT);
      LongFieldCollides();
      assert AllShorter([long, []], limit) && AllShorter([[], long], limit);
      assert !UniqueUpTo(limit);
    }
  }

  // ---------- The signed payloads ----------

  datatype Hello = Hello(version: int, sessionID: Octets, phoneID: Octets, phoneEph: Octets, nonceP: Octets)

  datatype Accept = Accept(bridgeEph: Octets, nonceB: Octets)

  /** The conversions `byte(v)` and `uint64(t)`. */
  function VersionByte(version: int): Octets { [version % 256] }

  function TimestampBytes(t: int): (b: Octets)
    ensures |b| == 8
  {
    BigEndian(t % TWO_TO_THE_64, 8)
  }

  function HelloFields(h: Hello): seq<Octets> {
    [VersionByte(h.version), h.sessionID, h.phoneID, h.phoneEph, h.nonceP]
  }

  function HelloAdmissionPayload(h: Hello, timestamp: int): Octets {
    Fields(HelloFields(h) + [TimestampBytes(timestamp)])
  }

  /** What `Transcript` hashes after its label. */
  function TranscriptFields(h: Hello, bridgeID: Octets, a: Accept): Octets {
    Fields(HelloFields(h) + [bridgeID, a.bridgeEph, a.nonceB])
  }

  predicate Short(h: Hello) {
    |h.sessionID| < FIELD_LIMIT && |h.phoneID| < FIELD_LIMIT && |h.phoneEph| < FIELD_LIMIT && |h.nonceP| < FIELD_LIMIT
  }

  predicate SameHello(h: Hello, k: Hello) {
    h.version % 256 == k.version % 256 && h == k.(version := h.version)
  }

  /** The order of the fields: version, session, phone key, ephemeral key, nonce,
      and then the time the phone signs at. */
  lemma PayloadLayout(h: Hello, t: int)
    ensures HelloAdmissionPayload(h, t)
         == Prefixed([h.version % 256]) + Prefixed(h.sessionID) + Prefixed(h.phoneID) + Prefixed(h.phoneEph)
            + Prefixed(h.nonceP) + Prefixed(TimestampBytes(t))
  {
    var hello := FiveFields(h, [TimestampBytes(t)]);
    OneField(TimestampBytes(t));
  }

  /** In the transcript the bridge's key, ephemeral key and nonce come last. */
  lemma TranscriptLayout(h: Hello, id: Octets, a: Accept)
    ensures TranscriptFields(h, id, a)
         == Prefixed([h.version % 256]) + Prefixed(h.sessionID) + Prefixed(h.phoneID) + Prefixed(h.phoneEph)
            + Prefixed(h.nonceP) + (Prefixed(id) + (Prefixed(a.bridgeEph) + Prefixed(a.nonceB)))
  {
    var hello := FiveFields(h, [id, a.bridgeEph, a.nonceB]);
    assert [id, a.bridgeEph, a.nonceB][1..] == [a.bridgeEph, a.nonceB];
    TwoFields(a.bridgeEph, a.nonceB);
  }

  lemma OneField(f: Octets)
    ensures Fields([f]) == Prefixed(f)
  {
    assert Fields([f]) == Prefixed(f) + Fields([]);
  }

  lemma FieldInFront(f: Octets, fs: seq<Octets>)
    ensures Fields([f] + fs) == Prefixed(f) + Fields(fs)
  {
    assert ([f] + fs)[1..] == fs;
  }

  lemma FiveFields(h: Hello, more: seq<Octets>) returns (all: seq<Octets>)
    ensures all == HelloFields(h) + more
    ensures Fields(all)
         == Prefixed([h.version % 256]) + Prefixed(h.sessionID) + Prefixed(h.phoneID) + Prefixed(h.phoneEph)
            + Prefixed(h.nonceP) + Fields(more)
  {
    var fs := HelloFields(h);
    FieldInFront(fs[4], more);
    FieldInFront(fs[3], [fs[4]] + more);
    FieldInFront(fs[2], [fs[3]] + ([fs[4]] + more));
    FieldInFront(fs[1], [fs[2]] + ([fs[3]] + ([fs[4]] + more)));
    FieldInFront(fs[0], [fs[1]] + ([fs[2]] + ([fs[3]] + ([fs[4]] + more))));
    all := [fs[0]] + ([fs[1]] + ([fs[2]] + ([fs[3]] + ([fs[4]] + more))));
    assert all == fs + more;
    Flattened(Prefixed(fs[0]), Prefixed(fs[1]), Prefixed(fs[2]), Prefixed(fs[3]), Prefixed(fs[4]), Fields(more));
  }

  lemma Flattened(a: Octets, b: Octets, c: Octets, d: Octets, e: Octets, z: Octets)
    ensures a + (b + (c + (d + (e + z)))) == a + b + c + d + e + z
  {}

  predicate IsInt64(t: int) { -TWO_TO_THE_64 / 2 <= t < TWO_TO_THE_64 / 2 }

  lemma SameRemainder(t: int, u: int)
    requires IsInt64(t) && IsInt64(u) && t % TWO_TO_THE_64 == u % TWO_TO_THE_64
    ensures t == u
  {}

  lemma TimestampRoundTrip(t: int, u: int)
    requires IsInt64(t) && IsInt64(u)
    ensures TimestampBytes(t) == TimestampBytes(u) <==> t == u
  {
    if TimestampBytes(t) == TimestampBytes(u) {
      Uint64RoundTrip(t % TWO_TO_THE_64);
      Uint64RoundTrip(u % TWO_TO_THE_64);
      SameRemainder(t, u);
    }
  }

  lemma SameHelloFields(h: Hello, k: Hello)
    ensures HelloFields(h) == HelloFields(k) <==> SameHello(h, k)
  {
    if HelloFields(h) == HelloFields(k) {
      var f, g := HelloFields(h), HelloFields(k);
      assert f[0] == g[0] && f[0][0] == g[0][0];
      assert f[1] == g[1] && f[2] == g[2] && f[3] == g[3] && f[4] == g[4];
    }
  }

  /** The payload a phone signs fixes every field it speaks of, the version up to
      the byte it is cut to. */
  lemma PayloadFixesHello(h: Hello, t: int, k: Hello, u: int)
    requires Short(h) && Short(k) && IsInt64(t) && IsInt64(u)
    ensures HelloAdmissionPayload(h, t) == HelloAdmissionPayload(k, u) <==> SameHello(h, k) && t == u
  {
    var fs, gs := HelloFields(h) + [TimestampBytes(t)], HelloFields(k) + [TimestampBytes(u)];
    FieldsAreUnique(fs, gs);
    SameHelloFields(h, k);
    TimestampRoundTrip(t, u);
    assert fs[..5] == HelloFields(h) && gs[..5] == HelloFields(k);
    assert fs[5] == TimestampBytes(t) && gs[5] == TimestampBytes(u);
  }

  /** So does the transcript, for both sides' keys and nonces. */
  lemma TranscriptFixesHandshake(h: Hello, id: Octets, a: Accept, k: Hello, id': Octets, a': Accept)
    requires Short(h) && |id| < FIELD_LIMIT && |a.bridgeEph| < FIELD_LIMIT && |a.nonceB| < FIELD_LIMIT
    requires Short(k) && |id'| < FIELD_LIMIT && |a'.bridgeEph| < FIELD_LIMIT && |a'.nonceB| < FIELD_LIMIT
    ensures TranscriptFields(h, id, a) == TranscriptFields(k, id', a') <==> SameHello(h, k) && id == id' && a == a'
  {
    var fs, gs := HelloFields(h) + [id, a.bridgeEph, a.nonceB], HelloFields(k) + [id', a'.bridgeEph, a'.nonceB];
    FieldsAreUnique(fs, gs);
    SameHelloFields(h, k);
    assert fs[..5] == HelloFields(h) && gs[..5] == HelloFields(k);
    assert fs[5] == id && fs[6] == a.bridgeEph && fs[7] == a.nonceB;
    assert gs[5] == id' && gs[6] == a'.bridgeEph && gs[7] == a'.nonceB;
  }

  // ---------- Role labels ----------

  datatype Label =
    | TranscriptLabel | KeysLabel | BridgeLabel | PhoneLabel | PairLabel
    | HelloAdmissionPhoneLabel | HelloAdmissionCodeLabel | RelayAttachLabel

  function Text(l: Label): string {
    match l
    case TranscriptLabel => "hermes-remote v1 transcript"
    case KeysLabel => "hermes-remote v1 keys"
    case BridgeLabel => "hermes-remote v1 bridge"
    case PhoneLabel => "hermes-remote v1 phone"
    case PairLabel => "hermes-remote v1 pair"
    case HelloAdmissionPhoneLabel => "hermes-remote v1 hello admission phone"
    case HelloAdmissionCodeLabel => "hermes-remote v1 hello admission code"
    case RelayAttachLabel => "hermes-remote v1 relay attach"
  }

  /** A place where two labels differ. */
  function Difference(l: Label, m: Label): nat {
    if l in {PhoneLabel, PairLabel} && m in {PhoneLabel, PairLabel} then 18
    else if l.HelloAdmissionPhoneLabel? || l.HelloAdmissionCodeLabel? then
      (if m.HelloAdmissionPhoneLabel? || m.HelloAdmissionCodeLabel? then 33 else 17)
    else 17
  }

  lemma LabelsDiffer(l: Label, m: Label)
    requires l != m
    ensures var i := Difference(l, m); i < |Text(l)| && i < |Text(m)| && Text(l)[i] != Text(m)[i]
  {}

  function Ascii(s: string): (b: Octets)
    ensures |b| == |s| && forall i :: 0 <= i < |s| ==> b[i] == s[i] as int % 256
  {
    seq(|s|, i requires 0 <= i < |s| => s[i] as int % 256)
  }

  /** What `sign`, `verify` and the code proofs feed to the primitive. */
  function Labelled(l: Label, message: Octets): Octets { Ascii(Text(l)) + message }

  /** Messages under different labels never coincide, so a signature or MAC for one
      role is never one for another. */
  lemma LabelsSeparateRoles(l: Label, message: Octets, m: Label, other: Octets)
    ensures Labelled(l, message) == Labelled(m, other) <==> l == m && message == other
  {
    if l != m {
      LabelsDiffer(l, m);
      var i := Difference(l, m);
      assert Text(l)[i] as int < 256 && Text(m)[i] as int < 256 by { LabelIsAscii(l, i); LabelIsAscii(m, i); }
      assert Labelled(l, message)[i] == Text(l)[i] as int && Labelled(m, other)[i] == Text(m)[i] as int;
    } else {
      assert Labelled(l, message)[|Text(l)|..] == message && Labelled(m, other)[|Text(m)|..] == other;
    }
  }

  lemma LabelIsAscii(l: Label, i: nat)
    requires i < |Text(l)|
    ensures Text(l)[i] < 128 as char
  {}
}
