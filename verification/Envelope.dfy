/** Big-endian numbers and the encrypted envelope with its sequential counters:
    `internal/protocol/envelope.go`, over an ideal AEAD. */
module Envelope {
  import opened Options

  /** A byte as the number it is, since headers and lengths are read as numbers. */
  type Octet = x: int | 0 <= x < 256
  type Octets = seq<Octet>

  const TWO_TO_THE_64 := 0x1_0000_0000_0000_0000
  const FRAME_VERSION: Octet := 1
  const HEADER_SIZE := 9
  const MAX_PLAINTEXT := 0x100_0000

  // ---------- Big-endian numbers ----------

  function Pow256(k: nat): (p: nat)
    ensures p > 0
  {
    if k == 0 then 1 else 256 * Pow256(k - 1)
  }

  /** The low `k` bytes of `n`, most significant first. */
  function BigEndian(n: nat, k: nat): (b: Octets)
    ensures |b| == k
  {
    if k == 0 then [] else BigEndian(n / 256, k - 1) + [n % 256]
  }

  function Value(b: Octets): (n: nat)
    ensures n < Pow256(|b|)
  {
    if b == [] then 0 else 256 * Value(b[..|b| - 1]) + b[|b| - 1]
  }

  lemma {:induction false} ValueOfBigEndian(n: nat, k: nat)
    ensures n < Pow256(k) ==> Value(BigEndian(n, k)) == n
  {
    if k > 0 {
      ValueOfBigEndian(n / 256, k - 1);
      assert BigEndian(n, k)[..k - 1] == BigEndian(n / 256, k - 1);
    }
  }

  lemma {:induction false} BigEndianOfValue(b: Octets)
    ensures BigEndian(Value(b), |b|) == b
  {
    if b != [] {
      BigEndianOfValue(b[..|b| - 1]);
      assert b == b[..|b| - 1] + [b[|b| - 1]];
    }
  }

  lemma DividedTwice(n: nat, p: nat)
    requires p > 0
    ensures n / 256 / p == n / (256 * p)
  {
    var q := n / 256 / p;
    assert n / 256 == q * p + n / 256 % p;
    assert n == 256 * (q * p + n / 256 % p) + n % 256;
    assert q * (256 * p) <= n < (q + 1) * (256 * p) by {
      assert 256 * (n / 256 % p) + n % 256 < 256 * p;
      assert q * (256 * p) == 256 * (q * p);
    }
    QuotientIs(n, 256 * p, q);
  }

  lemma QuotientIs(n: nat, d: nat, q: nat)
    requires d > 0 && q * d <= n < (q + 1) * d
    ensures n / d == q
  {
    Grows(n / d + 1, q, d);
    Grows(q + 1, n / d, d);
  }

  lemma Grows(a: nat, b: nat, d: nat)
    ensures a <= b ==> a * d <= b * d
  {}

  /** Byte `i` of `k` is the digit of its place, the most significant first. */
  lemma {:induction false} DigitAt(n: nat, k: nat, i: nat)
    requires i < k
    ensures BigEndian(n, k)[i] == n / Pow256(k - 1 - i) % 256
  {
    if i < k - 1 {
      DigitAt(n / 256, k - 1, i);
      DividedTwice(n, Pow256(k - 2 - i));
    }
  }

  lemma EightBytes()
    ensures Pow256(8) == TWO_TO_THE_64
  {
    assert Pow256(2) == 0x1_0000;
    assert Pow256(4) == 0x1_0000_0000;
    assert Pow256(6) == 0x1_0000_0000_0000;
  }

  /** A 64-bit number and its eight bytes determine each other. */
  lemma Uint64RoundTrip(n: nat)
    requires n < TWO_TO_THE_64
    ensures Value(BigEndian(n, 8)) == n
  {
    EightBytes();
    ValueOfBigEndian(n, 8);
  }

  // ---------- Frames ----------

  function Header(counter: nat): (h: Octets)
    ensures |h| == HEADER_SIZE
  {
    [FRAME_VERSION] + BigEndian(counter, 8)
  }

  function NonceFor(counter: nat): (n: Octets)
    ensures |n| == 12
  {
    [0, 0, 0, 0] + BigEndian(counter, 8)
  }

  /** Different counters give different nonces and different headers, so a nonce
      names one frame of a direction. */
  lemma NonceNamesCounter(c: nat, d: nat)
    requires c < TWO_TO_THE_64 && d < TWO_TO_THE_64
    ensures NonceFor(c) == NonceFor(d) <==> c == d
    ensures Header(c) == Header(d) <==> c == d
  {
    Uint64RoundTrip(c);
    Uint64RoundTrip(d);
    assert NonceFor(c)[4..] == BigEndian(c, 8) && NonceFor(d)[4..] == BigEndian(d, 8);
    assert Header(c)[1..] == BigEndian(c, 8) && Header(d)[1..] == BigEndian(d, 8);
  }

  type Key = nat

  /** What an AEAD can have produced, and what it cannot. */
  datatype Box<P> = Sealed(key: Key, nonce: Octets, plain: P, aad: Octets) | Forged(bits: Octets)

  /** An ideal AEAD opens what was sealed under the same key, nonce and header. */
  function Unseal<P(==)>(key: Key, nonce: Octets, box: Box<P>, aad: Octets): Option<P> {
    if box.Sealed? && box.key == key && box.nonce == nonce && box.aad == aad then Some(box.plain) else None
  }

  /** `Short` is a frame without a whole header and tag. */
  datatype Frame<P> = Frame(header: Octets, box: Box<P>) | Short(bits: Octets)

  predicate WellFormed<P>(f: Frame<P>) {
    f.Frame? && |f.header| == HEADER_SIZE && f.header[0] == FRAME_VERSION
  }

  function FrameFor<P>(key: Key, counter: nat, plain: P): Frame<P> {
    Frame(Header(counter), Sealed(key, NonceFor(counter), plain, Header(counter)))
  }

  datatype Opened<P> = Plain(plain: P) | BadFrame | BadCounter

  /** What `Open` decides; the expected counter wraps like any uint64. */
  function Opening<P(==)>(key: Key, counter: nat, f: Frame<P>): Opened<P> {
    if !WellFormed(f) then BadFrame
    else if Value(f.header[1..]) != (counter + 1) % TWO_TO_THE_64 then BadCounter
    else
      var plain := Unseal(key, NonceFor(Value(f.header[1..])), f.box, f.header);
      if plain.Some? then Plain(plain.value) else BadFrame
  }

  class Suite<P(==)> {
    const sendKey: Key
    const recvKey: Key
    var sendCounter: nat                     // last counter used
    var recvCounter: nat                     // last counter accepted

    ghost predicate Valid()
      reads this
    {
      sendCounter < TWO_TO_THE_64 && recvCounter < TWO_TO_THE_64
    }

    constructor (sendKey: Key, recvKey: Key)
      ensures Valid() && this.sendKey == sendKey && this.recvKey == recvKey && sendCounter == 0 && recvCounter == 0
    {
      this.sendKey, this.recvKey := sendKey, recvKey;
      sendCounter, recvCounter := 0, 0;
    }

    /** Refuses rather than use a counter, and so a nonce, twice. */
    method Seal(plain: P, length: nat) returns (frame: Option<Frame<P>>)
      requires Valid()
      modifies this`sendCounter
      ensures Valid()
      ensures frame.Some? <==> length <= MAX_PLAINTEXT && old(sendCounter) < TWO_TO_THE_64 - 1
      ensures frame.Some? ==>
        sendCounter == old(sendCounter) + 1 && frame.value == FrameFor(sendKey, sendCounter, plain)
      ensures frame == None ==> sendCounter == old(sendCounter)
    {
      if length > MAX_PLAINTEXT {
        return None;
      }
      if sendCounter == TWO_TO_THE_64 - 1 {
        return None;
      }
      sendCounter := sendCounter + 1;
      var header := Header(sendCounter);
      return Some(Frame(header, Sealed(sendKey, NonceFor(sendCounter), plain, header)));
    }

    method Open(frame: Frame<P>) returns (result: Opened<P>)
      requires Valid()
      modifies this`recvCounter
      ensures Valid() && result == Opening(recvKey, old(recvCounter), frame)
      ensures recvCounter == if result.Plain? then (old(recvCounter) + 1) % TWO_TO_THE_64 else old(recvCounter)
    {
      if frame.Short? || |frame.header| != HEADER_SIZE || frame.header[0] != FRAME_VERSION {
        return BadFrame;
      }
      var counter := Value(frame.header[1..]);
      if counter != (recvCounter + 1) % TWO_TO_THE_64 {
        return BadCounter;
      }
      var plain := Unseal(recvKey, NonceFor(counter), frame.box, frame.header);
      if plain == None {
        return BadFrame;
      }
      recvCounter := counter;
      return Plain(plain.value);
    }
  }

  lemma HeaderNamesCounter(h: Octets, counter: nat)
    requires counter < TWO_TO_THE_64 && |h| == HEADER_SIZE && h[0] == FRAME_VERSION
    ensures Value(h[1..]) == counter <==> h == Header(counter)
  {
    Uint64RoundTrip(counter);
    BigEndianOfValue(h[1..]);
    assert h == [FRAME_VERSION] + h[1..];
    assert Header(counter)[1..] == BigEndian(counter, 8);
  }

  /** A receiver opens exactly the next frame its peer sealed for it: any frame
      that opens was sealed with the next counter, and that frame does open. */
  lemma OpensOnlyTheNext<P>(key: Key, counter: nat, f: Frame<P>, plain: P)
    requires counter < TWO_TO_THE_64 - 1
    ensures Opening(key, counter, f) == Plain(plain) <==> f == FrameFor(key, counter + 1, plain)
  {
    var next := counter + 1;
    assert next % TWO_TO_THE_64 == next;
    if WellFormed(f) {
      HeaderNamesCounter(f.header, next);
    } else {
      assert Header(next)[0] == FRAME_VERSION;
    }
  }

  ghost predicate NextFrame<P>(key: Key, counter: nat, f: Frame<P>, plain: P) {
    f == FrameFor(key, counter + 1, plain)
  }

  /** Any other frame is refused: as a wrong counter exactly when its header is a
      whole one for another counter, whatever the box, and as a bad frame
      otherwise. */
  lemma RefusedExactlyWhen<P>(key: Key, counter: nat, f: Frame<P>)
    requires counter < TWO_TO_THE_64 - 1
    ensures Opening(key, counter, f) == BadCounter <==>
              f.Frame? && |f.header| == HEADER_SIZE && f.header[0] == FRAME_VERSION && f.header != Header(counter + 1)
    ensures Opening(key, counter, f) == BadFrame <==>
              || f.Short? || |f.header| != HEADER_SIZE || f.header[0] != FRAME_VERSION
              || (f.header == Header(counter + 1) && forall plain :: !NextFrame(key, counter, f, plain))
  {
    var next := counter + 1;
    assert next % TWO_TO_THE_64 == next;
    if WellFormed(f) {
      HeaderNamesCounter(f.header, next);
      if Opening(key, counter, f).Plain? {
        OpensOnlyTheNext(key, counter, f, Opening(key, counter, f).plain);
        assert NextFrame(key, counter, f, Opening(key, counter, f).plain);
      }
      forall plain | NextFrame(key, counter, f, plain) ensures Opening(key, counter, f) == Plain(plain) {
        OpensOnlyTheNext(key, counter, f, plain);
      }
    }
  }

  /** A box that opens was sealed with the expected counter, whatever the header
      that came with it says. */
  lemma OpensInSequence<P>(key: Key, counter: nat, f: Frame<P>, boxCounter: nat, plain: P)
    requires counter < TWO_TO_THE_64 && boxCounter < TWO_TO_THE_64
    requires f.Frame? && f.box == FrameFor(key, boxCounter, plain).box
    requires Opening(key, counter, f).Plain?
    ensures boxCounter == if counter < TWO_TO_THE_64 - 1 then counter + 1 else 0
    ensures Opening(key, counter, f).plain == plain
  {
    HeaderNamesCounter(f.header, boxCounter);
    if counter < TWO_TO_THE_64 - 1 {
      assert (counter + 1) % TWO_TO_THE_64 == counter + 1;
    } else {
      assert (counter + 1) % TWO_TO_THE_64 == 0;
    }
  }
}
