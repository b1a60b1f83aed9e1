/** Messages too large for one envelope: `internal/protocol/messages.go`. */
module Chunks {
  import opened ByteStrings
  import opened Envelope

  const CHUNK_THRESHOLD := 0x10_0000

  datatype Chunk = Chunk(index: int, count: int, data: Bytes)

  function Min(a: int, b: int): int { if a <= b then a else b }

  /** How many pieces a message of this length is cut into. */
  function ChunkCount(length: nat): (n: nat)
    ensures length > 0 ==> n > 0
  {
    if length <= CHUNK_THRESHOLD then (if length == 0 then 0 else 1) else 1 + ChunkCount(length - CHUNK_THRESHOLD)
  }

  lemma {:induction false} ChunkCountRoundsUp(length: nat)
    ensures ChunkCount(length) == (length + CHUNK_THRESHOLD - 1) / CHUNK_THRESHOLD
    ensures (ChunkCount(length) - 1) * CHUNK_THRESHOLD < length <= ChunkCount(length) * CHUNK_THRESHOLD || length == 0
  {
    if length > CHUNK_THRESHOLD {
      ChunkCountRoundsUp(length - CHUNK_THRESHOLD);
    }
  }

  /** Where piece `i` of a message of this length starts. */
  function Cut(length: nat, i: nat): (at: nat)
    ensures at <= length
  {
    Min(i * CHUNK_THRESHOLD, length)
  }

  function Piece(plain: Bytes, i: nat): Chunk
    requires i < ChunkCount(|plain|)
  {
    Chunk(i, ChunkCount(|plain|), plain[Cut(|plain|, i)..Cut(|plain|, i + 1)])
  }

  function Pieces(plain: Bytes): (chunks: seq<Chunk>)
    ensures |chunks| == ChunkCount(|plain|) && forall i :: 0 <= i < |chunks| ==> chunks[i] == Piece(plain, i)
  {
    seq(ChunkCount(|plain|), i requires 0 <= i < ChunkCount(|plain|) => Piece(plain, i))
  }

  method SplitChunks(plain: Bytes) returns (chunks: seq<Chunk>)
    ensures chunks == if |plain| <= CHUNK_THRESHOLD then [] else Pieces(plain)
  {
    if |plain| <= CHUNK_THRESHOLD {
      return [];
    }
    ChunkCountRoundsUp(|plain|);
    var count := (|plain| + CHUNK_THRESHOLD - 1) / CHUNK_THRESHOLD;
    chunks := [];
    for i := 0 to count
      invariant |chunks| == i && forall k :: 0 <= k < i ==> chunks[k] == Piece(plain, k)
    {
      var lo, hi := i * CHUNK_THRESHOLD, Min((i + 1) * CHUNK_THRESHOLD, |plain|);
      chunks := chunks + [Chunk(i, count, plain[lo..hi])];
    }
  }

  /** What a receiver keeps of a partial message. */
  datatype Partial = Partial(buf: Bytes, next: int, count: int)

  const EMPTY := Partial([], 0, 0)

  /** `More` also stands for a completed message without bytes, which the source
      cannot tell from an incomplete one. */
  datatype Added = More | Complete(whole: Bytes) | OutOfOrder | TooLarge

  predicate InOrder(p: Partial, c: Chunk) {
    0 < c.count && c.index == p.next && (p.next > 0 ==> c.count == p.count)
  }

  function Adding(p: Partial, c: Chunk): (Partial, Added) {
    if !InOrder(p, c) then (EMPTY, OutOfOrder)
    else if |p.buf| + |c.data| > MAX_PLAINTEXT then (EMPTY, TooLarge)
    else if p.next + 1 != c.count then (Partial(p.buf + c.data, p.next + 1, c.count), More)
    else (EMPTY, if p.buf + c.data == [] then More else Complete(p.buf + c.data))
  }

  class ChunkAssembler {
    var buf: Bytes
    var next: int
    var count: int

    ghost function View(): Partial
      reads this
    {
      Partial(buf, next, count)
    }

    constructor ()
      ensures View() == EMPTY
    {
      buf, next, count := [], 0, 0;
    }

    method Reset()
      modifies this
      ensures View() == EMPTY
    {
      buf, next, count := [], 0, 0;
    }

    method Add(c: Chunk) returns (added: Added)
      modifies this
      ensures (View(), added) == Adding(old(View()), c)
    {
      if c.count <= 0 || c.index != next || (next > 0 && c.count != count) {
        Reset();
        return OutOfOrder;
      }
      if |buf| + |c.data| > MAX_PLAINTEXT {
        Reset();
        return TooLarge;
      }
      count := c.count;
      buf := buf + c.data;
      next := next + 1;
      if next == count {
        var out := buf;
        Reset();
        return if out == [] then More else Complete(out);
      }
      return More;
    }
  }

  /** The assembler after the first `i` pieces of a message holds their bytes. */
  function Holding(plain: Bytes, i: nat): Partial {
    if i == 0 then EMPTY else Partial(plain[..Cut(|plain|, i)], i, ChunkCount(|plain|))
  }

  /** The pieces meet end to end, none is empty, and the last one ends the message. */
  lemma CutsMeet(length: nat, i: nat)
    requires i < ChunkCount(length)
    ensures 0 < Cut(length, i + 1) - Cut(length, i) <= CHUNK_THRESHOLD
    ensures Cut(length, i + 1) == length <==> i + 1 == ChunkCount(length)
  {
    ChunkCountRoundsUp(length);
  }

  lemma JoinedSlices(s: Bytes, lo: nat, hi: nat)
    requires lo <= hi <= |s|
    ensures s[..lo] + s[lo..hi] == s[..hi]
  {}

  lemma AddsUpTo(p: Partial, c: Chunk, joined: Bytes)
    requires InOrder(p, c) && p.buf + c.data == joined && 0 < |joined| <= MAX_PLAINTEXT
    ensures Adding(p, c)
         == if p.next + 1 != c.count then (Partial(joined, p.next + 1, c.count), More) else (EMPTY, Complete(joined))
  {}

  /** One piece takes the assembler from one prefix of the message to the next,
      and the last piece completes it. */
  lemma PieceExtends(plain: Bytes, i: nat)
    requires CHUNK_THRESHOLD < |plain| <= MAX_PLAINTEXT && i < ChunkCount(|plain|)
    ensures Adding(Holding(plain, i), Piece(plain, i))
         == if i + 1 < ChunkCount(|plain|) then (Holding(plain, i + 1), More) else (EMPTY, Complete(plain))
  {
    var lo, hi := Cut(|plain|, i), Cut(|plain|, i + 1);
    CutsMeet(|plain|, i);
    JoinedSlices(plain, lo, hi);
    assert Holding(plain, i).buf == plain[..lo];
    AddsUpTo(Holding(plain, i), Piece(plain, i), plain[..hi]);
    if i + 1 == ChunkCount(|plain|) {
      assert plain[..hi] == plain;
    }
  }

  /** What the first `k` chunks add up to: the assembler, and the messages it
      gave. */
  function AddAll(chunks: seq<Chunk>, k: nat): (Partial, seq<Bytes>)
    requires k <= |chunks|
  {
    if k == 0 then (EMPTY, [])
    else
      var before := AddAll(chunks, k - 1);
      var after := Adding(before.0, chunks[k - 1]);
      (after.0, if after.1.Complete? then before.1 + [after.1.whole] else before.1)
  }

  /** Splitting and reassembling: the pieces of a message give that message, at the
      last piece and not before, and leave nothing behind. */
  lemma {:induction false} SplitThenAssemble(plain: Bytes, k: nat)
    requires CHUNK_THRESHOLD < |plain| <= MAX_PLAINTEXT && k <= ChunkCount(|plain|)
    ensures AddAll(Pieces(plain), k) == if k < ChunkCount(|plain|) then (Holding(plain, k), []) else (EMPTY, [plain])
    ensures 0 < k ==> 0 < |Pieces(plain)[k - 1].data| <= CHUNK_THRESHOLD
  {
    if k > 0 {
      CutsMeet(|plain|, k - 1);
      SplitThenAssemble(plain, k - 1);
      PieceExtends(plain, k - 1);
      assert Pieces(plain)[k - 1] == Piece(plain, k - 1);
      assert [] + [plain] == [plain];
    }
  }

  // ---------- What the assembler makes of any chunks ----------

  /** The chunks from `from` up to, not including, `k` are the first pieces of one
      message of `count` pieces. */
  ghost predicate RunOf(chunks: seq<Chunk>, from: nat, k: nat, count: int)
    requires from <= k <= |chunks|
  {
    forall i :: from <= i < k ==> chunks[i].index == i - from && chunks[i].count == count
  }

  function Joined(chunks: seq<Chunk>, from: nat, k: nat): Bytes
    requires from <= k <= |chunks|
    decreases k
  {
    if from == k then [] else Joined(chunks, from, k - 1) + chunks[k - 1].data
  }

  /** What the assembler holds after `k` chunks is the run of pieces that ends
      there: their bytes, within the limit, and fewer of them than the message
      has. */
  ghost predicate HoldsRun(p: Partial, chunks: seq<Chunk>, k: nat)
    requires k <= |chunks|
  {
    && 0 <= p.next <= k && |p.buf| <= MAX_PLAINTEXT
    && p.buf == Joined(chunks, k - p.next, k)
    && (p.next == 0 ==> p.count == 0)
    && (p.next > 0 ==> RunOf(chunks, k - p.next, k, p.count) && p.next < p.count)
  }

  lemma {:induction false} AssemblerHoldsRun(chunks: seq<Chunk>, k: nat)
    requires k <= |chunks|
    ensures HoldsRun(AddAll(chunks, k).0, chunks, k)
  {
    if k > 0 {
      AssemblerHoldsRun(chunks, k - 1);
      AddedExactlyWhen(AddAll(chunks, k - 1).0, chunks, k - 1);
    }
  }

  /** Chunk `k` goes on with the run before it. */
  ghost predicate Continues(chunks: seq<Chunk>, from: nat, k: nat)
    requires from <= k < |chunks|
  {
    0 < chunks[k].count && RunOf(chunks, from, k + 1, chunks[k].count)
  }

  lemma ContinuesInOrder(p: Partial, chunks: seq<Chunk>, k: nat)
    requires k < |chunks| && HoldsRun(p, chunks, k)
    ensures Continues(chunks, k - p.next, k) <==> InOrder(p, chunks[k])
  {
    if p.next > 0 {
      assert chunks[k - 1].count == p.count;
    }
  }

  lemma AddedHoldsRun(p: Partial, chunks: seq<Chunk>, k: nat)
    requires k < |chunks| && HoldsRun(p, chunks, k)
    ensures HoldsRun(Adding(p, chunks[k]).0, chunks, k + 1)
  {
    assert Joined(chunks, k - p.next, k + 1) == p.buf + chunks[k].data;
    assert Joined(chunks, k + 1, k + 1) == [];
    ContinuesInOrder(p, chunks, k);
  }

  /** A chunk is refused as out of order if and only if it does not go on with the
      run held, and as too large if and only if it does but the pieces together
      pass the limit; it completes a message if and only if it is the last piece
      of a run that stays within it.  The buffer never passes the limit. */
  lemma AddedExactlyWhen(p: Partial, chunks: seq<Chunk>, k: nat)
    requires k < |chunks| && HoldsRun(p, chunks, k)
    ensures var from, added := k - p.next, Adding(p, chunks[k]).1;
      && (added == OutOfOrder <==> !Continues(chunks, from, k))
      && (added == TooLarge <==> Continues(chunks, from, k) && |Joined(chunks, from, k + 1)| > MAX_PLAINTEXT)
      && (added.Complete? <==>
            && Continues(chunks, from, k) && 0 < |Joined(chunks, from, k + 1)| <= MAX_PLAINTEXT
            && k + 1 - from == chunks[k].count)
      && (added.Complete? ==> added.whole == Joined(chunks, from, k + 1))
    ensures HoldsRun(Adding(p, chunks[k]).0, chunks, k + 1)
  {
    assert Joined(chunks, k - p.next, k + 1) == p.buf + chunks[k].data;
    ContinuesInOrder(p, chunks, k);
    AddedHoldsRun(p, chunks, k);
  }

  /** Whatever chunks a peer sends, the assembler never holds more than one
      message may have. */
  lemma {:induction false} BufferStaysWithinLimit(chunks: seq<Chunk>, k: nat)
    requires k <= |chunks|
    ensures |AddAll(chunks, k).0.buf| <= MAX_PLAINTEXT
    ensures forall i :: 0 <= i < |AddAll(chunks, k).1| ==> 0 < |AddAll(chunks, k).1[i]| <= MAX_PLAINTEXT
  {
    AssemblerHoldsRun(chunks, k);
    if k > 0 {
      BufferStaysWithinLimit(chunks, k - 1);
      AssemblerHoldsRun(chunks, k - 1);
      AddedExactlyWhen(AddAll(chunks, k - 1).0, chunks, k - 1);
    }
  }
}
