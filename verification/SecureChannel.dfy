/** One direction of an established connection: `send`, `sealAndWrite` and `recv`
    of `internal/bridge/server.go` over the envelope and the chunk assembler, with
    a network that drops, repeats, reorders and forges frames. */
module SecureChannel {
  import opened ByteStrings
  import opened Options
  import opened Envelope
  import opened Chunks

  /** The plaintext of one frame: a message on a channel of its own, or a piece. */
  datatype Payload = Whole(message: Bytes) | Part(chunk: Chunk)

  /** How many frames a message takes. */
  function FrameCount(m: Bytes): (n: nat)
    ensures 0 < n
  {
    if |m| <= CHUNK_THRESHOLD then 1 else ChunkCount(|m|)
  }

  function PayloadAt(m: Bytes, i: nat): Payload
    requires i < FrameCount(m)
  {
    if |m| <= CHUNK_THRESHOLD then Whole(m) else Part(Piece(m, i))
  }

  /** The plaintexts of the first `n` frames of a message. */
  function FirstPayloads(m: Bytes, n: nat): (payloads: seq<Payload>)
    requires n <= FrameCount(m)
    ensures |payloads| == n
  {
    if n == 0 then [] else FirstPayloads(m, n - 1) + [PayloadAt(m, n - 1)]
  }

  /** What `recv` has put together so far; `broken` once it returned an error. */
  datatype Inbox = Inbox(partial: Partial, delivered: seq<Bytes>, broken: bool)

  const NEW_INBOX := Inbox(EMPTY, [], false)

  function Taken(inbox: Inbox, p: Payload): Inbox {
    if inbox.broken then inbox
    else
      match p
      case Whole(m) => inbox.(delivered := inbox.delivered + [m])
      case Part(c) =>
        var (partial, added) := Adding(inbox.partial, c);
        match added
        case More => inbox.(partial := partial)
        case Complete(m) => inbox.(partial := partial, delivered := inbox.delivered + [m])
        case _ => inbox.(partial := partial, broken := true)
  }

  /** The inbox after the first `k` payloads. */
  function AllTaken(ps: seq<Payload>, k: nat): Inbox
    requires k <= |ps|
  {
    if k == 0 then NEW_INBOX else Taken(AllTaken(ps, k - 1), ps[k - 1])
  }

  // ---------- The sending and receiving code ----------

  /** A sealed plaintext and its counter. */
  datatype Entry = Entry(counter: nat, payload: Payload)

  /** The first `n` frames of a message, sealed after `counter`. */
  function EntriesFor(counter: nat, m: Bytes, n: nat): seq<Entry>
    requires n <= FrameCount(m)
  {
    if n == 0 then [] else EntriesFor(counter, m, n - 1) + [Entry(counter + n, PayloadAt(m, n - 1))]
  }

  /** They are the message's payloads in order, under consecutive counters. */
  lemma {:induction false} EntriesAreConsecutive(counter: nat, m: Bytes, n: nat, i: nat)
    requires i < n <= FrameCount(m)
    ensures |EntriesFor(counter, m, n)| == n
    ensures EntriesFor(counter, m, n)[i] == Entry(counter + 1 + i, FirstPayloads(m, n)[i])
  {
    if i < n - 1 {
      EntriesAreConsecutive(counter, m, n - 1, i);
    } else if n > 1 {
      EntriesAreConsecutive(counter, m, n - 1, 0);
    }
  }

  ghost predicate AllWritten(writes: seq<bool>, n: nat)
    requires n <= |writes|
  {
    forall i :: 0 <= i < n ==> writes[i]
  }

  lemma Regroup<T>(a: seq<T>, b: seq<T>, x: T)
    ensures (a + b) + [x] == a + (b + [x])
  {}

  class Conn {
    const suite: Suite<Payload>
    const asm: ChunkAssembler
    var wire: seq<Frame<Payload>>            // frames handed to the websocket
    ghost var entries: seq<Entry>            // what was sealed into them

    ghost predicate Valid()
      reads this, suite
    {
      && suite.Valid() && |wire| == |entries|
      && forall i :: 0 <= i < |wire| ==> wire[i] == FrameFor(suite.sendKey, entries[i].counter, entries[i].payload)
    }

    constructor (suite: Suite<Payload>, asm: ChunkAssembler)
      requires suite.Valid()
      ensures Valid() && this.suite == suite && this.asm == asm && entries == []
    {
      this.suite, this.asm := suite, asm;
      wire, entries := [], [];
    }

    /** Seals one plaintext and writes the frame; `written` says whether the write
        succeeds.  The counter is used up either way. */
    method SealAndWrite(payload: Payload, length: nat, written: bool) returns (isSealed: bool, ok: bool)
      requires Valid()
      modifies this, suite`sendCounter
      ensures Valid() && ok == (isSealed && written)
      ensures isSealed <==> length <= MAX_PLAINTEXT && old(suite.sendCounter) < TWO_TO_THE_64 - 1
      ensures isSealed ==>
        suite.sendCounter == old(suite.sendCounter) + 1 && entries == old(entries) + [Entry(suite.sendCounter, payload)]
      ensures !isSealed ==> suite.sendCounter == old(suite.sendCounter) && entries == old(entries)
    {
      var frame := suite.Seal(payload, length);
      if frame == None {
        return false, false;
      }
      wire, entries := wire + [frame.value], entries + [Entry(suite.sendCounter, payload)];
      return true, written;
    }

    /** The pieces of a large message, in order, up to the first failed write. */
    method SendChunks(m: Bytes, chunks: seq<Chunk>, writes: seq<bool>) returns (ok: bool, n: nat)
      requires Valid() && |chunks| == FrameCount(m) <= |writes|
      requires forall i :: 0 <= i < |chunks| ==> Part(chunks[i]) == PayloadAt(m, i)
      modifies this, suite`sendCounter
      ensures Valid() && n <= FrameCount(m)
      ensures entries == old(entries) + EntriesFor(old(suite.sendCounter), m, n)
      ensures suite.sendCounter == old(suite.sendCounter) + n
      ensures ok <==> n == FrameCount(m) && writes[n - 1]
      ensures n > 0 ==> AllWritten(writes, n - 1)
    {
      n := 0;
      while n < |chunks|
        invariant Valid() && n <= |chunks| && AllWritten(writes, n)
        invariant entries == old(entries) + EntriesFor(old(suite.sendCounter), m, n)
        invariant suite.sendCounter == old(suite.sendCounter) + n
      {
        // a piece is far below the limit on one envelope
        var isSealed, written := SealAndWrite(Part(chunks[n]), CHUNK_THRESHOLD, writes[n]);
        if !isSealed {
          return false, n;
        }
        Regroup(old(entries), EntriesFor(old(suite.sendCounter), m, n), Entry(suite.sendCounter, PayloadAt(m, n)));
        n := n + 1;
        if !written {
          return false, n;
        }
      }
      return true, n;
    }

    /** `writes[i]` says whether the i-th write succeeds, `n` is how many frames
        were sealed.  Counters are used in order and never twice, and a failed
        write ends the call. */
    method Send(m: Bytes, writes: seq<bool>) returns (ok: bool, n: nat)
      requires Valid() && FrameCount(m) <= |writes|
      modifies this, suite`sendCounter
      ensures Valid() && n <= FrameCount(m)
      ensures |m| > MAX_PLAINTEXT ==> !ok && n == 0
      ensures entries == old(entries) + EntriesFor(old(suite.sendCounter), m, n)
      ensures suite.sendCounter == old(suite.sendCounter) + n
      ensures ok <==> |m| <= MAX_PLAINTEXT && n == FrameCount(m) && writes[n - 1]
      ensures n > 0 ==> AllWritten(writes, n - 1)
    {
      if |m| > MAX_PLAINTEXT {
        return false, 0;
      }
      var chunks := SplitChunks(m);
      if chunks != [] {
        ok, n := SendChunks(m, chunks, writes);
        return;
      }
      var isSealed, written := SealAndWrite(Whole(m), |m|, writes[0]);
      if isSealed {
        assert EntriesFor(old(suite.sendCounter), m, 0) == [];
        return written, 1;
      }
      return false, 0;
    }

    /** One turn of the loop in `recv`. */
    method Receive(frame: Frame<Payload>) returns (message: Option<Bytes>, failed: bool)
      requires Valid()
      modifies suite`recvCounter, asm
      ensures Valid()
      ensures var o := Opening(suite.recvKey, old(suite.recvCounter), frame);
        if !o.Plain? then failed && message == None && asm.View() == old(asm.View())
        else var inbox := Taken(Inbox(old(asm.View()), [], false), o.plain);
          && asm.View() == inbox.partial && failed == inbox.broken
          && inbox.delivered == if message.Some? then [message.value] else []
    {
      var result := suite.Open(frame);
      if !result.Plain? {
        return None, true;
      }
      match result.plain {
        case Whole(m) => return Some(m), false;
        case Part(c) =>
          var added := asm.Add(c);
          match added {
            case More => return None, false;
            case Complete(m) => return Some(m), false;
            case _ => return None, true;
          }
      }
    }
  }

  // ---------- Runs ----------

  /** One call of `send` that got past the size limit, and how many frames of the
      message it has sealed: fewer than all when a write failed or the counter ran
      out. */
  datatype Attempt = Attempt(message: Bytes, frames: nat)

  predicate Full(a: Attempt) { a.frames == FrameCount(a.message) }

  /** `sealedSoFar[i]` is what was sealed with counter `start + 1 + i`; `sending`
      says that the last attempt holds the send lock. */
  datatype State = State(
    key: Key, start: nat,
    attempts: seq<Attempt>, sending: bool, sendCounter: nat, sealedSoFar: seq<Payload>,
    recvCounter: nat, inbox: Inbox)

  datatype Action =
    | Send(m: Bytes)
    | SealNext(written: bool)
    | Deliver(frame: Frame<Payload>)

  /** The network can alter anything, but a box that opens under the key was
      sealed by the peer. */
  ghost predicate Possible(s: State, frame: Frame<Payload>) {
    frame.Frame? && frame.box.Sealed? && frame.box.key == s.key ==>
      exists i: nat :: i < |s.sealedSoFar| && frame.box == FrameFor(s.key, s.start + 1 + i, s.sealedSoFar[i]).box
  }

  predicate Exhausted(s: State) { s.sendCounter == TWO_TO_THE_64 - 1 }

  function Last(s: State): Attempt
    requires s.attempts != []
  {
    s.attempts[|s.attempts| - 1]
  }

  /** The next frame of the message being sent. */
  function SealedOne(s: State, written: bool): State
    requires s.attempts != [] && Last(s).frames < FrameCount(Last(s).message)
  {
    var a := Last(s).(frames := Last(s).frames + 1);
    s.(attempts := s.attempts[|s.attempts| - 1 := a], sending := written && !Full(a),
       sendCounter := s.sendCounter + 1,
       sealedSoFar := s.sealedSoFar + [PayloadAt(a.message, a.frames - 1)])
  }

  /** A failed write ends its call of `send`, and nothing else: the next caller
      may go on. */
  ghost predicate Next(s: State, a: Action, s': State) {
    match a
    case Send(m) =>
      && !s.sending && |m| <= MAX_PLAINTEXT
      && s' == s.(attempts := s.attempts + [Attempt(m, 0)], sending := true)
    case SealNext(written) =>
      && s.sending && s.attempts != [] && Last(s).frames < FrameCount(Last(s).message)
      && s' == if Exhausted(s) then s.(sending := false) else SealedOne(s, written)
    case Deliver(frame) =>
      && !s.inbox.broken && Possible(s, frame)
      && var o := Opening(s.key, s.recvCounter, frame);
      && s' == if o.Plain? then s.(recvCounter := (s.recvCounter + 1) % TWO_TO_THE_64, inbox := Taken(s.inbox, o.plain))
               else s.(inbox := s.inbox.(broken := true))
  }

  ghost predicate Init(s: State) {
    && s.attempts == [] && !s.sending && s.sealedSoFar == [] && s.inbox == NEW_INBOX
    && s.sendCounter == s.recvCounter == s.start < TWO_TO_THE_64
  }

  ghost predicate IsRun(states: seq<State>, actions: seq<Action>) {
    && |states| == |actions| + 1
    && Init(states[0])
    && forall i {:trigger actions[i]} :: 0 <= i < |actions| ==> Next(states[i], actions[i], states[i + 1])
  }

  // ---------- What a sequence of frames adds up to ----------

  lemma {:induction false} OnlyThePrefixCounts(ps: seq<Payload>, qs: seq<Payload>, k: nat)
    requires k <= |ps| && k <= |qs| && forall i :: 0 <= i < k ==> ps[i] == qs[i]
    ensures AllTaken(ps, k) == AllTaken(qs, k)
  {
    if k > 0 {
      OnlyThePrefixCounts(ps, qs, k - 1);
    }
  }

  /** What was delivered stays, and a broken inbox takes nothing more. */
  lemma {:induction false} DeliveredGrows(ps: seq<Payload>, j: nat, k: nat)
    requires j <= k <= |ps|
    ensures AllTaken(ps, j).delivered <= AllTaken(ps, k).delivered
    ensures AllTaken(ps, j).broken ==> AllTaken(ps, k) == AllTaken(ps, j)
    decreases k
  {
    if j < k {
      DeliveredGrows(ps, j, k - 1);
    }
  }

  /** The frames of an attempt stand at `at`. */
  ghost predicate Carries(ps: seq<Payload>, at: nat, a: Attempt) {
    && a.frames <= FrameCount(a.message) && at + a.frames <= |ps|
    && forall i :: 0 <= i < a.frames ==> ps[at + i] == PayloadAt(a.message, i)
  }

  /** The inbox once `k` frames of a message have come after `delivered`. */
  function Underway(m: Bytes, k: nat, delivered: seq<Bytes>): Inbox {
    if k < FrameCount(m) then Inbox(Holding(m, k), delivered, false) else Inbox(EMPTY, delivered + [m], false)
  }

  lemma FrameTaken(m: Bytes, k: nat, delivered: seq<Bytes>)
    requires |m| <= MAX_PLAINTEXT && k < FrameCount(m)
    ensures Taken(Underway(m, k, delivered), PayloadAt(m, k)) == Underway(m, k + 1, delivered)
  {
    if |m| > CHUNK_THRESHOLD {
      PieceExtends(m, k);
    }
  }

  /** Between messages, some frames of a message deliver nothing; all of them,
      just it. */
  lemma {:induction false} MessageTaken(ps: seq<Payload>, at: nat, a: Attempt, k: nat, delivered: seq<Bytes>)
    requires Carries(ps, at, a) && |a.message| <= MAX_PLAINTEXT && k <= a.frames
    requires AllTaken(ps, at) == Inbox(EMPTY, delivered, false)
    ensures AllTaken(ps, at + k) == Underway(a.message, k, delivered)
  {
    if k > 0 {
      MessageTaken(ps, at, a, k - 1, delivered);
      assert ps[at + (k - 1)] == PayloadAt(a.message, k - 1);
      FrameTaken(a.message, k - 1, delivered);
    }
  }

  /** The inbox holds the first pieces of a message. */
  ghost predicate CutShort(inbox: Inbox, delivered: seq<Bytes>) {
    !inbox.broken && inbox.delivered == delivered && inbox.partial.next > 0
  }

  /** With a message cut short in the assembler, a small message is delivered at
      once, and the first piece of another large one is out of order. */
  lemma AfterACut(ps: seq<Payload>, at: nat, a: Attempt, delivered: seq<Bytes>)
    requires Carries(ps, at, a) && 0 < a.frames && CutShort(AllTaken(ps, at), delivered)
    ensures |a.message| <= CHUNK_THRESHOLD ==> Full(a) && CutShort(AllTaken(ps, at + 1), delivered + [a.message])
    ensures |a.message| > CHUNK_THRESHOLD ==>
      AllTaken(ps, at + 1).broken && AllTaken(ps, at + 1).delivered == delivered
  {
    assert ps[at + 0] == PayloadAt(a.message, 0);
  }

  // ---------- What a sequence of attempts leaves on the wire ----------

  /** Where the frames of attempt `j` start. */
  function Offset(attempts: seq<Attempt>, j: nat): nat
    requires j <= |attempts|
  {
    if j == 0 then 0 else Offset(attempts, j - 1) + attempts[j - 1].frames
  }

  lemma {:induction false} SameOffset(attempts: seq<Attempt>, others: seq<Attempt>, j: nat)
    requires j <= |attempts| && j <= |others| && forall i :: 0 <= i < j ==> attempts[i] == others[i]
    ensures Offset(attempts, j) == Offset(others, j)
  {
    if j > 0 {
      SameOffset(attempts, others, j - 1);
    }
  }

  lemma {:induction false} OffsetsGrow(attempts: seq<Attempt>, j: nat, k: nat)
    requires j <= k <= |attempts|
    ensures Offset(attempts, j) <= Offset(attempts, k)
    decreases k
  {
    if j < k {
      OffsetsGrow(attempts, j, k - 1);
    }
  }

  /** Attempt `j` is where it should be; if it has sealed nothing, nothing was
      sealed since. */
  ghost predicate InPlace(ps: seq<Payload>, attempts: seq<Attempt>, j: nat)
    requires j < |attempts|
  {
    && |attempts[j].message| <= MAX_PLAINTEXT
    && Carries(ps, Offset(attempts, j), attempts[j])
    && (attempts[j].frames == 0 ==> Offset(attempts, j) == |ps|)
  }

  ghost predicate Wire(ps: seq<Payload>, attempts: seq<Attempt>) {
    && |ps| == Offset(attempts, |attempts|)
    && forall j: nat {:trigger InPlace(ps, attempts, j)} :: j < |attempts| ==> InPlace(ps, attempts, j)
  }

  /** The messages of the first `k` attempts. */
  function FirstMessages(attempts: seq<Attempt>, k: nat): (ms: seq<Bytes>)
    requires k <= |attempts|
    ensures |ms| == k
  {
    if k == 0 then [] else FirstMessages(attempts, k - 1) + [attempts[k - 1].message]
  }

  /** The messages given to `send`. */
  function Messages(attempts: seq<Attempt>): seq<Bytes> { FirstMessages(attempts, |attempts|) }

  lemma {:induction false} MessagesGrow(attempts: seq<Attempt>, j: nat, k: nat)
    requires j <= k <= |attempts|
    ensures FirstMessages(attempts, j) <= FirstMessages(attempts, k)
    ensures j < k ==> FirstMessages(attempts, k)[j] == attempts[j].message
    decreases k
  {
    if j < k {
      MessagesGrow(attempts, j, k - 1);
    }
  }

  /** The messages among the first `k` attempts all of whose frames were sealed. */
  function FullOnes(attempts: seq<Attempt>, k: nat): seq<Bytes>
    requires k <= |attempts|
  {
    if k == 0 then []
    else if Full(attempts[k - 1]) then FullOnes(attempts, k - 1) + [attempts[k - 1].message]
    else FullOnes(attempts, k - 1)
  }

  /** Between attempts an unbroken inbox has delivered every full message and is
      empty or holds the start of one cut short. */
  ghost predicate InStep(inbox: Inbox, fullOnes: seq<Bytes>) {
    if inbox.broken then inbox.delivered <= fullOnes
    else inbox.delivered == fullOnes && (inbox.partial == EMPTY || inbox.partial.next > 0)
  }

  lemma AttemptAfterACut(ps: seq<Payload>, at: nat, a: Attempt, fullOnes: seq<Bytes>)
    requires Carries(ps, at, a) && 0 < a.frames && InStep(AllTaken(ps, at), fullOnes)
    requires !AllTaken(ps, at).broken && AllTaken(ps, at).partial.next > 0
    ensures InStep(AllTaken(ps, at + a.frames), if Full(a) then fullOnes + [a.message] else fullOnes)
  {
    AfterACut(ps, at, a, fullOnes);
    if |a.message| > CHUNK_THRESHOLD {
      DeliveredGrows(ps, at + 1, at + a.frames);
      assert fullOnes <= fullOnes + [a.message];
    }
  }

  lemma AttemptKeepsStep(ps: seq<Payload>, at: nat, a: Attempt, fullOnes: seq<Bytes>)
    requires Carries(ps, at, a) && |a.message| <= MAX_PLAINTEXT && InStep(AllTaken(ps, at), fullOnes)
    ensures InStep(AllTaken(ps, at + a.frames), if Full(a) then fullOnes + [a.message] else fullOnes)
  {
    if AllTaken(ps, at).broken {
      DeliveredGrows(ps, at, at + a.frames);
      assert fullOnes <= fullOnes + [a.message];
    } else if AllTaken(ps, at).partial == EMPTY {
      MessageTaken(ps, at, a, a.frames, fullOnes);
    } else if a.frames > 0 {
      AttemptAfterACut(ps, at, a, fullOnes);
    }
  }

  lemma {:induction false} InStepBetweenAttempts(ps: seq<Payload>, attempts: seq<Attempt>, j: nat)
    requires Wire(ps, attempts) && j <= |attempts| && Offset(attempts, j) <= |ps|
    ensures InStep(AllTaken(ps, Offset(attempts, j)), FullOnes(attempts, j))
  {
    if j > 0 {
      OffsetsGrow(attempts, j - 1, j);
      InStepBetweenAttempts(ps, attempts, j - 1);
      assert InPlace(ps, attempts, j - 1);
      AttemptKeepsStep(ps, Offset(attempts, j - 1), attempts[j - 1], FullOnes(attempts, j - 1));
    }
  }

  /** However many frames arrive, what they deliver is a prefix of the full
      messages. */
  lemma DeliversFullOnes(ps: seq<Payload>, attempts: seq<Attempt>, r: nat)
    requires Wire(ps, attempts) && r <= |ps|
    ensures AllTaken(ps, r).delivered <= FullOnes(attempts, |attempts|)
  {
    InStepBetweenAttempts(ps, attempts, |attempts|);
    DeliveredGrows(ps, r, |ps|);
  }

  // ---------- When the receiver gives up ----------

  /** Some of the first `k` attempts was cut short after its first frame. */
  ghost predicate HasCut(attempts: seq<Attempt>, k: nat)
    requires k <= |attempts|
  {
    exists i: nat :: i < k && 0 < attempts[i].frames && !Full(attempts[i])
  }

  /** ... and a large message was begun after it. */
  ghost predicate Jams(attempts: seq<Attempt>, k: nat)
    requires k <= |attempts|
  {
    exists j: nat :: j < k && JamsAt(attempts, j)
  }

  ghost predicate JamsAt(attempts: seq<Attempt>, j: nat)
    requires j < |attempts|
  {
    |attempts[j].message| > CHUNK_THRESHOLD && 0 < attempts[j].frames && HasCut(attempts, j)
  }

  lemma CutStep(attempts: seq<Attempt>, k: nat)
    requires k < |attempts|
    ensures HasCut(attempts, k + 1) <==> HasCut(attempts, k) || (0 < attempts[k].frames && !Full(attempts[k]))
    ensures Jams(attempts, k + 1) <==> Jams(attempts, k) || JamsAt(attempts, k)
  {}

  /** What the inbox is between attempts, in terms of the attempts alone. */
  ghost predicate Exactly(inbox: Inbox, attempts: seq<Attempt>, k: nat)
    requires k <= |attempts|
  {
    && (inbox.broken <==> Jams(attempts, k))
    && (!inbox.broken ==>
          && inbox.delivered == FullOnes(attempts, k)
          && if HasCut(attempts, k) then inbox.partial.next > 0 else inbox.partial == EMPTY)
  }

  lemma AttemptTaken(ps: seq<Payload>, attempts: seq<Attempt>, k: nat)
    requires Wire(ps, attempts) && k < |attempts| && Offset(attempts, k + 1) <= |ps|
    requires Exactly(AllTaken(ps, Offset(attempts, k)), attempts, k)
    ensures Exactly(AllTaken(ps, Offset(attempts, k + 1)), attempts, k + 1)
  {
    var at, a, fullOnes := Offset(attempts, k), attempts[k], FullOnes(attempts, k);
    assert InPlace(ps, attempts, k);
    CutStep(attempts, k);
    if AllTaken(ps, at).broken {
      DeliveredGrows(ps, at, at + a.frames);
    } else if !HasCut(attempts, k) {
      MessageTaken(ps, at, a, a.frames, fullOnes);
    } else if a.frames > 0 {
      AfterACut(ps, at, a, fullOnes);
      if |a.message| > CHUNK_THRESHOLD {
        DeliveredGrows(ps, at + 1, at + a.frames);
      }
    }
  }

  /** A receiver that gets every frame unharmed gives up if and only if a large
      message is begun after one that was cut short; until then it has delivered
      exactly the messages sealed whole. */
  lemma {:induction false} GivesUpExactlyWhen(ps: seq<Payload>, attempts: seq<Attempt>, k: nat)
    requires Wire(ps, attempts) && k <= |attempts| && Offset(attempts, k) <= |ps|
    ensures Exactly(AllTaken(ps, Offset(attempts, k)), attempts, k)
  {
    if k > 0 {
      OffsetsGrow(attempts, k - 1, k);
      GivesUpExactlyWhen(ps, attempts, k - 1);
      AttemptTaken(ps, attempts, k - 1);
    }
  }

  // ---------- When a message is overtaken ----------

  ghost predicate AllFull(attempts: seq<Attempt>, k: nat)
    requires k <= |attempts|
  {
    k == 0 || (Full(attempts[k - 1]) && AllFull(attempts, k - 1))
  }

  /** Attempt `i` is the first that was cut short. */
  ghost predicate FirstCut(attempts: seq<Attempt>, i: nat) {
    i < |attempts| && !Full(attempts[i]) && AllFull(attempts, i)
  }

  /** The first message cut short is followed directly by one that fits one frame,
      and that frame is among the first `r`. */
  ghost predicate OvertakenAt(attempts: seq<Attempt>, r: nat, i: nat) {
    && FirstCut(attempts, i) && i + 1 < |attempts|
    && |attempts[i + 1].message| <= CHUNK_THRESHOLD && attempts[i + 1].frames == 1
    && Offset(attempts, i + 1) < r
  }

  ghost predicate Overtaken(attempts: seq<Attempt>, r: nat) { exists i: nat :: OvertakenAt(attempts, r, i) }

  /** While no attempt was cut short, all before have been delivered. */
  lemma {:induction false} BoundaryDelivers(ps: seq<Payload>, attempts: seq<Attempt>, j: nat)
    requires Wire(ps, attempts) && j <= |attempts| && Offset(attempts, j) <= |ps|
    requires AllFull(attempts, j)
    ensures AllTaken(ps, Offset(attempts, j)) == Inbox(EMPTY, FirstMessages(attempts, j), false)
  {
    if j > 0 {
      OffsetsGrow(attempts, j - 1, j);
      BoundaryDelivers(ps, attempts, j - 1);
      assert InPlace(ps, attempts, j - 1) && Full(attempts[j - 1]);
      MessageTaken(ps, Offset(attempts, j - 1), attempts[j - 1], attempts[j - 1].frames,
                   FirstMessages(attempts, j - 1));
    }
  }

  lemma CutTaken(ps: seq<Payload>, at: nat, a: Attempt, delivered: seq<Bytes>)
    requires Carries(ps, at, a) && |a.message| <= MAX_PLAINTEXT && !Full(a)
    requires AllTaken(ps, at) == Inbox(EMPTY, delivered, false)
    ensures AllTaken(ps, at + a.frames).delivered == delivered
    ensures a.frames > 0 ==> CutShort(AllTaken(ps, at + a.frames), delivered) && |a.message| > CHUNK_THRESHOLD
  {
    MessageTaken(ps, at, a, a.frames, delivered);
  }

  lemma FramesFit(ps: seq<Payload>, attempts: seq<Attempt>, i: nat)
    requires Wire(ps, attempts) && i < |attempts|
    ensures Offset(attempts, i) + attempts[i].frames == Offset(attempts, i + 1) <= |ps|
    ensures attempts[i].frames == 0 ==> Offset(attempts, i) == |ps|
    ensures Carries(ps, Offset(attempts, i), attempts[i]) && |attempts[i].message| <= MAX_PLAINTEXT
  {
    OffsetsGrow(attempts, i + 1, |attempts|);
    assert InPlace(ps, attempts, i);
  }

  /** At the first cut the messages before it have been delivered; if anything was
      sealed since, a large one is in pieces. */
  lemma CutDelivers(ps: seq<Payload>, attempts: seq<Attempt>, i: nat)
    requires Wire(ps, attempts) && FirstCut(attempts, i)
    ensures Offset(attempts, i + 1) <= |ps|
    ensures Offset(attempts, i + 1) < |ps| ==>
      && CutShort(AllTaken(ps, Offset(attempts, i + 1)), FirstMessages(attempts, i))
      && |attempts[i].message| > CHUNK_THRESHOLD
    ensures AllTaken(ps, Offset(attempts, i + 1)).delivered == FirstMessages(attempts, i)
  {
    FramesFit(ps, attempts, i);
    BoundaryDelivers(ps, attempts, i);
    CutTaken(ps, Offset(attempts, i), attempts[i], FirstMessages(attempts, i));
  }

  lemma DiffersAt(early: seq<Bytes>, late: seq<Bytes>, ms: seq<Bytes>)
    requires early <= late && 0 < |early| <= |ms| && early[|early| - 1] != ms[|early| - 1]
    ensures !(late <= ms)
  {
    assert late[|early| - 1] == early[|early| - 1];
  }

  lemma OvertakenBreaksOrder(ps: seq<Payload>, attempts: seq<Attempt>, r: nat, i: nat)
    requires Wire(ps, attempts) && r <= |ps| && OvertakenAt(attempts, r, i)
    ensures !(AllTaken(ps, r).delivered <= Messages(attempts))
  {
    CutDelivers(ps, attempts, i);
    assert InPlace(ps, attempts, i + 1);
    var at, before := Offset(attempts, i + 1), FirstMessages(attempts, i);
    AfterACut(ps, at, attempts[i + 1], before);
    DeliveredGrows(ps, at + 1, r);
    MessagesGrow(attempts, i, |attempts|);
    DiffersAt(before + [attempts[i + 1].message], AllTaken(ps, r).delivered, Messages(attempts));
  }

  /** After a first cut that nothing overtakes, no more is delivered. */
  lemma NothingAfterTheCut(ps: seq<Payload>, attempts: seq<Attempt>, r: nat, i: nat)
    requires Wire(ps, attempts) && r <= |ps| && FirstCut(attempts, i) && !OvertakenAt(attempts, r, i)
    ensures AllTaken(ps, r).delivered <= FirstMessages(attempts, i)
  {
    CutDelivers(ps, attempts, i);
    var at := Offset(attempts, i + 1);
    if r <= at {
      DeliveredGrows(ps, r, at);
    } else {
      var next := attempts[i + 1];
      assert InPlace(ps, attempts, i + 1);
      AfterACut(ps, at, next, FirstMessages(attempts, i));
      DeliveredGrows(ps, at + 1, r);
    }
  }

  lemma {:induction false} FindFirstCut(attempts: seq<Attempt>, k: nat)
    requires k <= |attempts| && forall i: nat :: i < k ==> !FirstCut(attempts, i)
    ensures AllFull(attempts, k)
  {
    if k > 0 {
      FindFirstCut(attempts, k - 1);
      assert !FirstCut(attempts, k - 1);
    }
  }

  lemma {:induction false} FullUpTo(attempts: seq<Attempt>, k: nat)
    requires k <= |attempts| && forall j: nat :: j < k ==> Full(attempts[j])
    ensures AllFull(attempts, k)
  {
    if k > 0 {
      FullUpTo(attempts, k - 1);
    }
  }

  /** The deliveries of the first `r` frames are a prefix of the messages given to
      `send` exactly when none of these frames overtakes a message cut short. */
  lemma InOrderExactlyWhen(ps: seq<Payload>, attempts: seq<Attempt>, r: nat)
    requires Wire(ps, attempts) && r <= |ps|
    ensures AllTaken(ps, r).delivered <= Messages(attempts) <==> !Overtaken(attempts, r)
  {
    if i: nat :| OvertakenAt(attempts, r, i) {
      OvertakenBreaksOrder(ps, attempts, r, i);
    } else if i: nat :| FirstCut(attempts, i) {
      assert !OvertakenAt(attempts, r, i);
      NothingAfterTheCut(ps, attempts, r, i);
      MessagesGrow(attempts, i, |attempts|);
    } else {
      FindFirstCut(attempts, |attempts|);
      BoundaryDelivers(ps, attempts, |attempts|);
      DeliveredGrows(ps, r, |ps|);
    }
  }

  // ---------- What every step keeps ----------

  function Accepted(s: State): int { s.recvCounter - s.start }

  ghost predicate SenderOk(s: State) {
    && Wire(s.sealedSoFar, s.attempts)
    && s.sendCounter == s.start + |s.sealedSoFar| < TWO_TO_THE_64
    && (forall j: nat ::
          j < |s.attempts| && s.attempts[j].frames == 0 && !(s.sending && j == |s.attempts| - 1) ==> Exhausted(s))
  }

  ghost predicate ReceiverOk(s: State) {
    && 0 <= Accepted(s) <= |s.sealedSoFar|
    && var inbox := AllTaken(s.sealedSoFar, Accepted(s));
    && s.inbox.delivered == inbox.delivered && (!s.inbox.broken ==> s.inbox == inbox)
  }

  ghost predicate Inv(s: State) { SenderOk(s) && ReceiverOk(s) }

  lemma SendKeepsWire(ps: seq<Payload>, attempts: seq<Attempt>, m: Bytes)
    requires Wire(ps, attempts) && |m| <= MAX_PLAINTEXT
    ensures Wire(ps, attempts + [Attempt(m, 0)])
  {
    var more := attempts + [Attempt(m, 0)];
    SameOffset(more, attempts, |attempts|);
    forall j: nat | j < |more| ensures InPlace(ps, more, j) {
      SameOffset(more, attempts, if j < |attempts| then j else |attempts|);
      assert j < |attempts| ==> InPlace(ps, attempts, j);
    }
  }

  lemma SealKeepsWire(ps: seq<Payload>, attempts: seq<Attempt>, a: Attempt)
    requires Wire(ps, attempts) && attempts != [] && attempts[|attempts| - 1] == a && a.frames < FrameCount(a.message)
    requires forall j: nat :: j < |attempts| - 1 ==> attempts[j].frames > 0
    ensures Wire(ps + [PayloadAt(a.message, a.frames)], attempts[|attempts| - 1 := a.(frames := a.frames + 1)])
  {
    var n := |attempts| - 1;
    var more := attempts[n := a.(frames := a.frames + 1)];
    var qs := ps + [PayloadAt(a.message, a.frames)];
    SameOffset(more, attempts, n);
    forall j: nat | j < |more| ensures InPlace(qs, more, j) {
      SameOffset(more, attempts, j);
      assert InPlace(ps, attempts, j);
      if j < n {
        OffsetsGrow(attempts, j + 1, n);
      }
    }
  }

  lemma SendStep(s: State, m: Bytes, s': State)
    requires Inv(s) && Next(s, Send(m), s')
    ensures Inv(s')
  {
    SendKeepsWire(s.sealedSoFar, s.attempts, m);
  }

  lemma SealStep(s: State, written: bool, s': State)
    requires Inv(s) && Next(s, SealNext(written), s')
    ensures Inv(s')
  {
    if !Exhausted(s) {
      SealKeepsWire(s.sealedSoFar, s.attempts, Last(s));
      OnlyThePrefixCounts(s.sealedSoFar, s'.sealedSoFar, Accepted(s));
    }
  }

  /** Only a box that was sealed opens, and only the one sealed next. */
  lemma OpenedWasSealedNext(s: State, frame: Frame<Payload>)
    requires s.start + |s.sealedSoFar| < TWO_TO_THE_64 && 0 <= Accepted(s) <= |s.sealedSoFar|
    requires Possible(s, frame) && Opening(s.key, s.recvCounter, frame).Plain?
    ensures Accepted(s) < |s.sealedSoFar| && s.recvCounter < TWO_TO_THE_64 - 1
    ensures Opening(s.key, s.recvCounter, frame).plain == s.sealedSoFar[Accepted(s)]
  {
    var i: nat :| i < |s.sealedSoFar| && frame.box == FrameFor(s.key, s.start + 1 + i, s.sealedSoFar[i]).box;
    OpensInSequence(s.key, s.recvCounter, frame, s.start + 1 + i, s.sealedSoFar[i]);
  }

  lemma Increment(n: nat)
    requires n < TWO_TO_THE_64 - 1
    ensures (n + 1) % TWO_TO_THE_64 == n + 1
  {}

  lemma AcceptStep(s: State, s': State)
    requires ReceiverOk(s) && !s.inbox.broken && Accepted(s) < |s.sealedSoFar|
    requires s' == s.(recvCounter := s.recvCounter + 1, inbox := Taken(s.inbox, s.sealedSoFar[Accepted(s)]))
    ensures ReceiverOk(s')
  {
    assert Accepted(s') == Accepted(s) + 1;
  }

  lemma DeliverStep(s: State, frame: Frame<Payload>, s': State)
    requires Inv(s) && Next(s, Deliver(frame), s')
    ensures Inv(s')
  {
    if Opening(s.key, s.recvCounter, frame).Plain? {
      OpenedWasSealedNext(s, frame);
      Increment(s.recvCounter);
      AcceptStep(s, s');
    }
  }

  lemma {:induction false} InvInEveryRun(states: seq<State>, actions: seq<Action>, i: nat)
    requires IsRun(states, actions) && i < |states|
    ensures Inv(states[i])
  {
    if i > 0 {
      InvInEveryRun(states, actions, i - 1);
      var a := actions[i - 1];
      assert Next(states[i - 1], a, states[i]);
      match a
      case Send(m) => SendStep(states[i - 1], m, states[i]);
      case SealNext(written) => SealStep(states[i - 1], written, states[i]);
      case Deliver(frame) => DeliverStep(states[i - 1], frame, states[i]);
    }
  }

  // ---------- Main results ----------

  /** Whatever the network does and whichever writes fail, the messages received
      are a prefix of those all of whose frames were sealed, large ones included. */
  lemma ReceivedIsPrefixOfSealed(states: seq<State>, actions: seq<Action>, i: nat)
    requires IsRun(states, actions) && i < |states|
    ensures states[i].inbox.delivered <= FullOnes(states[i].attempts, |states[i].attempts|)
  {
    InvInEveryRun(states, actions, i);
    DeliversFullOnes(states[i].sealedSoFar, states[i].attempts, Accepted(states[i]));
  }

  /** They are a prefix of all the messages given to `send` if and only if none of
      the frames received overtakes the first message cut short: that message is
      not followed directly by one that fits one frame. */
  lemma ReceivedIsPrefixOfSentExactlyWhen(states: seq<State>, actions: seq<Action>, i: nat)
    requires IsRun(states, actions) && i < |states|
    ensures Accepted(states[i]) >= 0
    ensures states[i].inbox.delivered <= Messages(states[i].attempts)
      <==> !Overtaken(states[i].attempts, Accepted(states[i]))
  {
    InvInEveryRun(states, actions, i);
    InOrderExactlyWhen(states[i].sealedSoFar, states[i].attempts, Accepted(states[i]));
  }

  /** So a sender whose every message but the last was sealed whole, as when it
      stops at the first failed write, has its messages received in order. */
  lemma ReceivedIsPrefixOfSent(states: seq<State>, actions: seq<Action>, i: nat)
    requires IsRun(states, actions) && i < |states|
    requires forall j: nat :: j + 1 < |states[i].attempts| ==> Full(states[i].attempts[j])
    ensures states[i].inbox.delivered <= Messages(states[i].attempts)
  {
    ReceivedIsPrefixOfSentExactlyWhen(states, actions, i);
    forall n: nat ensures !OvertakenAt(states[i].attempts, Accepted(states[i]), n) {}
  }

  /** When every sealed frame was opened and the receiver has not given up, it has
      delivered exactly the messages sealed whole. */
  lemma WholeMessagesArrive(states: seq<State>, actions: seq<Action>, i: nat)
    requires IsRun(states, actions) && i < |states|
    requires states[i].recvCounter == states[i].sendCounter && !states[i].inbox.broken
    ensures states[i].inbox.delivered == FullOnes(states[i].attempts, |states[i].attempts|)
    ensures !Jams(states[i].attempts, |states[i].attempts|)
  {
    InvInEveryRun(states, actions, i);
    GivesUpExactlyWhen(states[i].sealedSoFar, states[i].attempts, |states[i].attempts|);
  }

  /** When no message was cut short and every sealed frame was opened, everything
      has arrived. */
  lemma EverythingArrives(states: seq<State>, actions: seq<Action>, i: nat)
    requires IsRun(states, actions) && i < |states|
    requires forall j: nat :: j < |states[i].attempts| ==> Full(states[i].attempts[j])
    requires states[i].recvCounter == states[i].sendCounter
    ensures states[i].inbox.delivered == Messages(states[i].attempts)
  {
    InvInEveryRun(states, actions, i);
    var s := states[i];
    FullUpTo(s.attempts, |s.attempts|);
    BoundaryDelivers(s.sealedSoFar, s.attempts, |s.attempts|);
  }

  /** No nonce is used for two frames, from any starting counter. */
  lemma NoNonceTwice(states: seq<State>, actions: seq<Action>, i: nat, j: nat, k: nat)
    requires IsRun(states, actions) && i < |states| && j < k < |states[i].sealedSoFar|
    ensures NonceFor(states[i].start + 1 + j) != NonceFor(states[i].start + 1 + k)
  {
    InvInEveryRun(states, actions, i);
    NonceNamesCounter(states[i].start + 1 + j, states[i].start + 1 + k);
  }

  // ---------- The steps of `send`, and what overtaking looks like ----------

  ghost predicate Reachable(s: State) {
    exists states, actions :: IsRun(states, actions) && states[|states| - 1] == s
  }

  lemma StepReaches(s: State, a: Action, s': State)
    requires Reachable(s) && Next(s, a, s')
    ensures Reachable(s')
  {
    var states, actions :| IsRun(states, actions) && states[|states| - 1] == s;
    assert IsRun(states + [s'], actions + [a]) by {
      forall i | 0 <= i < |actions + [a]| ensures Next((states + [s'])[i], (actions + [a])[i], (states + [s'])[i + 1]) {
        assert i < |actions| ==> Next(states[i], actions[i], states[i + 1]);
      }
    }
    assert (states + [s'])[|states + [s']| - 1] == s';
  }

  /** The state a call of `send` leaves that sealed `n` frames and then, unless
      `going`, let go of the lock. */
  function AfterSend(s: State, m: Bytes, n: nat, going: bool): State
    requires n <= FrameCount(m)
  {
    s.(attempts := s.attempts + [Attempt(m, n)], sending := going,
       sendCounter := s.sendCounter + n, sealedSoFar := s.sealedSoFar + FirstPayloads(m, n))
  }

  lemma SealOneMore(s: State, m: Bytes, n: nat, written: bool)
    requires n < FrameCount(m) && s.sendCounter + n < TWO_TO_THE_64 - 1
    ensures Next(AfterSend(s, m, n, true), SealNext(written), AfterSend(s, m, n + 1, written && n + 1 < FrameCount(m)))
  {
    var before, after := AfterSend(s, m, n, true), AfterSend(s, m, n + 1, written && n + 1 < FrameCount(m));
    assert Last(before) == Attempt(m, n);
    assert before.attempts[|s.attempts| := Attempt(m, n + 1)] == after.attempts;
    Regroup(s.sealedSoFar, FirstPayloads(m, n), PayloadAt(m, n));
  }

  /** What `Conn.Send` does is a sequence of steps of the runs: starting, sealing
      `n` frames, and stopping after the last frame or the first failed write. */
  lemma {:induction false} SendIsItsSteps(s: State, m: Bytes, n: nat, written: bool)
    requires Reachable(s) && !s.sending && |m| <= MAX_PLAINTEXT && n <= FrameCount(m)
    requires s.sendCounter + n < TWO_TO_THE_64
    ensures Reachable(AfterSend(s, m, n, n == 0 || (written && n < FrameCount(m))))
    decreases n
  {
    if n == 0 {
      assert s.sealedSoFar + [] == s.sealedSoFar;
      StepReaches(s, Send(m), AfterSend(s, m, 0, true));
    } else {
      SendIsItsSteps(s, m, n - 1, true);
      SealOneMore(s, m, n - 1, written);
      StepReaches(AfterSend(s, m, n - 1, true), SealNext(written), AfterSend(s, m, n, written && n < FrameCount(m)));
    }
  }

  /** The state after the network has passed on the first `r` frames unharmed. */
  function AfterDelivery(s: State, r: nat): State
    requires r <= |s.sealedSoFar|
  {
    s.(recvCounter := s.start + r, inbox := AllTaken(s.sealedSoFar, r))
  }

  lemma OpenedStep(s: State, frame: Frame<Payload>, p: Payload, s': State)
    requires !s.inbox.broken && Possible(s, frame) && s.recvCounter < TWO_TO_THE_64 - 1
    requires Opening(s.key, s.recvCounter, frame) == Plain(p)
    requires s' == s.(recvCounter := s.recvCounter + 1, inbox := Taken(s.inbox, p))
    ensures Next(s, Deliver(frame), s')
  {
    Increment(s.recvCounter);
  }

  lemma OpenedReaches(s: State, frame: Frame<Payload>, p: Payload, s': State)
    requires Reachable(s) && !s.inbox.broken && Possible(s, frame) && s.recvCounter < TWO_TO_THE_64 - 1
    requires Opening(s.key, s.recvCounter, frame) == Plain(p)
    requires s' == s.(recvCounter := s.recvCounter + 1, inbox := Taken(s.inbox, p))
    ensures Reachable(s')
  {
    OpenedStep(s, frame, p, s');
    StepReaches(s, Deliver(frame), s');
  }

  lemma SealedFrameOpens(key: Key, counter: nat, p: Payload) returns (frame: Frame<Payload>)
    requires counter < TWO_TO_THE_64 - 1
    ensures frame == FrameFor(key, counter + 1, p) && Opening(key, counter, frame) == Plain(p)
  {
    frame := FrameFor(key, counter + 1, p);
    OpensOnlyTheNext(key, counter, frame, p);
  }

  lemma SealedIsPossible(s: State, frame: Frame<Payload>, r: nat)
    requires r < |s.sealedSoFar| && frame == FrameFor(s.key, s.start + 1 + r, s.sealedSoFar[r])
    ensures Possible(s, frame)
  {}

  lemma NextFrameOpens(s: State, r: nat) returns (frame: Frame<Payload>)
    requires r < |s.sealedSoFar| && s.recvCounter == s.start + r < TWO_TO_THE_64 - 1
    ensures Possible(s, frame) && Opening(s.key, s.recvCounter, frame) == Plain(s.sealedSoFar[r])
  {
    frame := SealedFrameOpens(s.key, s.start + r, s.sealedSoFar[r]);
    assert s.start + r + 1 == s.start + 1 + r;
    SealedIsPossible(s, frame, r);
  }

  lemma NextReaches(s: State, r: nat, s': State)
    requires r < |s.sealedSoFar| && s.recvCounter == s.start + r < TWO_TO_THE_64 - 1
    requires Reachable(s) && !s.inbox.broken
    requires s' == s.(recvCounter := s.recvCounter + 1, inbox := Taken(s.inbox, s.sealedSoFar[r]))
    ensures Reachable(s')
  {
    var frame := NextFrameOpens(s, r);
    OpenedReaches(s, frame, s.sealedSoFar[r], s');
  }

  lemma DeliveredNext(s: State, r: nat)
    requires r < |s.sealedSoFar|
    ensures var before := AfterDelivery(s, r);
      AfterDelivery(s, r + 1)
        == before.(recvCounter := before.recvCounter + 1, inbox := Taken(before.inbox, s.sealedSoFar[r]))
  {}

  lemma DeliverOneMore(s: State, r: nat)
    requires r < |s.sealedSoFar| && s.start + r < TWO_TO_THE_64 - 1
    requires Reachable(AfterDelivery(s, r)) && !AllTaken(s.sealedSoFar, r).broken
    ensures Reachable(AfterDelivery(s, r + 1))
  {
    DeliveredNext(s, r);
    NextReaches(AfterDelivery(s, r), r, AfterDelivery(s, r + 1));
  }

  lemma {:induction false} DeliveryReaches(s: State, r: nat)
    requires Reachable(s) && s.recvCounter == s.start && s.inbox == NEW_INBOX
    requires r <= |s.sealedSoFar| && s.start + r < TWO_TO_THE_64 && !AllTaken(s.sealedSoFar, r).broken
    ensures Reachable(AfterDelivery(s, r))
  {
    if r == 0 {
      assert AfterDelivery(s, 0) == s;
    } else {
      DeliveredGrows(s.sealedSoFar, r - 1, r);
      DeliveryReaches(s, r - 1);
      DeliverOneMore(s, r - 1);
    }
  }

  lemma ReachableKeepsInv(s: State)
    requires Reachable(s)
    ensures Inv(s)
  {
    var states, actions :| IsRun(states, actions) && states[|states| - 1] == s;
    InvInEveryRun(states, actions, |states| - 1);
  }

  lemma CutThenWhole(start: State, large: Bytes, n: nat, m: Bytes) returns (s: State)
    requires Init(start) && start.start + n + 1 < TWO_TO_THE_64
    requires CHUNK_THRESHOLD < |large| <= MAX_PLAINTEXT && 0 < n < FrameCount(large) && |m| <= CHUNK_THRESHOLD
    ensures Reachable(s) && s.attempts == [Attempt(large, n), Attempt(m, 1)]
    ensures s.recvCounter == s.start == start.start && s.inbox == NEW_INBOX && |s.sealedSoFar| == n + 1
  {
    assert Reachable(start) by {
      assert IsRun([start], []) && [start][|[start]| - 1] == start;
    }
    SendIsItsSteps(start, large, n, false);
    var cut := AfterSend(start, large, n, false);
    SendIsItsSteps(cut, m, 1, true);
    s := AfterSend(cut, m, 1, false);
    assert s.attempts == [Attempt(large, n), Attempt(m, 1)];
  }

  /** Two messages, the first cut short after `n` of its frames by a failed write,
      the second sent all the same: in some run it is received out of order if and
      only if it fits one frame. */
  lemma GoingOnAfterAFailedWrite(start: State, large: Bytes, n: nat, m: Bytes)
    requires Init(start) && start.start + n + 1 < TWO_TO_THE_64
    requires CHUNK_THRESHOLD < |large| <= MAX_PLAINTEXT && 0 < n < FrameCount(large)
    ensures |m| <= CHUNK_THRESHOLD <==>
      exists s :: Reachable(s) && s.attempts == [Attempt(large, n), Attempt(m, 1)]
        && !(s.inbox.delivered <= Messages(s.attempts))
  {
    if |m| <= CHUNK_THRESHOLD {
      var s := CutThenWhole(start, large, n, m);
      ReachableKeepsInv(s);
      assert Offset(s.attempts, 1) == n;
      assert OvertakenAt(s.attempts, n + 1, 0);
      CutDelivers(s.sealedSoFar, s.attempts, 0);
      assert InPlace(s.sealedSoFar, s.attempts, 1);
      AfterACut(s.sealedSoFar, n, s.attempts[1], []);
      DeliveryReaches(s, n + 1);
      OvertakenBreaksOrder(s.sealedSoFar, s.attempts, n + 1, 0);
      assert !(AfterDelivery(s, n + 1).inbox.delivered <= Messages(AfterDelivery(s, n + 1).attempts));
    } else {
      forall s | Reachable(s) && s.attempts == [Attempt(large, n), Attempt(m, 1)]
        ensures s.inbox.delivered <= Messages(s.attempts)
      {
        ReachableKeepsInv(s);
        InOrderExactlyWhen(s.sealedSoFar, s.attempts, Accepted(s));
        forall i: nat ensures !OvertakenAt(s.attempts, Accepted(s), i) {}
      }
    }
  }
}
