/** The two throttles of `internal/relay/relay.go`: the token bucket of each
    channel and the per-address connection window. */
module TokenBucket {

  /** The bucket of one channel.  Time is in seconds; real arithmetic stands in
      for floats.  `h` remembers every call. */
  class Bucket {
    var tokens: real
    const rate: real
    const burst: real
    var last: real
    ghost var h: History

    ghost predicate Valid()
      reads this
    {
      rate >= 0.0 && Level(h, burst, tokens, rate * last)
    }

    constructor (rate: nat, burst: nat, now: real)
      ensures Valid() && this.rate == rate as real && this.burst == burst as real && last == now
      ensures h.bytes == []
    {
      this.rate, this.burst, tokens, last := rate as real, burst as real, burst as real, now;
      h := History(burst as real, [rate as real * now], []);
    }

    /** Refill for the time passed, then spend if there is enough. */
    method Take(now: real, n: nat) returns (ok: bool)
      requires Valid() && last <= now
      modifies this
      ensures Valid() && last == now
      ensures h == old(h.Called(rate * now, n))
      ensures ok <==> h.Accepted(|old(h.bytes)|)
    {
      var earned := EarnedSince(rate, last, now);
      ok, tokens := RefillAndSpend(tokens, burst, earned, n, h, rate * last, rate * now);
      h, last := h.Called(rate * now, n), now;
    }
  }

  /** `tokens` is what the calls so far have left, `paid` what they have earned. */
  ghost predicate Level(h: History, burst: real, tokens: real, paid: real) {
    h.Valid() && h.burst == burst && tokens == h.TokensAfter(|h.bytes|) && paid == h.earned[|h.bytes|]
  }

  /** What time earns, as a difference of what the two moments have earned. */
  method EarnedSince(rate: real, from: real, to: real) returns (earned: real)
    requires rate >= 0.0 && from <= to
    ensures 0.0 <= earned == rate * to - rate * from
  {
    earned := (to - from) * rate;
  }

  /** The arithmetic of one call. */
  method RefillAndSpend(tokens: real, burst: real, earned: real, n: nat, ghost h: History,
                        ghost paid: real, ghost paidNow: real)
      returns (ok: bool, left: real)
    requires Level(h, burst, tokens, paid) && 0.0 <= earned == paidNow - paid
    ensures Level(h.Called(paidNow, n), burst, left, paidNow)
    ensures ok <==> h.Called(paidNow, n).Accepted(|h.bytes|)
  {
    NextCall(h, paidNow, n);
    left := tokens + earned;
    if left > burst {
      left := burst;
    }
    ok := n as real <= left;
    if ok {
      left := left - n as real;
    }
  }

  /** One more call refills what the calls before it left, and spends if it can. */
  lemma NextCall(h: History, earned: real, n: nat)
    requires h.Valid() && h.earned[|h.bytes|] <= earned
    ensures var h', k := h.Called(earned, n), |h.bytes|;
      && h'.Valid()
      && h'.Available(k) == Refilled(h.burst, h.TokensAfter(k), earned - h.earned[k])
      && (h'.Accepted(k) <==> n as real <= h'.Available(k))
      && h'.TokensAfter(k + 1) == h'.Available(k) - if h'.Accepted(k) then n as real else 0.0
  {
    var h', k := h.Called(earned, n), |h.bytes|;
    SamePast(h, h', k);
    assert h'.bytes[k] == n && h'.earned[k + 1] == earned && h'.earned[k] == h.earned[k];
    assert h'.TokensAfter(k + 1) == h'.Available(k) - h'.Spent(k);
  }

  lemma {:induction false} SamePast(h: History, h': History, k: nat)
    requires k <= |h.bytes| < |h.earned| && k <= |h'.bytes| < |h'.earned| && h.burst == h'.burst
    requires forall i :: 0 <= i <= k ==> h.earned[i] == h'.earned[i]
    requires forall i :: 0 <= i < k ==> h.bytes[i] == h'.bytes[i]
    ensures h.TokensAfter(k) == h'.TokensAfter(k)
  {
    if k > 0 {
      SamePast(h, h', k - 1);
      assert h.bytes[k - 1] == h'.bytes[k - 1] && h.earned[k - 1] == h'.earned[k - 1];
      assert h.Available(k - 1) == h'.Available(k - 1);
      assert h.Accepted(k - 1) == h'.Accepted(k - 1);
      assert h.Spent(k - 1) == h'.Spent(k - 1);
    }
  }

  function Refilled(burst: real, tokens: real, earned: real): real {
    if tokens + earned < burst then tokens + earned else burst
  }

  /** The calls on one bucket: `earned[0]` is rate times its creation time,
      `earned[k + 1]` rate times the time of call `k`, `bytes[k]` what call `k`
      asks for. */
  datatype History = History(burst: real, earned: seq<real>, bytes: seq<nat>) {
    ghost predicate Valid() {
      && burst >= 0.0
      && |earned| == |bytes| + 1
      && forall i, j :: 0 <= i <= j < |earned| ==> earned[i] <= earned[j]
    }

    /** One more call. */
    function Called(earnedNow: real, n: nat): History {
      History(burst, earned + [earnedNow], bytes + [n])
    }

    /** Tokens after the first `k` calls. */
    function TokensAfter(k: nat): real
      requires k <= |bytes| < |earned|
      decreases k, 0
    {
      if k == 0 then burst else Available(k - 1) - Spent(k - 1)
    }

    /** Tokens call `k` finds after the refill. */
    function Available(k: nat): real
      requires k < |bytes| < |earned|
      decreases k, 1
    {
      Refilled(burst, TokensAfter(k), earned[k + 1] - earned[k])
    }

    predicate Accepted(k: nat)
      requires k < |bytes| < |earned|
      decreases k, 2
    {
      bytes[k] as real <= Available(k)
    }

    function Spent(k: nat): real
      requires k < |bytes| < |earned|
      decreases k, 3
    {
      if Accepted(k) then bytes[k] as real else 0.0
    }

    /** Bytes accepted by the calls from `i` up to, not including, `j`. */
    function SpentBetween(i: nat, j: nat): real
      requires i <= j <= |bytes| < |earned|
      decreases j
    {
      if i == j then 0.0 else SpentBetween(i, j - 1) + Spent(j - 1)
    }

    /** The burst plus the rate times the time from call `i` to call `j`. */
    function Window(i: nat, j: nat): real
      requires i <= j < |bytes| < |earned|
    {
      burst + earned[j + 1] - earned[i + 1]
    }
  }

  /** The tokens a call finds are what the tightest window ending with it has
      left: never more than any window's, and equal to one. */
  lemma {:induction false} AvailableIsTightest(h: History, j: nat)
    requires h.Valid() && j < |h.bytes|
    ensures forall i :: 0 <= i <= j ==> h.Available(j) <= h.Window(i, j) - h.SpentBetween(i, j)
    ensures exists i :: 0 <= i <= j && h.Available(j) == h.Window(i, j) - h.SpentBetween(i, j)
  {
    if j == 0 {
      assert h.Available(0) == h.Window(0, 0) - h.SpentBetween(0, 0);
    } else {
      AvailableIsTightest(h, j - 1);
      forall i | 0 <= i <= j ensures h.Available(j) <= h.Window(i, j) - h.SpentBetween(i, j) {
        if i < j {
          assert h.Available(j - 1) <= h.Window(i, j - 1) - h.SpentBetween(i, j - 1);
        }
      }
      if h.Available(j) < h.burst {
        var i :| 0 <= i <= j - 1 && h.Available(j - 1) == h.Window(i, j - 1) - h.SpentBetween(i, j - 1);
        assert h.Available(j) == h.Window(i, j) - h.SpentBetween(i, j);
      } else {
        assert h.Available(j) == h.Window(j, j) - h.SpentBetween(j, j);
      }
    }
  }

  /** The bucket accepts exactly the calls that keep every window, however long
      and wherever it starts, within the burst plus the rate times its length. */
  lemma AcceptsExactlyWhatEveryWindowAllows(h: History, j: nat)
    requires h.Valid() && j < |h.bytes|
    ensures h.Accepted(j) <==>
              forall i :: 0 <= i <= j ==> h.SpentBetween(i, j) + h.bytes[j] as real <= h.Window(i, j)
  {
    AvailableIsTightest(h, j);
    if h.Accepted(j) {
      forall i | 0 <= i <= j ensures h.SpentBetween(i, j) + h.bytes[j] as real <= h.Window(i, j) {
        assert h.Available(j) <= h.Window(i, j) - h.SpentBetween(i, j);
      }
    } else {
      var i :| 0 <= i <= j && h.Available(j) == h.Window(i, j) - h.SpentBetween(i, j);
      assert h.SpentBetween(i, j) + h.bytes[j] as real > h.Window(i, j);
    }
  }

  lemma {:induction false} TokensStayInRange(h: History, k: nat)
    requires h.Valid() && k <= |h.bytes|
    ensures 0.0 <= h.TokensAfter(k) <= h.burst
  {
    if k > 0 {
      TokensStayInRange(h, k - 1);
      assert h.earned[k - 1] <= h.earned[k];
      assert 0.0 <= h.Available(k - 1) <= h.burst;
      assert h.TokensAfter(k) == h.Available(k - 1) - h.Spent(k - 1);
    }
  }

  /** Between any two calls, both included, no more passes than the burst plus
      the rate times the time between them. */
  lemma ThroughputBound(h: History, i: nat, j: nat)
    requires h.Valid() && i <= j < |h.bytes|
    ensures h.SpentBetween(i, j + 1) <= h.Window(i, j)
  {
    AvailableIsTightest(h, j);
    TokensStayInRange(h, j);
    assert h.Available(j) <= h.Window(i, j) - h.SpentBetween(i, j);
    assert h.SpentBetween(i, j + 1) == h.SpentBetween(i, j) + h.Spent(j);
  }
}

/** How many connections one address may open per minute. */
module ConnectionWindows {
  import opened Options

  /** In nanoseconds, as all times here. */
  const MINUTE := 60_000_000_000
  const TABLE_BOUND := 10_000

  datatype Window = Window(start: int, count: nat)

  /** What one connection at `now` does to the window of its address. */
  function Counted(w: Option<Window>, now: int): Window {
    if w.None? || now - w.value.start > MINUTE then Window(now, 1)
    else Window(w.value.start, w.value.count + 1)
  }

  /** The window of one address after connections at `times`, never forgotten. */
  function WindowAfter(times: seq<int>): Option<Window> {
    if times == [] then None
    else Some(Counted(WindowAfter(times[..|times| - 1]), times[|times| - 1]))
  }

  datatype Call = Call(key: string, at: int)

  /** When, among `calls`, the address `key` connected. */
  function TimesOf(calls: seq<Call>, key: string): seq<int> {
    if calls == [] then []
    else
      var last := calls[|calls| - 1];
      TimesOf(calls[..|calls| - 1], key) + (if last.key == key then [last.at] else [])
  }

  /** The window of `key` in a table that never forgets. */
  ghost function FullWindow(calls: seq<Call>, key: string): Option<Window> {
    WindowAfter(TimesOf(calls, key))
  }

  lemma FullWindowStep(calls: seq<Call>, c: Call, key: string)
    ensures FullWindow(calls + [c], key) ==
              if c.key == key then Some(Counted(FullWindow(calls, key), c.at)) else FullWindow(calls, key)
  {
    assert (calls + [c])[..|calls|] == calls;
    if c.key == key {
      var times := TimesOf(calls, key);
      assert (times + [c.at])[..|times|] == times;
    } else {
      assert TimesOf(calls, key) + [] == TimesOf(calls, key);
    }
  }

  /** The table knows the full window of `key`, or one the next connection from
      there would restart anyway. */
  ghost predicate Faithful(rate: map<string, Window>, calls: seq<Call>, now: int, key: string) {
    if key in rate then FullWindow(calls, key) == Some(rate[key])
    else FullWindow(calls, key).None? || now - FullWindow(calls, key).value.start > MINUTE
  }

  ghost predicate AllFaithful(rate: map<string, Window>, calls: seq<Call>, now: int) {
    forall key :: Faithful(rate, calls, now, key)
  }

  lemma CountingIsFaithful(rate: map<string, Window>, calls: seq<Call>, clock: int, key: string, now: int, w: Window)
    requires AllFaithful(rate, calls, clock) && (calls != [] ==> clock <= now)
    requires w == Counted(if key in rate then Some(rate[key]) else None, now)
    ensures w == Counted(FullWindow(calls, key), now)
    ensures AllFaithful(rate[key := w], calls + [Call(key, now)], now)
  {
    assert Faithful(rate, calls, clock, key);
    var rate', calls' := rate[key := w], calls + [Call(key, now)];
    forall k ensures Faithful(rate', calls', now, k) {
      assert Faithful(rate, calls, clock, k);
      FullWindowStep(calls, Call(key, now), k);
    }
  }

  lemma PruningIsFaithful(all: map<string, Window>, kept: map<string, Window>, calls: seq<Call>, now: int)
    requires AllFaithful(all, calls, now) && kept == map k | k in all && now - all[k].start <= MINUTE :: all[k]
    ensures AllFaithful(kept, calls, now)
  {
    forall k ensures Faithful(kept, calls, now, k) {
      assert Faithful(all, calls, now, k);
    }
  }

  /** Deletes the windows that are over. */
  method Prune(rate: map<string, Window>, now: int) returns (kept: map<string, Window>)
    ensures kept == map k | k in rate && now - rate[k].start <= MINUTE :: rate[k]
  {
    kept := rate;
    var keys := rate.Keys;
    while keys != {}
      invariant keys <= rate.Keys && keys <= kept.Keys <= rate.Keys
      invariant forall k :: k in kept ==> kept[k] == rate[k]
      invariant forall k :: k in rate && k !in keys ==> (k in kept <==> now - rate[k].start <= MINUTE)
      decreases keys
    {
      var k :| k in keys;
      keys := keys - {k};
      if now - kept[k].start > MINUTE {
        kept := kept - {k};
      }
    }
  }

  class Table {
    var rate: map<string, Window>
    const limit: nat
    /** Every connection attempt so far with its answer, and when the last was. */
    ghost var calls: seq<Call>
    ghost var answers: seq<bool>
    ghost var clock: int

    ghost predicate Valid()
      reads this
    {
      && limit > 0 && AllFaithful(rate, calls, clock)
      && Ordered(calls) && (calls != [] ==> calls[|calls| - 1].at == clock)
      && Answered(calls, answers, limit)
    }

    constructor (limit: nat)
      requires limit > 0
      ensures Valid() && this.limit == limit && calls == []
    {
      this.limit, rate, calls, answers, clock := limit, map[], [], [], 0;
    }

    /** Counts one connection of address group `key` and prunes the table when it
        is long.  The answer is the one a table that never forgets would give. */
    method AllowIP(key: string, now: int) returns (ok: bool)
      requires Valid() && (calls != [] ==> clock <= now)
      modifies this
      ensures Valid() && calls == old(calls) + [Call(key, now)] && answers == old(answers) + [ok] && clock == now
      ensures ok <==> Counted(FullWindow(old(calls), key), now).count <= limit
    {
      var w := Counted(if key in rate then Some(rate[key]) else None, now);
      CountingIsFaithful(rate, calls, clock, key, now, w);
      rate := rate[key := w];
      if |rate| > TABLE_BOUND {
        ghost var all := rate;
        rate := Prune(rate, now);
        PruningIsFaithful(all, rate, calls + [Call(key, now)], now);
      }
      ok := w.count <= limit;
      OneMoreAnswer(calls, answers, limit, Call(key, now), ok);
      calls, answers, clock := calls + [Call(key, now)], answers + [ok], now;
    }

    /** What the answers of this table promise. */
    lemma MinuteIsBounded(key: string, a: nat, b: nat)
      requires Valid() && a < b <= |calls| && calls[b - 1].at - calls[a].at <= MINUTE
      ensures Granted(calls, answers, key, a, b) <= 2 * limit - 1
    {
      AnyMinuteOfATable(calls, answers, limit, key, a, b);
    }
  }

  // ---------- What the windows promise ----------

  predicate Accepted(times: seq<int>, limit: nat, n: nat)
    requires n < |times|
  {
    WindowAfter(times[..n + 1]).value.count <= limit
  }

  /** Accepted connections from number `i` up to, not including, `j`. */
  function AcceptedBetween(times: seq<int>, limit: nat, i: nat, j: nat): nat
    requires i <= j <= |times|
    decreases j
  {
    if i == j then 0
    else AcceptedBetween(times, limit, i, j - 1) + (if Accepted(times, limit, j - 1) then 1 else 0)
  }

  /** Connection `n` opens a new window. */
  predicate Restarts(times: seq<int>, n: nat)
    requires n < |times|
  {
    WindowAfter(times[..n]).None? || times[n] - WindowAfter(times[..n]).value.start > MINUTE
  }

  ghost predicate Increasing(times: seq<int>) {
    forall i, j :: 0 <= i <= j < |times| ==> times[i] <= times[j]
  }

  lemma WindowStep(times: seq<int>, n: nat)
    requires n < |times|
    ensures WindowAfter(times[..n + 1]) == Some(Counted(WindowAfter(times[..n]), times[n]))
  {
    assert times[..n + 1][..n] == times[..n];
  }

  /** While no new window opens, counts only grow: of the connections `i..j`
      at most what the window had left is accepted. */
  lemma {:induction false} WithinOneWindow(times: seq<int>, limit: nat, i: nat, j: nat)
    requires i < j <= |times| && limit > 0
    requires forall n :: i < n < j ==> !Restarts(times, n)
    ensures WindowAfter(times[..j]).Some?
    ensures WindowAfter(times[..j]).value.start == WindowAfter(times[..i + 1]).value.start
    ensures var before := if Restarts(times, i) then 0 else WindowAfter(times[..i]).value.count;
      && AcceptedBetween(times, limit, i, j) <= WindowAfter(times[..j]).value.count - before
      && AcceptedBetween(times, limit, i, j) <= if before <= limit then limit - before else 0
    decreases j
  {
    if j == i + 1 {
      WindowStep(times, i);
      assert AcceptedBetween(times, limit, i, i) == 0;
    } else {
      WithinOneWindow(times, limit, i, j - 1);
      assert !Restarts(times, j - 1);
      WindowStep(times, j - 1);
    }
  }

  /** Every window holds at least the connection that opened it, and was opened
      by one that is no later. */
  lemma {:induction false} WindowHasOpener(times: seq<int>, n: nat)
    requires Increasing(times) && 0 < n <= |times|
    ensures WindowAfter(times[..n]).Some? && WindowAfter(times[..n]).value.count >= 1
    ensures WindowAfter(times[..n]).value.start <= times[n - 1]
  {
    WindowStep(times, n - 1);
    if n > 1 {
      WindowHasOpener(times, n - 1);
    }
  }

  /** After a restart at `m` no other follows within a minute. */
  lemma {:induction false} NoSecondRestart(times: seq<int>, m: nat, j: nat)
    requires Increasing(times) && m < j <= |times| && Restarts(times, m)
    requires times[j - 1] - times[m] <= MINUTE
    ensures forall n :: m < n < j ==> !Restarts(times, n)
    ensures WindowAfter(times[..j]).Some? && WindowAfter(times[..j]).value.start == times[m]
    decreases j
  {
    WindowStep(times, j - 1);
    if j > m + 1 {
      NoSecondRestart(times, m, j - 1);
    }
  }

  /** Whatever its alignment, no span of a minute accepts more than twice the
      limit less one from one address. */
  lemma AnyMinuteIsBounded(times: seq<int>, limit: nat, i: nat, j: nat)
    requires Increasing(times) && limit > 0 && i < j <= |times|
    requires times[j - 1] - times[i] <= MINUTE
    ensures AcceptedBetween(times, limit, i, j) <= 2 * limit - 1
  {
    if m: nat :| i < m < j && Restarts(times, m) && forall n :: i < n < m ==> !Restarts(times, n) {
      WindowHasOpener(times, m);
      WithinOneWindow(times, limit, i, m);
      NoSecondRestart(times, m, j);
      WithinOneWindow(times, limit, m, j);
      if i > 0 {
        WindowHasOpener(times, i);
      }
      WindowStep(times, i);
      AcceptedSplits(times, limit, i, m, j);
    } else {
      FirstRestart(times, i, j);
      WithinOneWindow(times, limit, i, j);
    }
  }

  lemma {:induction false} FirstRestart(times: seq<int>, i: nat, j: nat)
    requires i < j <= |times|
    requires !exists m :: i < m < j && Restarts(times, m) && forall n :: i < n < m ==> !Restarts(times, n)
    ensures forall n :: i < n < j ==> !Restarts(times, n)
    decreases j
  {
    if j > i + 1 {
      FirstRestart(times, i, j - 1);
    }
  }

  lemma {:induction false} AcceptedSplits(times: seq<int>, limit: nat, i: nat, m: nat, j: nat)
    requires i <= m <= j <= |times|
    ensures AcceptedBetween(times, limit, i, j) ==
              AcceptedBetween(times, limit, i, m) + AcceptedBetween(times, limit, m, j)
    decreases j
  {
    if m < j {
      AcceptedSplits(times, limit, i, m, j - 1);
    }
  }

  // ---------- How tight the bound is ----------

  /** One connection opens a window, the rest of the limit comes a minute later,
      and a full limit a nanosecond after that. */
  function CrowdTime(limit: nat, k: nat): int {
    if k == 0 then 0 else if k < limit then MINUTE else MINUTE + 1
  }

  function Crowd(limit: nat, n: nat): (times: seq<int>)
    ensures |times| == n
  {
    if n == 0 then [] else Crowd(limit, n - 1) + [CrowdTime(limit, n - 1)]
  }

  lemma {:induction false} CrowdPrefix(limit: nat, n: nat, k: nat)
    requires k <= n
    ensures Crowd(limit, n)[..k] == Crowd(limit, k)
    ensures k < n ==> Crowd(limit, n)[k] == CrowdTime(limit, k)
  {
    if k < n {
      CrowdPrefix(limit, n - 1, k);
      assert Crowd(limit, n)[..k] == Crowd(limit, n - 1)[..k];
    }
  }

  lemma {:induction false} CrowdWindow(limit: nat, n: nat)
    requires 0 < limit && 0 < n <= 2 * limit
    ensures WindowAfter(Crowd(limit, n)) == Some(if n <= limit then Window(0, n) else Window(MINUTE + 1, n - limit))
  {
    assert Crowd(limit, n)[..n - 1] == Crowd(limit, n - 1);
    if n > 1 {
      CrowdWindow(limit, n - 1);
    }
  }

  lemma CrowdAccepts(limit: nat, k: nat)
    requires 0 < limit && k < 2 * limit
    ensures Accepted(Crowd(limit, 2 * limit), limit, k)
  {
    CrowdPrefix(limit, 2 * limit, k + 1);
    CrowdWindow(limit, k + 1);
  }

  lemma {:induction false} AllAccepted(times: seq<int>, limit: nat, i: nat, j: nat)
    requires i <= j <= |times| && forall k: nat :: i <= k < j ==> Accepted(times, limit, k)
    ensures AcceptedBetween(times, limit, i, j) == j - i
    decreases j
  {
    if i < j {
      AllAccepted(times, limit, i, j - 1);
    }
  }

  lemma CrowdIsIncreasing(limit: nat, n: nat)
    ensures Increasing(Crowd(limit, n))
  {
    var times := Crowd(limit, n);
    forall i, j | 0 <= i <= j < n ensures times[i] <= times[j] {
      CrowdPrefix(limit, n, i);
      CrowdPrefix(limit, n, j);
    }
  }

  /** The bound is met for every limit: all of these connections are accepted, and
      all but the first come within a nanosecond. */
  lemma BoundIsMet(limit: nat)
    requires limit > 0
    ensures var times := Crowd(limit, 2 * limit);
      && Increasing(times) && times[2 * limit - 1] - times[1] <= 1
      && AcceptedBetween(times, limit, 1, 2 * limit) == 2 * limit - 1
  {
    CrowdIsIncreasing(limit, 2 * limit);
    CrowdPrefix(limit, 2 * limit, 1);
    CrowdPrefix(limit, 2 * limit, 2 * limit - 1);
    forall k: nat | 1 <= k < 2 * limit ensures Accepted(Crowd(limit, 2 * limit), limit, k) { CrowdAccepts(limit, k); }
    AllAccepted(Crowd(limit, 2 * limit), limit, 1, 2 * limit);
  }

  /** No minute accepts more than the limit. */
  ghost predicate HoldsPerMinute(limit: nat) {
    forall times, i: nat, j: nat {:trigger AcceptedBetween(times, limit, i, j)} ::
      Increasing(times) && i < j <= |times| && times[j - 1] - times[i] <= MINUTE ==>
        AcceptedBetween(times, limit, i, j) <= limit
  }

  /** The limit on connections per minute is one on every minute, wherever it
      starts, if and only if it is one. */
  lemma PerMinuteExactlyWhen(limit: nat)
    requires limit > 0
    ensures HoldsPerMinute(limit) <==> limit == 1
  {
    if limit == 1 {
      forall times, i: nat, j: nat
        | Increasing(times) && i < j <= |times| && times[j - 1] - times[i] <= MINUTE
        ensures AcceptedBetween(times, limit, i, j) <= limit
      {
        AnyMinuteIsBounded(times, limit, i, j);
      }
    } else {
      BoundIsMet(limit);
      var times := Crowd(limit, 2 * limit);
      assert AcceptedBetween(times, limit, 1, 2 * limit) > limit;
    }
  }

  // ---------- The same for the answers of a table ----------

  ghost predicate Ordered(calls: seq<Call>) {
    forall i, j :: 0 <= i <= j < |calls| ==> calls[i].at <= calls[j].at
  }

  /** Each answer is the one a table that never forgets would give. */
  ghost predicate Answered(calls: seq<Call>, answers: seq<bool>, limit: nat) {
    && |answers| == |calls|
    && forall k: nat :: k < |calls| ==> AnswerOk(calls, answers, limit, k)
  }

  ghost predicate AnswerOk(calls: seq<Call>, answers: seq<bool>, limit: nat, k: nat)
    requires k < |calls| && k < |answers|
  {
    answers[k] <==> Counted(FullWindow(calls[..k], calls[k].key), calls[k].at).count <= limit
  }

  lemma OneMoreAnswer(calls: seq<Call>, answers: seq<bool>, limit: nat, c: Call, ok: bool)
    requires Answered(calls, answers, limit) && (ok <==> Counted(FullWindow(calls, c.key), c.at).count <= limit)
    ensures Answered(calls + [c], answers + [ok], limit)
  {
    forall k: nat | k < |calls + [c]| ensures AnswerOk(calls + [c], answers + [ok], limit, k) {
      if k < |calls| {
        assert (calls + [c])[..k] == calls[..k] && AnswerOk(calls, answers, limit, k);
      } else {
        assert (calls + [c])[..k] == calls;
      }
    }
  }

  /** The connections of `key` let in by calls `a` up to, not including, `b`. */
  function Granted(calls: seq<Call>, answers: seq<bool>, key: string, a: nat, b: nat): nat
    requires a <= b <= |calls| == |answers|
    decreases b
  {
    if a == b then 0
    else Granted(calls, answers, key, a, b - 1) + if calls[b - 1].key == key && answers[b - 1] then 1 else 0
  }

  /** How many of the first `k` calls are of `key`. */
  function NumberOf(calls: seq<Call>, key: string, k: nat): nat
    requires k <= |calls|
  {
    |TimesOf(calls[..k], key)|
  }

  lemma TimesStep(calls: seq<Call>, key: string, k: nat)
    requires k < |calls|
    ensures TimesOf(calls[..k + 1], key)
      == TimesOf(calls[..k], key) + if calls[k].key == key then [calls[k].at] else []
  {
    assert calls[..k + 1][..k] == calls[..k];
  }

  lemma {:induction false} TimesPrefix(calls: seq<Call>, key: string, j: nat, k: nat)
    requires j <= k <= |calls|
    ensures NumberOf(calls, key, j) <= NumberOf(calls, key, k)
    ensures TimesOf(calls[..k], key)[..NumberOf(calls, key, j)] == TimesOf(calls[..j], key)
    decreases k
  {
    if j < k {
      TimesPrefix(calls, key, j, k - 1);
      TimesStep(calls, key, k - 1);
    }
  }

  /** The times of a key are in order, and those of calls `a..k` lie between. */
  lemma {:induction false} TimesInOrder(calls: seq<Call>, key: string, a: nat, k: nat)
    requires Ordered(calls) && a <= k <= |calls|
    ensures Increasing(TimesOf(calls[..k], key))
    ensures forall m :: 0 <= m < NumberOf(calls, key, k) ==> TimesOf(calls[..k], key)[m] <= calls[k - 1].at
    ensures forall m :: NumberOf(calls, key, a) <= m < NumberOf(calls, key, k) ==>
              calls[a].at <= TimesOf(calls[..k], key)[m]
    decreases k
  {
    if k > 0 {
      TimesStep(calls, key, k - 1);
      if a < k {
        TimesInOrder(calls, key, a, k - 1);
      } else {
        TimesInOrder(calls, key, k - 1, k - 1);
      }
    }
  }

  /** Call `k` is the connection numbered after those before it, with the answer
      the window of its key gives. */
  lemma AnswerIsAccepted(calls: seq<Call>, answers: seq<bool>, limit: nat, times: seq<int>, k: nat)
    requires Answered(calls, answers, limit) && k < |calls| && times == TimesOf(calls[..|calls|], calls[k].key)
    ensures var m := NumberOf(calls, calls[k].key, k);
      && m < |times| && NumberOf(calls, calls[k].key, k + 1) == m + 1
      && (Accepted(times, limit, m) <==> answers[k])
  {
    var key := calls[k].key;
    var m := NumberOf(calls, key, k);
    TimesPrefix(calls, key, k, |calls|);
    TimesPrefix(calls, key, k + 1, |calls|);
    TimesStep(calls, key, k);
    assert times[..m + 1][m] == calls[k].at;
    WindowStep(times, m);
    assert AnswerOk(calls, answers, limit, k);
  }

  /** One more call is one more connection of its key, let in or not alike. */
  lemma GrantedStep(calls: seq<Call>, answers: seq<bool>, limit: nat, key: string, times: seq<int>, i: nat, k: nat)
    requires Answered(calls, answers, limit) && k < |calls| && times == TimesOf(calls[..|calls|], key)
    requires i <= NumberOf(calls, key, k) <= |times|
    ensures NumberOf(calls, key, k) <= NumberOf(calls, key, k + 1) <= |times|
    ensures AcceptedBetween(times, limit, i, NumberOf(calls, key, k + 1))
      == AcceptedBetween(times, limit, i, NumberOf(calls, key, k)) + if calls[k].key == key && answers[k] then 1 else 0
  {
    if calls[k].key == key {
      AnswerIsAccepted(calls, answers, limit, times, k);
    } else {
      TimesStep(calls, key, k);
    }
  }

  /** Counting answers call by call, or connections key by key, is the same. */
  lemma {:induction false} GrantedAreAccepted(calls: seq<Call>, answers: seq<bool>, limit: nat, key: string,
                                              times: seq<int>, a: nat, b: nat)
    requires Answered(calls, answers, limit) && a <= b <= |calls| && times == TimesOf(calls[..|calls|], key)
    ensures NumberOf(calls, key, a) <= NumberOf(calls, key, b) <= |times|
    ensures Granted(calls, answers, key, a, b)
      == AcceptedBetween(times, limit, NumberOf(calls, key, a), NumberOf(calls, key, b))
    decreases b
  {
    if a < b {
      GrantedAreAccepted(calls, answers, limit, key, times, a, b - 1);
      GrantedStep(calls, answers, limit, key, times, NumberOf(calls, key, a), b - 1);
    } else {
      TimesPrefix(calls, key, a, |calls|);
    }
  }

  /** Whatever its alignment, no minute of a table lets in more than twice the
      limit less one from one address. */
  lemma AnyMinuteOfATable(calls: seq<Call>, answers: seq<bool>, limit: nat, key: string, a: nat, b: nat)
    requires Ordered(calls) && Answered(calls, answers, limit) && limit > 0
    requires a < b <= |calls| && calls[b - 1].at - calls[a].at <= MINUTE
    ensures Granted(calls, answers, key, a, b) <= 2 * limit - 1
  {
    var times, i, j := TimesOf(calls[..|calls|], key), NumberOf(calls, key, a), NumberOf(calls, key, b);
    GrantedAreAccepted(calls, answers, limit, key, times, a, b);
    if i < j {
      TimesInOrder(calls, key, 0, |calls|);
      TimesInOrder(calls, key, a, b);
      TimesPrefix(calls, key, b, |calls|);
      assert times[..j][i] == times[i] && times[..j][j - 1] == times[j - 1];
      AnyMinuteIsBounded(times, limit, i, j);
    }
  }
}
