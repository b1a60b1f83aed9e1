/** The phones of one relay session as values, and the meaning of each step
    that `internal/relay/relay.go` takes on them while it holds the session
    lock.  `RelaySession` proves its methods against these definitions;
    `RelayRuns` proves what every run keeps. */
module RelayPhones {
  import opened Options
  import opened Sets

  /** A 16-bit channel number; 0 is the control channel. */
  type Channel = c: int | 0 <= c < 0x1_0000

  datatype PhoneView = PhoneView(
    key: string,        // the address group of the phone; never empty
    openedAt: int,        // when the phone connected
    token: string,      // names this incarnation of the channel
    bridgeFrames: nat,
    admitted: bool,
    vouched: bool)

  type Phones = map<Channel, PhoneView>

  datatype Limits = Limits(maxPhones: nat, maxPending: nat, maxPendingPerKey: nat) {
    ghost predicate Valid() {
      && maxPhones > 0 && maxPending > 0 && maxPendingPerKey > 0
      && maxPhones + maxPending < 0xFFFF
    }
  }

  // ---------- The groups the limits count ----------

  function Admitted(ph: Phones): set<Channel> {
    set c | c in ph && ph[c].admitted
  }

  function Pending(ph: Phones): set<Channel> {
    set c | c in ph && !ph[c].admitted
  }

  function PendingOf(ph: Phones, key: string): set<Channel> {
    set c | c in ph && !ph[c].admitted && ph[c].key == key
  }

  function Unvouched(ph: Phones, key: string): set<Channel> {
    set c | c in ph && !ph[c].admitted && !ph[c].vouched && ph[c].key == key
  }

  ghost predicate WithinCaps(ph: Phones, limits: Limits) {
    && |Admitted(ph)| <= limits.maxPhones
    && |Pending(ph)| <= limits.maxPending
    && forall key :: |PendingOf(ph, key)| <= limits.maxPendingPerKey
  }

  lemma SizeSplits(ph: Phones)
    ensures |ph| == |Admitted(ph)| + |Pending(ph)|
  {
    assert ph.Keys == Admitted(ph) + Pending(ph);
    assert Admitted(ph) !! Pending(ph);
    assert |ph.Keys| == |Admitted(ph) + Pending(ph)|;
  }

  // ---------- Who is displaced for a newcomer ----------

  /** `v` has the earliest arrival in `s`. */
  ghost predicate Oldest(ph: Phones, s: set<Channel>, v: Channel)
    requires s <= ph.Keys
  {
    v in s && forall c :: c in s ==> ph[v].openedAt <= ph[c].openedAt
  }

  /** `v` is the oldest phone that may be displaced among those of `key`. */
  ghost predicate OldestOf(ph: Phones, key: string, v: Channel) {
    Oldest(ph, Unvouched(ph, key), v)
  }

  /** No other address group has more displaceable phones than `key`, whose
      oldest one is `v`; among equals none has an older one. */
  ghost predicate Busiest(ph: Phones, key: string, v: Channel) {
    && OldestOf(ph, key, v)
    && forall other, w :: OldestOf(ph, other, w) ==>
         || |Unvouched(ph, other)| < |Unvouched(ph, key)|
         || (|Unvouched(ph, other)| == |Unvouched(ph, key)| && ph[v].openedAt <= ph[w].openedAt)
  }

  /** The displacement policy for a newcomer of group `key`. */
  ghost predicate IsVictim(ph: Phones, key: string, limits: Limits, victim: Option<Channel>) {
    if |PendingOf(ph, key)| >= limits.maxPendingPerKey then
      match victim
      case None => Unvouched(ph, key) == {}
      case Some(v) => OldestOf(ph, key, v)
    else if |Pending(ph)| < limits.maxPending then
      victim == None
    else
      match victim
      case None => forall c :: c in Pending(ph) ==> ph[c].vouched
      case Some(v) => v in ph && Busiest(ph, ph[v].key, v)
  }

  ghost predicate Full(ph: Phones, key: string, limits: Limits) {
    |PendingOf(ph, key)| >= limits.maxPendingPerKey || |Pending(ph)| >= limits.maxPending
  }

  /** A nonempty finite set of channels has an oldest member. */
  lemma {:induction false} OldestExists(ph: Phones, s: set<Channel>) returns (v: Channel)
    requires s != {} && s <= ph.Keys
    ensures Oldest(ph, s, v)
    decreases s
  {
    v :| v in s;
    if s != {v} {
      var w := OldestExists(ph, s - {v});
      if ph[w].openedAt < ph[v].openedAt {
        v := w;
      }
    }
  }

  /** What a displacement costs: only an unvouched pending phone is ever displaced,
      the oldest of its group; one of the newcomer's own group when that group is
      full, and otherwise one of a group that no other outnumbers, ties going to
      the oldest of all. */
  lemma DisplacementIsFair(ph: Phones, key: string, limits: Limits, v: Channel)
    requires IsVictim(ph, key, limits, Some(v))
    ensures v in ph && !ph[v].admitted && !ph[v].vouched
    ensures Full(ph, key, limits)
    ensures |Unvouched(ph, key)| <= |Unvouched(ph, ph[v].key)|
    ensures forall c :: c in Unvouched(ph, ph[v].key) ==> ph[v].openedAt <= ph[c].openedAt
    ensures |PendingOf(ph, key)| >= limits.maxPendingPerKey ==> ph[v].key == key
    ensures |PendingOf(ph, key)| < limits.maxPendingPerKey ==>
              forall c :: c in ph && !ph[c].admitted && !ph[c].vouched ==>
                || |Unvouched(ph, ph[c].key)| < |Unvouched(ph, ph[v].key)|
                || (|Unvouched(ph, ph[c].key)| == |Unvouched(ph, ph[v].key)| && ph[v].openedAt <= ph[c].openedAt)
  {
    if |PendingOf(ph, key)| < limits.maxPendingPerKey {
      if Unvouched(ph, key) != {} {
        var w := OldestExists(ph, Unvouched(ph, key));
        assert OldestOf(ph, key, w);
      }
      forall c | c in ph && !ph[c].admitted && !ph[c].vouched
        ensures || |Unvouched(ph, ph[c].key)| < |Unvouched(ph, ph[v].key)|
                || (|Unvouched(ph, ph[c].key)| == |Unvouched(ph, ph[v].key)| && ph[v].openedAt <= ph[c].openedAt)
      {
        assert c in Unvouched(ph, ph[c].key);
        var w := OldestExists(ph, Unvouched(ph, ph[c].key));
        assert OldestOf(ph, ph[c].key, w);
      }
    }
  }

  /** A newcomer is refused for pending capacity exactly when capacity is
      reached and every phone that could make room has been vouched for. */
  lemma RefusedOnlyWhenProtected(ph: Phones, key: string, limits: Limits, victim: Option<Channel>)
    requires IsVictim(ph, key, limits, victim)
    ensures Full(ph, key, limits) && victim == None <==>
              if |PendingOf(ph, key)| >= limits.maxPendingPerKey
              then forall c :: c in PendingOf(ph, key) ==> ph[c].vouched
              else |Pending(ph)| >= limits.maxPending && forall c :: c in Pending(ph) ==> ph[c].vouched
  {
    match victim
    case None =>
      if |PendingOf(ph, key)| >= limits.maxPendingPerKey {
        forall c | c in PendingOf(ph, key) ensures ph[c].vouched {
          assert c !in Unvouched(ph, key);
        }
      }
    case Some(v) =>
      DisplacementIsFair(ph, key, limits, v);
      assert v in Pending(ph);
      if |PendingOf(ph, key)| >= limits.maxPendingPerKey {
        assert v in PendingOf(ph, key);
      }
  }

  // ---------- Channel numbers ----------

  /** The number tried after `c`: 16-bit increment, skipping 0. */
  function After(c: Channel): (r: Channel)
    ensures r != 0
  {
    var n := (c + 1) % 0x1_0000;
    if n == 0 then 1 else n
  }

  ghost predicate Within(c: Channel, lo: nat, hi: nat) { lo <= c < hi }

  /** The channels from `lo` up to, not including, `hi`. */
  ghost function Range(lo: nat, hi: nat): set<Channel>
    requires lo <= hi <= 0x1_0000
  {
    set c: Channel | lo <= c < hi && Within(c, lo, hi)
  }

  lemma {:induction false} RangeSize(lo: nat, hi: nat)
    requires lo <= hi <= 0x1_0000
    ensures |Range(lo, hi)| == hi - lo
    decreases hi - lo
  {
    if lo < hi {
      RangeSize(lo, hi - 1);
      forall c: Channel ensures c in Range(lo, hi) <==> c in Range(lo, hi - 1) + {hi - 1} {
        assert Within(c, lo, hi) <==> Within(c, lo, hi - 1) || c == hi - 1;
      }
      assert Range(lo, hi) == Range(lo, hi - 1) + {hi - 1};
      assert !Within(hi - 1, lo, hi - 1);
    } else {
      forall c: Channel ensures c !in Range(lo, hi) { assert !Within(c, lo, hi); }
    }
  }

  /** The numbers tried from `first` up to, not including, `c`, in the order of
      `After`. */
  ghost function Tried(first: Channel, c: Channel): set<Channel>
    requires first != 0 && c != 0
  {
    if first <= c then Range(first, c) else Range(first, 0x1_0000) + Range(1, c)
  }

  /** `ch` is the first free number after `last`. */
  ghost predicate FirstFree(ph: Phones, last: Channel, ch: Channel) {
    && ch != 0 && ch !in ph
    && Tried(After(last), ch) <= ph.Keys
  }

  /** The caps leave room among the 65535 channel numbers. */
  lemma RoomLeft(ph: Phones, left: Phones, limits: Limits)
    requires limits.Valid() && WithinCaps(ph, limits) && left.Keys <= ph.Keys
    ensures |left| < 0xFFFF
  {
    SizeSplits(ph);
    SubsetSize(left.Keys, ph.Keys);
    assert |left| == |left.Keys| && |ph| == |ph.Keys|;
  }

  /** Trying every nonzero number would need 65535 phones: this is what ends the
      search for a free one. */
  lemma SearchComesRound(ph: Phones, first: Channel)
    requires first != 0 && |ph| < 0xFFFF
    ensures !(Range(first, 0x1_0000) + Range(1, first) <= ph.Keys)
  {
    RangeSize(first, 0x1_0000);
    RangeSize(1, first);
    forall c: Channel ensures !(c in Range(first, 0x1_0000) && c in Range(1, first)) {
      assert !(Within(c, first, 0x1_0000) && Within(c, 1, first));
    }
    assert Range(first, 0x1_0000) !! Range(1, first);
    SubsetSize(Range(first, 0x1_0000) + Range(1, first), ph.Keys);
  }

  // ---------- Steps ----------

  datatype ConnectOutcome =
    | SessionFull                                          // too many admitted phones
    | PendingProtected                                     // nobody may be displaced
    | Connected(ch: Channel, displaced: Option<Channel>)

  function Remove(ph: Phones, ch: Channel): Phones { ph - {ch} }

  function Fresh(key: string, openedAt: int, token: string): PhoneView {
    PhoneView(key, openedAt, token, 0, false, false)
  }

  /** One newcomer: every outcome the relay may choose, with the new phones and
      the new last-used channel number. */
  ghost predicate Connects(
    ph: Phones, last: Channel, limits: Limits, newcomer: PhoneView,
    outcome: ConnectOutcome, ph': Phones, last': Channel)
  {
    match outcome
    case SessionFull =>
      |Admitted(ph)| >= limits.maxPhones && ph' == ph && last' == last
    case PendingProtected =>
      && |Admitted(ph)| < limits.maxPhones
      && Full(ph, newcomer.key, limits)
      && IsVictim(ph, newcomer.key, limits, None)
      && ph' == ph && last' == last
    case Connected(ch, displaced) =>
      && |Admitted(ph)| < limits.maxPhones
      && IsVictim(ph, newcomer.key, limits, displaced)
      && (displaced == None ==> !Full(ph, newcomer.key, limits))
      && var left := if displaced.Some? then Remove(ph, displaced.value) else ph;
      && FirstFree(left, last, ch)
      && ph' == left[ch := newcomer] && last' == ch
  }

  /** A data frame from the bridge on `ch`: the second one admits the phone if
      the session has room. */
  function CountFrame(ph: Phones, ch: Channel, maxAdmitted: nat): (r: (Phones, bool)) {
    if ch !in ph then (ph, false)
    else
      var p := ph[ch].(bridgeFrames := ph[ch].bridgeFrames + 1);
      if p.bridgeFrames == 2 && !p.admitted then
        if |Admitted(ph)| < maxAdmitted then (ph[ch := p.(admitted := true)], false)
        else (ph[ch := p], true)
      else (ph[ch := p], false)
  }

  predicate Base64Char(c: char) {
    'A' <= c <= 'Z' || 'a' <= c <= 'z' || '0' <= c <= '9' || c == '-' || c == '_'
  }

  /** The decoder skips line breaks. */
  function WithoutBreaks(s: string): string {
    if s == "" then ""
    else if s[0] == '\r' || s[0] == '\n' then WithoutBreaks(s[1..])
    else [s[0]] + WithoutBreaks(s[1..])
  }

  /** Unpadded base64url text that decodes to 16 bytes. */
  predicate SixteenByteToken(token: string) {
    var s := WithoutBreaks(token);
    |s| == 22 && forall c :: c in s ==> Base64Char(c)
  }

  /** A vouch is honoured only on the current attachment and only for the named
      incarnation, before the bridge has sent it anything. */
  function Vouch(ph: Phones, ch: Channel, token: string, current: bool): Phones {
    if !SixteenByteToken(token) || !current || ch !in ph then ph
    else
      var p := ph[ch];
      if p.admitted || p.bridgeFrames != 0 || p.vouched || p.token != token then ph
      else ph[ch := p.(vouched := true)]
  }

  /** A close from the bridge; an absent token (older bridges) names whatever
      phone holds the channel. */
  function CloseFromBridge(ph: Phones, ch: Channel, token: string): Phones {
    if ch !in ph || (token != "" && ph[ch].token != token) then ph else Remove(ph, ch)
  }

  /** The admission timer of the phone with this token. */
  function CloseIfPending(ph: Phones, ch: Channel, token: string): Phones {
    if ch !in ph || ph[ch].token != token || ph[ch].admitted then ph else Remove(ph, ch)
  }

  /** The phone with this token leaves on its own account. */
  function Leave(ph: Phones, ch: Channel, token: string): Phones {
    if ch in ph && ph[ch].token == token then Remove(ph, ch) else ph
  }
}
