/** Whole runs of one relay session: every interleaving of newcomers, bridge
    frames, vouches, timers and closes, each taken as one locked step. */
module RelayRuns {
  import opened Options
  import opened RelayPhones
  import opened Sets

  /** `used` remembers every token the session has issued, `reports` for whose
      frames it found the admitted phones at their cap. */
  datatype State = State(phones: Phones, nextCh: Channel, used: set<string>, reports: seq<string>)

  const Initial := State(map[], 0, {}, [])

  datatype Action =
    | Arrive(key: string, openedAt: int, token: string, outcome: ConnectOutcome)
    | Frame(ch: Channel)
    | VouchFor(ch: Channel, token: string, current: bool)
    | CloseByRelay(ch: Channel)                   // over the cap, rate limit, failed write
    | CloseByBridge(ch: Channel, token: string)
    | Timeout(ch: Channel, token: string)
    | Gone(ch: Channel, token: string)
    | BridgeGone

  ghost predicate Next(limits: Limits, s: State, a: Action, s': State) {
    match a
    case Arrive(key, openedAt, token, outcome) =>
      && key != "" && token != "" && token !in s.used
      && s'.used == s.used + {token} && s'.reports == s.reports
      && Connects(s.phones, s.nextCh, limits, Fresh(key, openedAt, token), outcome, s'.phones, s'.nextCh)
    case Frame(ch) =>
      && var (phones, overCap) := CountFrame(s.phones, ch, limits.maxPhones);
      && s' == s.(phones := phones,
                  reports := if overCap && ch in s.phones then s.reports + [s.phones[ch].token] else s.reports)
    case VouchFor(ch, token, current) => s' == s.(phones := Vouch(s.phones, ch, token, current))
    case CloseByRelay(ch) => s' == s.(phones := Remove(s.phones, ch))
    case CloseByBridge(ch, token) => s' == s.(phones := CloseFromBridge(s.phones, ch, token))
    case Timeout(ch, token) => s' == s.(phones := CloseIfPending(s.phones, ch, token))
    case Gone(ch, token) => s' == s.(phones := Leave(s.phones, ch, token))
    case BridgeGone => s' == s.(phones := map[])
  }

  ghost predicate IsRun(limits: Limits, states: seq<State>, actions: seq<Action>) {
    && |states| == |actions| + 1
    && states[0] == Initial
    && forall i {:trigger actions[i]} :: 0 <= i < |actions| ==> Next(limits, states[i], actions[i], states[i + 1])
  }

  ghost predicate WellFormed(s: State) {
    && (forall c :: c in s.phones ==> c != 0 && s.phones[c].key != "" && s.phones[c].token in s.used)
    && (forall c, d :: c in s.phones && d in s.phones && s.phones[c].token == s.phones[d].token ==> c == d)
    && (forall c :: c in s.phones && s.phones[c].admitted ==> s.phones[c].bridgeFrames >= 2)
  }

  ghost predicate Inv(limits: Limits, s: State) {
    WithinCaps(s.phones, limits) && WellFormed(s)
  }

  /** Dropping phones never breaks a cap. */
  lemma FewerPhones(ph: Phones, ph': Phones, limits: Limits)
    requires WithinCaps(ph, limits)
    requires ph'.Keys <= ph.Keys && forall c :: c in ph' ==> ph'[c] == ph[c]
    ensures WithinCaps(ph', limits)
  {
    SubsetSize(Admitted(ph'), Admitted(ph));
    SubsetSize(Pending(ph'), Pending(ph));
    forall key ensures |PendingOf(ph', key)| <= limits.maxPendingPerKey {
      SubsetSize(PendingOf(ph', key), PendingOf(ph, key));
    }
  }

  /** A new pending phone on a free channel adds one to the pending phones and
      one to those of its address group. */
  lemma OneMorePending(ph: Phones, ch: Channel, p: PhoneView)
    requires ch !in ph && !p.admitted
    ensures Admitted(ph[ch := p]) == Admitted(ph)
    ensures |Pending(ph[ch := p])| == |Pending(ph)| + 1
  {
    assert Pending(ph[ch := p]) == Pending(ph) + {ch};
  }

  lemma OneMoreOfGroup(ph: Phones, ch: Channel, p: PhoneView, key: string)
    requires ch !in ph && !p.admitted
    ensures |PendingOf(ph[ch := p], key)| == |PendingOf(ph, key)| + (if key == p.key then 1 else 0)
  {
    if key == p.key {
      assert PendingOf(ph[ch := p], key) == PendingOf(ph, key) + {ch};
    } else {
      assert PendingOf(ph[ch := p], key) == PendingOf(ph, key);
    }
  }

  /** Making room for a newcomer and placing it keeps every cap. */
  lemma ArrivalKeepsCaps(
    ph: Phones, last: Channel, limits: Limits, p: PhoneView, outcome: ConnectOutcome, ph': Phones, last': Channel)
    requires limits.Valid() && WithinCaps(ph, limits) && !p.admitted
    requires Connects(ph, last, limits, p, outcome, ph', last')
    ensures WithinCaps(ph', limits)
  {
    if outcome.Connected? {
      if outcome.displaced.Some? {
        ReplacementKeepsCaps(ph, limits, p, outcome.displaced.value, outcome.ch);
      } else {
        OneMorePending(ph, outcome.ch, p);
        forall key ensures |PendingOf(ph', key)| <= limits.maxPendingPerKey {
          OneMoreOfGroup(ph, outcome.ch, p, key);
        }
      }
    }
  }

  lemma ReplacementKeepsCaps(ph: Phones, limits: Limits, p: PhoneView, v: Channel, ch: Channel)
    requires WithinCaps(ph, limits) && !p.admitted
    requires IsVictim(ph, p.key, limits, Some(v)) && v in ph && ch !in Remove(ph, v)
    ensures WithinCaps(Remove(ph, v)[ch := p], limits)
  {
    DisplacementIsFair(ph, p.key, limits, v);
    var left := Remove(ph, v);
    assert left[v := ph[v]] == ph;
    var ph' := left[ch := p];
    OneMorePending(left, v, ph[v]);
    OneMorePending(left, ch, p);
    forall key ensures |PendingOf(ph', key)| <= limits.maxPendingPerKey {
      assert |PendingOf(ph, key)| <= limits.maxPendingPerKey;
      OneMoreOfGroup(left, v, ph[v], key);
      OneMoreOfGroup(left, ch, p, key);
    }
  }

  lemma FrameKeepsCaps(ph: Phones, ch: Channel, limits: Limits)
    requires WithinCaps(ph, limits)
    ensures WithinCaps(CountFrame(ph, ch, limits.maxPhones).0, limits)
  {
    var ph' := CountFrame(ph, ch, limits.maxPhones).0;
    if ch in ph {
      assert Admitted(ph') == Admitted(ph) || Admitted(ph') == Admitted(ph) + {ch};
      SubsetSize(Pending(ph'), Pending(ph));
      forall key ensures |PendingOf(ph', key)| <= limits.maxPendingPerKey {
        SubsetSize(PendingOf(ph', key), PendingOf(ph, key));
      }
    }
  }

  lemma VouchKeepsCaps(ph: Phones, ch: Channel, token: string, current: bool, limits: Limits)
    requires WithinCaps(ph, limits)
    ensures WithinCaps(Vouch(ph, ch, token, current), limits)
  {
    var ph' := Vouch(ph, ch, token, current);
    assert Admitted(ph') == Admitted(ph) && Pending(ph') == Pending(ph);
    forall key ensures |PendingOf(ph', key)| <= limits.maxPendingPerKey {
      assert PendingOf(ph', key) == PendingOf(ph, key);
    }
  }

  lemma StepKeepsCaps(limits: Limits, s: State, a: Action, s': State)
    requires limits.Valid() && WithinCaps(s.phones, limits) && Next(limits, s, a, s')
    ensures WithinCaps(s'.phones, limits)
  {
    match a
    case Arrive(key, openedAt, token, outcome) =>
      ArrivalKeepsCaps(s.phones, s.nextCh, limits, Fresh(key, openedAt, token), outcome, s'.phones, s'.nextCh);
    case Frame(ch) => FrameKeepsCaps(s.phones, ch, limits);
    case VouchFor(ch, token, current) => VouchKeepsCaps(s.phones, ch, token, current, limits);
    case _ => FewerPhones(s.phones, s'.phones, limits);
  }

  /** Phones were only dropped or had their counters updated. */
  ghost predicate OnlyUpdated(ph: Phones, ph': Phones) {
    && ph'.Keys <= ph.Keys
    && forall c :: c in ph' ==> SamePhone(ph[c], ph'[c])
  }

  predicate SamePhone(p: PhoneView, p': PhoneView) {
    && p'.token == p.token && p'.key == p.key
    && ((p.admitted ==> p.bridgeFrames >= 2) ==> (p'.admitted ==> p'.bridgeFrames >= 2))
  }

  lemma UpdatedStaysWellFormed(s: State, s': State)
    requires WellFormed(s) && s'.used == s.used && OnlyUpdated(s.phones, s'.phones)
    ensures WellFormed(s')
  {}

  lemma FrameOnlyUpdates(ph: Phones, ch: Channel, maxPhones: nat)
    ensures OnlyUpdated(ph, CountFrame(ph, ch, maxPhones).0)
  {}

  lemma VouchOnlyUpdates(ph: Phones, ch: Channel, token: string, current: bool)
    ensures OnlyUpdated(ph, Vouch(ph, ch, token, current))
  {}

  lemma ClosingOnlyUpdates(limits: Limits, s: State, a: Action, s': State)
    requires !a.Arrive? && !a.Frame? && !a.VouchFor? && Next(limits, s, a, s')
    ensures OnlyUpdated(s.phones, s'.phones)
  {}

  lemma PlacedWellFormed(s: State, ch: Channel, p: PhoneView)
    requires WellFormed(s) && ch != 0 && p.key != "" && p.token !in s.used && !p.admitted
    ensures WellFormed(s.(phones := s.phones[ch := p], nextCh := ch, used := s.used + {p.token}))
  {}

  lemma ArrivalKeepsWellFormed(limits: Limits, s: State, a: Action, s': State)
    requires WellFormed(s) && a.Arrive? && Next(limits, s, a, s')
    ensures WellFormed(s')
  {
    if a.outcome.Connected? {
      var left := if a.outcome.displaced.Some? then Remove(s.phones, a.outcome.displaced.value) else s.phones;
      UpdatedStaysWellFormed(s, s.(phones := left));
      PlacedWellFormed(s.(phones := left), a.outcome.ch, Fresh(a.key, a.openedAt, a.token));
    }
  }

  lemma StepKeepsWellFormed(limits: Limits, s: State, a: Action, s': State)
    requires WellFormed(s) && Next(limits, s, a, s')
    ensures WellFormed(s')
  {
    if a.Arrive? {
      ArrivalKeepsWellFormed(limits, s, a, s');
    } else {
      match a {
        case Frame(ch) => FrameOnlyUpdates(s.phones, ch, limits.maxPhones);
        case VouchFor(ch, token, current) => VouchOnlyUpdates(s.phones, ch, token, current);
        case _ => ClosingOnlyUpdates(limits, s, a, s');
      }
      UpdatedStaysWellFormed(s, s');
    }
  }

  /** In every state of every run the three caps hold, no phone sits on the
      control channel, tokens are distinct, and whoever is admitted has had two
      frames from the bridge. */
  lemma {:induction false} CapsHoldInEveryRun(limits: Limits, states: seq<State>, actions: seq<Action>, i: nat)
    requires limits.Valid() && IsRun(limits, states, actions) && i < |states|
    ensures Inv(limits, states[i])
  {
    if i == 0 {
      FewerPhones(map[], map[], limits);
    } else {
      CapsHoldInEveryRun(limits, states, actions, i - 1);
      StepKeepsCaps(limits, states[i - 1], actions[i - 1], states[i]);
      StepKeepsWellFormed(limits, states[i - 1], actions[i - 1], states[i]);
    }
  }

  /** The relay's search for a channel never fails: in every reachable state a
      newcomer can be placed. */
  lemma EveryStateHasAFreeChannel(limits: Limits, states: seq<State>, actions: seq<Action>, i: nat)
    requires limits.Valid() && IsRun(limits, states, actions) && i < |states|
    ensures exists c: Channel :: c != 0 && c !in states[i].phones
  {
    CapsHoldInEveryRun(limits, states, actions, i);
    RoomLeft(states[i].phones, states[i].phones, limits);
    SearchComesRound(states[i].phones, 1);
    var c :| c in Range(1, 0x1_0000) + Range(1, 1) && c !in states[i].phones;
    assert Range(1, 1) == {};
    assert Within(c, 1, 0x1_0000);
  }

  /** The steps that can take the phone on `ch` away although it is admitted. */
  predicate ClosesChannel(a: Action, ch: Channel, token: string) {
    match a
    case CloseByRelay(c) => c == ch
    case CloseByBridge(c, t) => c == ch && (t == "" || t == token)
    case Gone(c, t) => c == ch && t == token
    case BridgeGone => true
    case _ => false
  }

  /** ... and those that can take it away although it is vouched for. */
  predicate ClosesPending(a: Action, ch: Channel, token: string) {
    ClosesChannel(a, ch, token) || a == Timeout(ch, token)
  }

  ghost predicate Protected(s: State, ch: Channel, token: string) {
    ch in s.phones && s.phones[ch].token == token && (s.phones[ch].admitted || s.phones[ch].vouched)
  }

  lemma StepKeepsProtected(limits: Limits, s: State, a: Action, s': State, ch: Channel, token: string)
    requires Next(limits, s, a, s') && Protected(s, ch, token)
    requires if s.phones[ch].admitted then !ClosesChannel(a, ch, token) else !ClosesPending(a, ch, token)
    ensures Protected(s', ch, token)
    ensures s.phones[ch].admitted ==> s'.phones[ch].admitted
    ensures s.phones[ch].vouched ==> s'.phones[ch].vouched
    ensures s.phones[ch].bridgeFrames <= s'.phones[ch].bridgeFrames
  {
    if a.Arrive? && a.outcome.Connected? && a.outcome.displaced.Some? {
      DisplacementIsFair(s.phones, a.key, limits, a.outcome.displaced.value);
    }
  }

  /** However many newcomers press for room and whatever timers fire, a phone
      once admitted keeps its channel and stays admitted until a close names
      it (or its channel, or the whole session). */
  lemma {:induction false} AdmittedPhonesKeepTheirPlace(
    limits: Limits, states: seq<State>, actions: seq<Action>, i: nat, j: nat, ch: Channel)
    requires IsRun(limits, states, actions) && i <= j < |states|
    requires ch in states[i].phones && states[i].phones[ch].admitted
    requires forall k :: i <= k < j ==> !ClosesChannel(actions[k], ch, states[i].phones[ch].token)
    ensures ch in states[j].phones && states[j].phones[ch].admitted
    ensures states[j].phones[ch].token == states[i].phones[ch].token
    decreases j
  {
    if i < j {
      AdmittedPhonesKeepTheirPlace(limits, states, actions, i, j - 1, ch);
      StepKeepsProtected(limits, states[j - 1], actions[j - 1], states[j], ch, states[i].phones[ch].token);
    }
  }

  /** The same for a phone the bridge has vouched for, except that its own
      admission timer may still close it while it is pending. */
  lemma {:induction false} VouchedPhonesKeepTheirPlace(
    limits: Limits, states: seq<State>, actions: seq<Action>, i: nat, j: nat, ch: Channel)
    requires IsRun(limits, states, actions) && i <= j < |states|
    requires ch in states[i].phones && states[i].phones[ch].vouched
    requires forall k :: i <= k < j ==> !ClosesPending(actions[k], ch, states[i].phones[ch].token)
    ensures ch in states[j].phones && states[j].phones[ch].vouched
    ensures states[j].phones[ch].token == states[i].phones[ch].token
    decreases j
  {
    if i < j {
      VouchedPhonesKeepTheirPlace(limits, states, actions, i, j - 1, ch);
      StepKeepsProtected(limits, states[j - 1], actions[j - 1], states[j], ch, states[i].phones[ch].token);
    }
  }

  // ---------- When a phone is admitted ----------

  /** The frames from the bridge that the phone with this token has had on `ch` in
      the first `i` steps. */
  function FramesTo(states: seq<State>, actions: seq<Action>, i: nat, ch: Channel, token: string): nat
    requires i <= |actions| < |states|
  {
    if i == 0 then 0
    else
      var before := states[i - 1].phones;
      FramesTo(states, actions, i - 1, ch, token)
        + if actions[i - 1] == Frame(ch) && ch in before && before[ch].token == token then 1 else 0
  }

  lemma UsedStays(limits: Limits, s: State, a: Action, s': State)
    requires Next(limits, s, a, s')
    ensures s.used <= s'.used
  {}

  /** A token nobody has been given has had no frame. */
  lemma {:induction false} NoFrameBefore(
    limits: Limits, states: seq<State>, actions: seq<Action>, i: nat, ch: Channel, token: string)
    requires limits.Valid() && IsRun(limits, states, actions) && i < |states| && token !in states[i].used
    ensures FramesTo(states, actions, i, ch, token) == 0
  {
    if i > 0 {
      assert Next(limits, states[i - 1], actions[i - 1], states[i]);
      UsedStays(limits, states[i - 1], actions[i - 1], states[i]);
      NoFrameBefore(limits, states, actions, i - 1, ch, token);
      CapsHoldInEveryRun(limits, states, actions, i - 1);
    }
  }

  /** A phone after a step was there before, one frame on if the step is its frame,
      or has just been placed. */
  lemma PhoneStep(limits: Limits, s: State, a: Action, s': State, ch: Channel)
    requires Next(limits, s, a, s') && ch in s'.phones
    ensures || (&& ch in s.phones && s'.phones[ch].token == s.phones[ch].token
                && s'.phones[ch].bridgeFrames == s.phones[ch].bridgeFrames + if a == Frame(ch) then 1 else 0)
            || (a.Arrive? && s'.phones[ch] == Fresh(a.key, a.openedAt, a.token) && a.token !in s.used)
  {}

  /** The relay's counter of a phone is the number of frames it has had. */
  lemma {:induction false} FramesCounted(
    limits: Limits, states: seq<State>, actions: seq<Action>, i: nat, ch: Channel)
    requires limits.Valid() && IsRun(limits, states, actions) && i < |states| && ch in states[i].phones
    ensures states[i].phones[ch].bridgeFrames == FramesTo(states, actions, i, ch, states[i].phones[ch].token)
  {
    if i > 0 {
      var s, a, s' := states[i - 1], actions[i - 1], states[i];
      assert Next(limits, s, a, s');
      PhoneStep(limits, s, a, s', ch);
      if ch in s.phones && s'.phones[ch].token == s.phones[ch].token {
        CapsHoldInEveryRun(limits, states, actions, i - 1);
        FramesCounted(limits, states, actions, i - 1, ch);
      } else {
        NoFrameBefore(limits, states, actions, i - 1, ch, s'.phones[ch].token);
      }
    }
  }

  /** Step `i` is the second frame the phone on `ch` gets. */
  predicate SecondFrame(states: seq<State>, actions: seq<Action>, i: nat, ch: Channel)
    requires i < |actions| < |states|
  {
    && actions[i] == Frame(ch) && ch in states[i].phones
    && FramesTo(states, actions, i + 1, ch, states[i].phones[ch].token) == 2
  }

  predicate SamePhoneOn(s: State, s': State, ch: Channel) {
    ch in s.phones && ch in s'.phones && s'.phones[ch].token == s.phones[ch].token
  }

  /** The phone on `ch` is admitted after the step and was not before. */
  predicate BecomesAdmitted(s: State, s': State, ch: Channel) {
    ch in s'.phones && s'.phones[ch].admitted && !(SamePhoneOn(s, s', ch) && s.phones[ch].admitted)
  }

  lemma OnlyFramesAdmit(limits: Limits, s: State, a: Action, s': State, ch: Channel)
    requires WellFormed(s) && Next(limits, s, a, s')
    ensures BecomesAdmitted(s, s', ch) <==>
              && a == Frame(ch) && ch in s.phones && s.phones[ch].bridgeFrames == 1
              && |Admitted(s.phones)| < limits.maxPhones
  {
    if ch in s'.phones {
      PhoneStep(limits, s, a, s', ch);
    }
  }

  lemma OnlyFramesReport(limits: Limits, s: State, a: Action, s': State)
    requires WellFormed(s) && Next(limits, s, a, s')
    ensures s'.reports ==
              if a.Frame? && a.ch in s.phones && s.phones[a.ch].bridgeFrames == 1
                 && |Admitted(s.phones)| >= limits.maxPhones
              then s.reports + [s.phones[a.ch].token] else s.reports
  {}

  /** In every run a phone is admitted by the second frame the bridge sends it, if
      the admitted phones are below their cap then, and by nothing else. */
  lemma AdmittedExactlyBySecondFrame(
    limits: Limits, states: seq<State>, actions: seq<Action>, i: nat, ch: Channel)
    requires limits.Valid() && IsRun(limits, states, actions) && i < |actions|
    ensures BecomesAdmitted(states[i], states[i + 1], ch) <==>
              SecondFrame(states, actions, i, ch) && |Admitted(states[i].phones)| < limits.maxPhones
  {
    assert Next(limits, states[i], actions[i], states[i + 1]);
    CapsHoldInEveryRun(limits, states, actions, i);
    OnlyFramesAdmit(limits, states[i], actions[i], states[i + 1], ch);
    if ch in states[i].phones {
      FramesCounted(limits, states, actions, i, ch);
    }
  }

  /** The cap is reported for exactly the phones whose second frame finds the
      admitted phones at it, once each, and for no other step. */
  lemma ReportedExactlyAtTheCap(limits: Limits, states: seq<State>, actions: seq<Action>, i: nat)
    requires limits.Valid() && IsRun(limits, states, actions) && i < |actions|
    ensures forall ch :: SecondFrame(states, actions, i, ch) && |Admitted(states[i].phones)| >= limits.maxPhones ==>
              states[i + 1].reports == states[i].reports + [states[i].phones[ch].token]
    ensures states[i + 1].reports == states[i].reports <==>
              forall ch :: SecondFrame(states, actions, i, ch) ==> |Admitted(states[i].phones)| < limits.maxPhones
  {
    assert Next(limits, states[i], actions[i], states[i + 1]);
    CapsHoldInEveryRun(limits, states, actions, i);
    OnlyFramesReport(limits, states[i], actions[i], states[i + 1]);
    forall ch | ch in states[i].phones
      ensures states[i].phones[ch].bridgeFrames
           == FramesTo(states, actions, i, ch, states[i].phones[ch].token)
    {
      FramesCounted(limits, states, actions, i, ch);
    }
    if actions[i].Frame? && actions[i].ch in states[i].phones {
      assert SecondFrame(states, actions, i, actions[i].ch) <==> states[i].phones[actions[i].ch].bridgeFrames == 1;
    }
  }

  // ---------- When a phone is vouched for, and when it goes ----------

  predicate BecomesVouched(s: State, s': State, ch: Channel) {
    ch in s'.phones && s'.phones[ch].vouched && !(SamePhoneOn(s, s', ch) && s.phones[ch].vouched)
  }

  /** A phone is vouched for exactly by a vouch that names its channel and token,
      comes from the current bridge socket, and finds that the bridge has sent the
      phone nothing yet. */
  lemma VouchedExactlyWhen(
    limits: Limits, states: seq<State>, actions: seq<Action>, i: nat, ch: Channel)
    requires limits.Valid() && IsRun(limits, states, actions) && i < |actions|
    ensures BecomesVouched(states[i], states[i + 1], ch) <==>
              && ch in states[i].phones && !states[i].phones[ch].vouched
              && var token := states[i].phones[ch].token;
              && actions[i] == VouchFor(ch, token, true) && SixteenByteToken(token)
              && FramesTo(states, actions, i, ch, token) == 0
  {
    assert Next(limits, states[i], actions[i], states[i + 1]);
    CapsHoldInEveryRun(limits, states, actions, i);
    if ch in states[i].phones {
      FramesCounted(limits, states, actions, i, ch);
    }
    if ch in states[i + 1].phones {
      PhoneStep(limits, states[i], actions[i], states[i + 1], ch);
    }
  }

  /** A phone leaves its channel exactly by a close of the channel, a close from
      the bridge that names its token or none, its own admission timer while it is
      pending, its own end, the end of the bridge, or a newcomer that displaces it. */
  lemma LeavesExactlyWhen(
    limits: Limits, states: seq<State>, actions: seq<Action>, i: nat, ch: Channel)
    requires limits.Valid() && IsRun(limits, states, actions) && i < |actions| && ch in states[i].phones
    ensures var p, a := states[i].phones[ch], actions[i];
      !SamePhoneOn(states[i], states[i + 1], ch) <==>
        || ClosesChannel(a, ch, p.token)
        || (a == Timeout(ch, p.token) && !p.admitted)
        || (a.Arrive? && a.outcome.Connected? && a.outcome.displaced == Some(ch))
  {
    assert Next(limits, states[i], actions[i], states[i + 1]);
    CapsHoldInEveryRun(limits, states, actions, i);
  }

  /** A newcomer is told that the session is full exactly when the admitted phones
      are at their cap; that the pending places are protected exactly when its own
      group, or else the whole session, has no room and every pending phone there
      is vouched for; and otherwise gets a place as a pending phone, taking
      another's exactly when there is no room. */
  lemma ArrivalExactlyWhen(limits: Limits, s: State, a: Action, s': State)
    requires Next(limits, s, a, s') && a.Arrive?
    ensures a.outcome == SessionFull <==> |Admitted(s.phones)| >= limits.maxPhones
    ensures a.outcome == PendingProtected <==>
              && |Admitted(s.phones)| < limits.maxPhones
              && if |PendingOf(s.phones, a.key)| >= limits.maxPendingPerKey
                 then forall c :: c in PendingOf(s.phones, a.key) ==> s.phones[c].vouched
                 else
                   && |Pending(s.phones)| >= limits.maxPending
                   && forall c :: c in Pending(s.phones) ==> s.phones[c].vouched
    ensures a.outcome.Connected? ==>
              forall c :: c in s.phones && a.outcome.displaced != Some(c) ==>
                c in s'.phones && s'.phones[c] == s.phones[c]
    ensures a.outcome.Connected? ==>
              && (a.outcome.displaced == None <==>
                    |PendingOf(s.phones, a.key)| < limits.maxPendingPerKey && |Pending(s.phones)| < limits.maxPending)
              && a.outcome.ch in s'.phones
              && s'.phones[a.outcome.ch] == PhoneView(a.key, a.openedAt, a.token, 0, false, false)
    ensures !a.outcome.Connected? ==> s'.phones == s.phones
  {
    match a.outcome
    case SessionFull =>
    case PendingProtected => RefusedOnlyWhenProtected(s.phones, a.key, limits, None);
    case Connected(_, displaced) =>
      RefusedOnlyWhenProtected(s.phones, a.key, limits, displaced);
      if displaced.Some? {
        DisplacementIsFair(s.phones, a.key, limits, displaced.value);
      }
  }
}
