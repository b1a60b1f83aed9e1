/** One attachment of a bridge to the relay, both ends together: the relay's
    phones, the bridge's channels, and the control messages under way between
    them, which may be delayed, reordered and lost.  Channel numbers are
    reused; tokens name the incarnations. */
module RelayIncarnations {
  import opened RelayPhones
  import opened RelayMux

  /** `issued` gives each token its channel number.  `announced`, `vouchedFor`
      and `closedHere` remember for which tokens the relay has sent an open, and
      the bridge a vouch and a close. */
  datatype Link = Link(
    phones: Phones,
    nextCh: Channel,
    current: bool,                 // the relay still routes the session here
    mux: MuxState,
    toBridge: multiset<Control>,
    toRelay: multiset<Control>,
    issued: map<string, Channel>,
    announced: set<string>,
    vouchedFor: set<string>,
    closedHere: set<string>)

  const Attached := Link(map[], 0, true, EmptyMux, multiset{}, multiset{}, map[], {}, {}, {})

  datatype Action =
    | Arrive(key: string, openedAt: int, token: string, outcome: ConnectOutcome)
    | AnnounceOpen(token: string)
    | AnnounceClose(token: string)
    | Frame(ch: Channel, maxAdmitted: nat)
    | CloseByRelay(ch: Channel)
    | Timeout(ch: Channel, token: string)
    | Gone(ch: Channel, token: string)
    | RelayReads(m: Control)
    | Supersede                    // a newer socket attaches for the session
    | BridgeReads(m: Control)
    | BridgeVouches(id: nat)
    | BridgeCloses(id: nat)
    | BridgeClosesAll
    | LoseToBridge(m: Control)
    | LoseToRelay(m: Control)

  /** The relay still serves the phone with this token. */
  ghost predicate Live(l: Link, token: string) {
    token in l.issued && l.issued[token] in l.phones && l.phones[l.issued[token]].token == token
  }

  function RelayHandles(l: Link, m: Control): Phones {
    match m
    case Close(ch, token) => CloseFromBridge(l.phones, ch, token)
    case VouchControl(ch, token) => Vouch(l.phones, ch, token, l.current)
    case Open(_, _) => l.phones
  }

  function BridgeHandles(m: MuxState, c: Control): MuxState
    requires MuxValid(m)
  {
    match c
    case Open(ch, token) => Opened(m, ch, token)
    case Close(ch, token) => RemotelyClosed(m, ch, token)
    case VouchControl(_, _) => m
  }

  ghost predicate Next(limits: Limits, l: Link, a: Action, l': Link)
    requires MuxValid(l.mux)
  {
    match a
    case Arrive(key, openedAt, token, outcome) =>
      && key != "" && token != "" && token !in l.issued
      && Connects(l.phones, l.nextCh, limits, Fresh(key, openedAt, token), outcome, l'.phones, l'.nextCh)
      && l' == l.(phones := l'.phones, nextCh := l'.nextCh,
                  issued := if outcome.Connected? then l.issued[token := outcome.ch] else l.issued)
    case AnnounceOpen(token) =>
      && token in l.issued && token !in l.announced
      && l' == l.(announced := l.announced + {token}, toBridge := l.toBridge + multiset{Open(l.issued[token], token)})
    case AnnounceClose(token) =>
      && token in l.issued && !Live(l, token)
      && l' == l.(toBridge := l.toBridge + multiset{Close(l.issued[token], token)})
    case Frame(ch, maxAdmitted) => l' == l.(phones := CountFrame(l.phones, ch, maxAdmitted).0)
    case CloseByRelay(ch) => l' == l.(phones := Remove(l.phones, ch))
    case Timeout(ch, token) => l' == l.(phones := CloseIfPending(l.phones, ch, token))
    case Gone(ch, token) => l' == l.(phones := Leave(l.phones, ch, token))
    case RelayReads(m) =>
      && m in l.toRelay
      && l' == l.(phones := RelayHandles(l, m), toRelay := l.toRelay - multiset{m})
    case Supersede => l' == l.(current := false)
    case BridgeReads(m) =>
      && m in l.toBridge
      && l' == l.(mux := BridgeHandles(l.mux, m), toBridge := l.toBridge - multiset{m})
    case BridgeVouches(id) =>
      && id < |l.mux.created| && l.mux.created[id].token != ""
      && var rc := l.mux.created[id];
      && l' == l.(toRelay := l.toRelay + multiset{VouchControl(rc.ch, rc.token)},
                  vouchedFor := l.vouchedFor + {rc.token})
    case BridgeCloses(id) =>
      && id < |l.mux.created|
      && var (mux, sent) := Closed(l.mux, id);
      && l' == l.(mux := mux,
                  toRelay := l.toRelay + (if sent.Some? then multiset{sent.value} else multiset{}),
                  closedHere := l.closedHere + (if sent.Some? then {l.mux.created[id].token} else {}))
    case BridgeClosesAll => l' == l.(mux := AllClosed(l.mux))
    case LoseToBridge(m) => m in l.toBridge && l' == l.(toBridge := l.toBridge - multiset{m})
    case LoseToRelay(m) => m in l.toRelay && l' == l.(toRelay := l.toRelay - multiset{m})
  }

  // ---------- What every reachable link keeps ----------

  /** Every incarnation is where its token was issued. */
  ghost predicate PhonesInv(l: Link) {
    && (forall t :: t in l.issued ==> t != "")
    && (forall ch :: ch in l.phones ==> l.phones[ch].token in l.issued && l.issued[l.phones[ch].token] == ch)
    && (forall ch :: ch in l.phones && l.phones[ch].vouched ==> l.phones[ch].token in l.vouchedFor)
  }

  ghost predicate Names(l: Link, ch: Channel, token: string) {
    token in l.issued && l.issued[token] == ch
  }

  /** What a message under way to the bridge says is so, and an open is under
      way at most once and only before it arrives. */
  ghost predicate ToBridgeOk(l: Link, m: Control) {
    && Names(l, m.ch, m.token)
    && match m
       case Open(_, t) =>
         && t in l.announced && l.toBridge[m] <= 1
         && forall id :: 0 <= id < |l.mux.created| ==> l.mux.created[id].token != t
       case Close(_, t) => !Live(l, t)
       case VouchControl(_, _) => false
  }

  ghost predicate ToRelayOk(l: Link, m: Control) {
    && Names(l, m.ch, m.token)
    && (m.VouchControl? ==> m.token in l.vouchedFor)
    && (m.Close? ==> m.token in l.closedHere)
  }

  ghost predicate MuxInv(l: Link) {
    && MuxValid(l.mux)
    && (forall id :: 0 <= id < |l.mux.created| ==>
          Names(l, l.mux.created[id].ch, l.mux.created[id].token) && l.mux.created[id].token in l.announced)
    && (forall id, id' :: 0 <= id < id' < |l.mux.created| ==> l.mux.created[id].token != l.mux.created[id'].token)
    && (forall t :: t in l.closedHere ==> exists id :: id in l.mux.done && l.mux.created[id].token == t)
    && (forall t :: t in l.announced ==> t in l.issued)
  }

  ghost predicate Inv(l: Link) {
    && PhonesInv(l) && MuxInv(l)
    && (forall m :: m in l.toBridge ==> ToBridgeOk(l, m))
    && (forall m :: m in l.toRelay ==> ToRelayOk(l, m))
  }

  /** No phone a relay once dropped comes back under the same token. */
  ghost predicate NoneRevived(l: Link, l': Link) {
    && (forall t :: t in l.issued ==> t in l'.issued && l'.issued[t] == l.issued[t])
    && (forall t :: t in l.issued && Live(l', t) ==> Live(l, t))
  }

  /** Steps that only drop phones, or change their counters, or vouch for them
      on the bridge's word. */
  lemma PhonesChange(l: Link, l': Link)
    requires PhonesInv(l) && l'.issued == l.issued && l.vouchedFor <= l'.vouchedFor
    requires forall ch :: ch in l'.phones ==>
               && ch in l.phones && l'.phones[ch].token == l.phones[ch].token
               && (l'.phones[ch].vouched ==> l.phones[ch].vouched || l.phones[ch].token in l'.vouchedFor)
    ensures PhonesInv(l') && NoneRevived(l, l')
  {}

  lemma PhonePlaced(l: Link, ch: Channel, p: PhoneView)
    requires PhonesInv(l) && p.token !in l.issued && p.token != "" && !p.vouched
    ensures var l' := l.(phones := l.phones[ch := p], issued := l.issued[p.token := ch], nextCh := ch);
            PhonesInv(l') && NoneRevived(l, l')
  {}

  lemma RelayHandlingIsTargeted(l: Link, m: Control)
    requires PhonesInv(l) && ToRelayOk(l, m)
    ensures forall ch :: ch in RelayHandles(l, m) ==>
              && ch in l.phones && RelayHandles(l, m)[ch].token == l.phones[ch].token
              && (RelayHandles(l, m)[ch].vouched ==> l.phones[ch].vouched || l.phones[ch].token in l.vouchedFor)
  {}

  predicate BridgeSide(a: Action) {
    a.BridgeReads? || a.BridgeVouches? || a.BridgeCloses? || a.BridgeClosesAll?
  }

  /** Which fields a step leaves alone. */
  lemma StepFrame(limits: Limits, l: Link, a: Action, l': Link)
    requires MuxValid(l.mux) && Next(limits, l, a, l')
    ensures !BridgeSide(a) ==> l'.mux == l.mux && l'.closedHere == l.closedHere && l'.vouchedFor == l.vouchedFor
    ensures BridgeSide(a) ==> l'.phones == l.phones && l'.issued == l.issued && l'.announced == l.announced
    ensures l.vouchedFor <= l'.vouchedFor && l.closedHere <= l'.closedHere && l.announced <= l'.announced
    ensures !a.Arrive? ==> l'.issued == l.issued
  {}

  lemma ArrivalKeepsPhones(limits: Limits, l: Link, a: Action, l': Link)
    requires PhonesInv(l) && MuxValid(l.mux) && a.Arrive? && Next(limits, l, a, l')
    ensures PhonesInv(l') && NoneRevived(l, l')
  {
    if a.outcome.Connected? {
      var left := if a.outcome.displaced.Some? then Remove(l.phones, a.outcome.displaced.value) else l.phones;
      PhonesChange(l, l.(phones := left));
      PhonePlaced(l.(phones := left), a.outcome.ch, Fresh(a.key, a.openedAt, a.token));
    }
  }

  lemma StepKeepsPhones(limits: Limits, l: Link, a: Action, l': Link)
    requires PhonesInv(l) && MuxValid(l.mux) && Next(limits, l, a, l')
    requires a.RelayReads? ==> ToRelayOk(l, a.m)
    ensures PhonesInv(l') && NoneRevived(l, l')
  {
    if a.Arrive? {
      ArrivalKeepsPhones(limits, l, a, l');
    } else {
      StepFrame(limits, l, a, l');
      if a.RelayReads? {
        RelayHandlingIsTargeted(l, a.m);
      }
      PhonesChange(l, l');
    }
  }

  /** Steps that leave the bridge's channel objects alone. */
  lemma MuxChange(l: Link, l': Link)
    requires MuxInv(l) && MuxValid(l'.mux) && l'.mux.created == l.mux.created && l.mux.done <= l'.mux.done
    requires forall t :: t in l.issued ==> t in l'.issued && l'.issued[t] == l.issued[t]
    requires l.announced <= l'.announced && forall t :: t in l'.announced ==> t in l'.issued
    requires forall t :: t in l'.closedHere ==>
               t in l.closedHere || exists id :: id in l'.mux.done && l'.mux.created[id].token == t
    ensures MuxInv(l')
  {
    forall t | t in l'.closedHere ensures exists id :: id in l'.mux.done && l'.mux.created[id].token == t {
      if t in l.closedHere {
        var id :| id in l.mux.done && l.mux.created[id].token == t;
        assert id in l'.mux.done && l'.mux.created[id].token == t;
      }
    }
  }

  lemma ChannelOpened(l: Link, ch: Channel, token: string)
    requires MuxInv(l) && ToBridgeOk(l, Open(ch, token))
    ensures MuxInv(l.(mux := Opened(l.mux, ch, token)))
  {
    var l' := l.(mux := Opened(l.mux, ch, token));
    forall t | t in l.closedHere ensures exists id :: id in l'.mux.done && l'.mux.created[id].token == t {
      var id :| id in l.mux.done && l.mux.created[id].token == t;
      assert id in l'.mux.done && l'.mux.created[id].token == t;
    }
  }

  /** What a step does to the bridge's channels. */
  function MuxAfter(m: MuxState, a: Action): (r: MuxState)
    requires MuxValid(m) && (a.BridgeCloses? ==> a.id < |m.created|)
    ensures MuxValid(r) && m.done <= r.done
    ensures r.created == m.created + if a.BridgeReads? && a.m.Open? then [Incarnation(a.m.ch, a.m.token)] else []
    ensures a.BridgeCloses? ==> a.id in r.done
  {
    match a
    case BridgeReads(c) => BridgeHandles(m, c)
    case BridgeCloses(id) => Closed(m, id).0
    case BridgeClosesAll => AllClosed(m)
    case _ => m
  }

  lemma MuxStep(limits: Limits, l: Link, a: Action, l': Link)
    requires MuxValid(l.mux) && Next(limits, l, a, l')
    ensures a.BridgeCloses? ==> a.id < |l.mux.created|
    ensures l'.mux == MuxAfter(l.mux, a)
    ensures forall t :: t in l'.closedHere ==> t in l.closedHere || (a.BridgeCloses? && t == l.mux.created[a.id].token)
  {}

  lemma MuxFrame(limits: Limits, l: Link, a: Action, l': Link)
    requires MuxValid(l.mux) && Next(limits, l, a, l') && !(a.BridgeReads? && a.m.Open?)
    ensures MuxValid(l'.mux) && l'.mux.created == l.mux.created && l.mux.done <= l'.mux.done
    ensures forall t :: t in l'.closedHere ==>
              t in l.closedHere || exists id :: id in l'.mux.done && l'.mux.created[id].token == t
  {
    MuxStep(limits, l, a, l');
    if a.BridgeCloses? {
      assert a.id in l'.mux.done && l'.mux.created[a.id].token == l.mux.created[a.id].token;
    }
  }

  lemma StepKeepsMux(limits: Limits, l: Link, a: Action, l': Link)
    requires MuxInv(l) && Next(limits, l, a, l') && NoneRevived(l, l')
    requires a.BridgeReads? ==> ToBridgeOk(l, a.m)
    ensures MuxInv(l')
  {
    if a.BridgeReads? && a.m.Open? {
      ChannelOpened(l, a.m.ch, a.m.token);
      assert MuxInv(l.(mux := l'.mux));
    } else {
      MuxFrame(limits, l, a, l');
      StepFrame(limits, l, a, l');
      AnnouncedIssued(limits, l, a, l');
      MuxChange(l, l');
    }
  }

  lemma AnnouncedIssued(limits: Limits, l: Link, a: Action, l': Link)
    requires MuxInv(l) && Next(limits, l, a, l') && NoneRevived(l, l')
    ensures forall t :: t in l'.announced ==> t in l'.issued
  {
    assert forall t :: t in l'.announced ==> t in l.announced || t in l.issued;
  }

  /** What is under way to the bridge after a step. */
  lemma ToBridgeFrame(limits: Limits, l: Link, a: Action, l': Link, m: Control)
    requires MuxValid(l.mux) && Next(limits, l, a, l') && m in l'.toBridge
    ensures || l'.toBridge[m] <= l.toBridge[m]
            || (a.AnnounceOpen? && m == Open(l.issued[a.token], a.token) && a.token !in l.announced
                && l'.toBridge[m] == l.toBridge[m] + 1
                && l'.announced == l.announced + {a.token} && l'.issued == l.issued)
            || (a.AnnounceClose? && m == Close(l.issued[a.token], a.token) && !Live(l, a.token))
  {}

  lemma CreatedFrame(limits: Limits, l: Link, a: Action, l': Link)
    requires MuxValid(l.mux) && Next(limits, l, a, l')
    ensures l'.mux.created == l.mux.created ||
              (a.BridgeReads? && a.m.Open? && a.m in l.toBridge && l'.toBridge == l.toBridge - multiset{a.m}
               && l'.mux.created == l.mux.created + [Incarnation(a.m.ch, a.m.token)])
  {
    MuxStep(limits, l, a, l');
  }

  lemma StepKeepsToBridge(limits: Limits, l: Link, a: Action, l': Link, m: Control)
    requires Inv(l) && Next(limits, l, a, l') && NoneRevived(l, l') && m in l'.toBridge
    ensures ToBridgeOk(l', m)
  {
    StepFrame(limits, l, a, l');
    ToBridgeFrame(limits, l, a, l', m);
    CreatedFrame(limits, l, a, l');
    if m in l.toBridge {
      assert ToBridgeOk(l, m);
      if a.BridgeReads? && a.m.Open? {
        assert ToBridgeOk(l, a.m);
      }
    }
  }

  /** What is under way to the relay after a step. */
  lemma ToRelayFrame(limits: Limits, l: Link, a: Action, l': Link, m: Control)
    requires MuxValid(l.mux) && Next(limits, l, a, l') && m in l'.toRelay && m !in l.toRelay
    ensures a.BridgeVouches? || a.BridgeCloses?
    ensures a.id < |l.mux.created| && m.ch == l.mux.created[a.id].ch && m.token == l.mux.created[a.id].token
    ensures !m.Open? && (m.VouchControl? ==> m.token in l'.vouchedFor) && (m.Close? ==> m.token in l'.closedHere)
  {}

  lemma StepKeepsToRelay(limits: Limits, l: Link, a: Action, l': Link, m: Control)
    requires MuxInv(l) && Next(limits, l, a, l') && NoneRevived(l, l') && m in l'.toRelay
    requires m in l.toRelay ==> ToRelayOk(l, m)
    ensures ToRelayOk(l', m)
  {
    StepFrame(limits, l, a, l');
    if m !in l.toRelay {
      ToRelayFrame(limits, l, a, l', m);
    }
  }

  lemma StepKeepsInv(limits: Limits, l: Link, a: Action, l': Link)
    requires Inv(l) && Next(limits, l, a, l')
    ensures Inv(l')
  {
    StepKeepsPhones(limits, l, a, l');
    StepKeepsMux(limits, l, a, l');
    forall m | m in l'.toBridge ensures ToBridgeOk(l', m) { StepKeepsToBridge(limits, l, a, l', m); }
    forall m | m in l'.toRelay ensures ToRelayOk(l', m) { StepKeepsToRelay(limits, l, a, l', m); }
  }

  // ---------- Whole runs ----------

  ghost predicate IsRun(limits: Limits, links: seq<Link>, actions: seq<Action>) {
    && |links| == |actions| + 1
    && links[0] == Attached
    && forall i {:trigger actions[i]} :: 0 <= i < |actions| ==>
         MuxValid(links[i].mux) && Next(limits, links[i], actions[i], links[i + 1])
  }

  lemma {:induction false} InvInEveryRun(limits: Limits, links: seq<Link>, actions: seq<Action>, i: nat)
    requires IsRun(limits, links, actions) && i < |links|
    ensures Inv(links[i])
  {
    if i > 0 {
      InvInEveryRun(limits, links, actions, i - 1);
      StepKeepsInv(limits, links[i - 1], actions[i - 1], links[i]);
    }
  }

  /** However late it is read, a close from the bridge takes away at most the
      phone whose own channel the bridge closed, and a vouch marks at most the
      phone whose own channel the bridge vouched for -- and nothing at all once
      a newer socket has attached. */
  lemma RelayObeysOnlyTheNamedIncarnation(
    limits: Limits, links: seq<Link>, actions: seq<Action>, i: nat, ch: Channel)
    requires IsRun(limits, links, actions) && i < |actions| && actions[i].RelayReads?
    requires ch in links[i].phones
    ensures var p, token := links[i].phones[ch], actions[i].m.token;
      && (ch !in links[i + 1].phones ==> actions[i].m.Close? && p.token == token && token in links[i].closedHere)
      && (ch in links[i + 1].phones && links[i + 1].phones[ch] != p ==>
            && actions[i].m.VouchControl? && links[i].current
            && p.token == token && token in links[i].vouchedFor
            && links[i + 1].phones[ch] == p.(vouched := true))
  {
    InvInEveryRun(limits, links, actions, i);
    assert Next(limits, links[i], actions[i], links[i + 1]);
    assert ToRelayOk(links[i], actions[i].m);
  }

  /** However late it is read, a close from the relay finishes at most the
      channel of a phone that has already left. */
  lemma BridgeObeysOnlyTheNamedIncarnation(
    limits: Limits, links: seq<Link>, actions: seq<Action>, i: nat, id: nat)
    requires IsRun(limits, links, actions) && i < |actions| && actions[i].BridgeReads? && actions[i].m.Close?
    requires id < |links[i].mux.created|
    requires id in links[i + 1].mux.done && id !in links[i].mux.done
    ensures links[i].mux.created[id].token == actions[i].m.token
    ensures !Live(links[i], links[i].mux.created[id].token)
  {
    InvInEveryRun(limits, links, actions, i);
    assert Next(limits, links[i], actions[i], links[i + 1]);
    assert ToBridgeOk(links[i], actions[i].m);
  }

  /** At every moment: a vouched phone is one the bridge vouched for, by the same
      token; and a channel the bridge closed is not routed again, under any
      object. */
  lemma IncarnationsStayApart(limits: Limits, links: seq<Link>, actions: seq<Action>, i: nat, ch: Channel)
    requires IsRun(limits, links, actions) && i < |links|
    ensures ch in links[i].phones && links[i].phones[ch].vouched ==> links[i].phones[ch].token in links[i].vouchedFor
    ensures ch in links[i].mux.channels ==>
              && links[i].mux.channels[ch] < |links[i].mux.created|
              && links[i].mux.created[links[i].mux.channels[ch]].token !in links[i].closedHere
  {
    InvInEveryRun(limits, links, actions, i);
  }

  /** A close without a token, as older peers send, is not safe in this way: it
      takes whatever phone now holds the number.  A close keeps to the phone it
      was meant for, whatever the phones, exactly when it carries a token. */
  lemma CloseNeedsAToken(ch: Channel, token: string)
    ensures token != "" <==>
              forall ph: Phones :: ch in ph && ch !in CloseFromBridge(ph, ch, token) ==> ph[ch].token == token
  {
    if token == "" {
      var ph: Phones := map[ch := Fresh("a", 0, "b")];
      assert ch in ph && ch !in CloseFromBridge(ph, ch, token) && ph[ch].token != token;
    }
  }

  // ---------- When an incarnation ends ----------

  /** The bridge still routes to this channel object. */
  ghost predicate Routed(m: MuxState, id: nat) {
    id < |m.created| && m.created[id].ch in m.channels && m.channels[m.created[id].ch] == id
  }

  /** The step ends the channel object: a close from the relay that names its token
      or none, a new channel of its number, its own close, or the end of the
      socket. */
  predicate EndsChannel(a: Action, id: nat, rc: Incarnation) {
    match a
    case BridgeReads(Close(ch, token)) => ch == rc.ch && (token == "" || token == rc.token)
    case BridgeReads(Open(ch, _)) => ch == rc.ch
    case BridgeCloses(other) => other == id
    case BridgeClosesAll => true
    case _ => false
  }

  lemma EndingMux(m: MuxState, a: Action, id: nat)
    requires MuxValid(m) && (a.BridgeCloses? ==> a.id < |m.created|) && Routed(m, id)
    ensures id < |MuxAfter(m, a).created| && MuxAfter(m, a).created[id] == m.created[id]
    ensures Routed(MuxAfter(m, a), id) <==> !EndsChannel(a, id, m.created[id])
    ensures id in MuxAfter(m, a).done <==> EndsChannel(a, id, m.created[id])
  {}

  /** A channel of the bridge stays routed and open until exactly such a step, and
      is finished by it; no close for another incarnation of its number, however
      late, does so. */
  lemma ChannelEndsExactlyWhen(limits: Limits, links: seq<Link>, actions: seq<Action>, i: nat, id: nat)
    requires IsRun(limits, links, actions) && i < |actions| && Routed(links[i].mux, id)
    ensures id < |links[i + 1].mux.created|
    ensures Routed(links[i + 1].mux, id) <==> !EndsChannel(actions[i], id, links[i].mux.created[id])
    ensures id in links[i + 1].mux.done <==> EndsChannel(actions[i], id, links[i].mux.created[id])
  {
    InvInEveryRun(limits, links, actions, i);
    assert Next(limits, links[i], actions[i], links[i + 1]);
    MuxStep(limits, links[i], actions[i], links[i + 1]);
    EndingMux(links[i].mux, actions[i], id);
  }

  /** The bridge tells the relay of a close exactly when the channel it closes is
      still routed, and names it truthfully. */
  lemma CloseToldExactlyWhen(limits: Limits, links: seq<Link>, actions: seq<Action>, i: nat)
    requires IsRun(limits, links, actions) && i < |actions| && actions[i].BridgeCloses?
    ensures actions[i].id < |links[i].mux.created|
    ensures var rc := links[i].mux.created[actions[i].id];
      links[i + 1].toRelay ==
        links[i].toRelay + if Routed(links[i].mux, actions[i].id) then multiset{Close(rc.ch, rc.token)} else multiset{}
  {
    InvInEveryRun(limits, links, actions, i);
    assert Next(limits, links[i], actions[i], links[i + 1]);
  }

  /** A phone is taken away by a message from the bridge exactly when that is the
      close of its own channel, by its own token. */
  lemma PhoneEndsExactlyWhen(limits: Limits, links: seq<Link>, actions: seq<Action>, i: nat, ch: Channel)
    requires IsRun(limits, links, actions) && i < |actions| && actions[i].RelayReads? && ch in links[i].phones
    ensures ch !in links[i + 1].phones <==> actions[i].m == Close(ch, links[i].phones[ch].token)
  {
    InvInEveryRun(limits, links, actions, i);
    assert Next(limits, links[i], actions[i], links[i + 1]);
    assert ToRelayOk(links[i], actions[i].m);
  }
}
