/** Handshakes, pairings and revocations racing each other in one bridge:
    `internal/bridge/server.go`, one step per locked region, store transaction
    and code-table operation. */
module Admission {
  import opened PairingCodes

  type DeviceId = string
  type ConnId = nat
  type RevokeId = nat
  /** A moment: the number of steps taken before it. */
  type Moment = nat

  const MAX_PUBLISH_ATTEMPTS := 3

  /** Where a connection's handshake is.  `g` is the generation it has captured,
      `record` the moment the trust record it relies on was inserted. */
  datatype Phase =
    | Greeting
    | Captured(g: nat)
    | ListedCodes(g: nat, listed: set<Code>)
    | Proved(g: nat, code: Code)             // unknown phone with a valid pairing proof
    | Spent(g: nat, code: Code)              // its code is consumed
    | Publishing(g: nat, attempt: nat, record: Moment)
    | Rechecking(g: nat, attempt: nat)
    | Published(record: Moment)
    | Rejected

  datatype Conn = Conn(phone: DeviceId, phase: Phase, closing: bool)

  datatype Revocation =
    | Removed(device: DeviceId, record: Moment, at: Moment)     // gone from disk, generation not yet advanced
    | Closing(device: DeviceId, at: Moment, todo: set<ConnId>)
    | Returned(device: DeviceId, at: Moment)

  datatype Pairing = Pairing(device: DeviceId, code: Code)

  /** `trusted` abstracts devices.json to its ids, each with the moment its
      record was inserted; `inserted` says which code paid for an insertion. */
  datatype State = State(
    clock: Moment,
    trusted: map<DeviceId, Moment>,
    codes: map<Code, int>,
    issued: set<Code>,
    generation: nat,
    conns: map<ConnId, Conn>,
    revocations: map<RevokeId, Revocation>,
    inserted: map<Moment, Pairing>)

  datatype Action =
    | Connect(c: ConnId, phone: DeviceId)
    | Capture(c: ConnId)
    | ListCodes(c: ConnId, now: int)
    | FindTrusted(c: ConnId)
    | AcceptProof(c: ConnId, code: Code)
    | Refuse(c: ConnId)                      // any failure of the handshake
    | ConsumeCode(c: ConnId, now: int)
    | AddTrusted(c: ConnId)
    | TryPublish(c: ConnId)
    | Recheck(c: ConnId)
    | CloseConn(c: ConnId)
    | Untrack(c: ConnId)
    | IssueCode(code: Code, now: int, ttl: int)
    | PruneCodes(now: int)
    | Remove(r: RevokeId, device: DeviceId)
    | Advance(r: RevokeId)
    | CloseNext(r: RevokeId, c: ConnId)
    | Return(r: RevokeId)

  ghost predicate In(s: State, c: ConnId) { c in s.conns }

  function Moved(s: State, c: ConnId, phase: Phase): map<ConnId, Conn>
    requires c in s.conns
  {
    s.conns[c := s.conns[c].(phase := phase)]
  }

  /** The published connections of a device, as `Revoke` collects them. */
  function Matching(conns: map<ConnId, Conn>, device: DeviceId): set<ConnId> {
    set c | c in conns && conns[c].phase.Published? && conns[c].phone == device
  }

  ghost predicate Effect(s: State, a: Action, s': State) {
    match a
    case Connect(c, phone) =>
      c !in s.conns && s' == s.(conns := s.conns[c := Conn(phone, Greeting, false)])
    case Capture(c) =>
      In(s, c) && s.conns[c].phase == Greeting && s' == s.(conns := Moved(s, c, Captured(s.generation)))
    case ListCodes(c, now) =>
      && In(s, c) && s.conns[c].phase.Captured?
      && s' == s.(codes := Live(s.codes, now),
                  conns := Moved(s, c, ListedCodes(s.conns[c].phase.g, Live(s.codes, now).Keys)))
    case FindTrusted(c) =>
      && In(s, c) && s.conns[c].phase.ListedCodes? && s.conns[c].phone in s.trusted
      && s' == s.(conns := Moved(s, c, Publishing(s.conns[c].phase.g, 0, s.trusted[s.conns[c].phone])))
    case AcceptProof(c, code) =>
      && In(s, c) && s.conns[c].phase.ListedCodes? && code in s.conns[c].phase.listed
      && s' == s.(conns := Moved(s, c, Proved(s.conns[c].phase.g, code)))
    case Refuse(c) =>
      && In(s, c) && !s.conns[c].phase.Published?
      && s' == s.(conns := s.conns[c := s.conns[c].(phase := Rejected, closing := true)])
    case ConsumeCode(c, now) =>
      && In(s, c) && s.conns[c].phase.Proved?
      && var code := s.conns[c].phase.code;
      && s' == s.(codes := Live(s.codes, now) - {code},
                  conns := Moved(s, c, if code in Live(s.codes, now)
                                       then Spent(s.conns[c].phase.g, code) else Rejected))
    case AddTrusted(c) =>
      && In(s, c) && s.conns[c].phase.Spent?
      && var phone := s.conns[c].phone;
      && s' == s.(trusted := if phone in s.trusted then s.trusted else s.trusted[phone := s.clock],
                  inserted := if phone in s.trusted then s.inserted
                              else s.inserted[s.clock := Pairing(phone, s.conns[c].phase.code)],
                  conns := Moved(s, c, Publishing(s.conns[c].phase.g, 0,
                             if phone in s.trusted then s.trusted[phone] else s.clock)))
    case TryPublish(c) =>
      && In(s, c) && s.conns[c].phase.Publishing?
      && s' == s.(conns := Moved(s, c,
                    if s.conns[c].phase.g == s.generation then Published(s.conns[c].phase.record)
                    else Rechecking(s.generation, s.conns[c].phase.attempt)))
    case Recheck(c) =>
      && In(s, c) && s.conns[c].phase.Rechecking? && s.conns[c].phone in s.trusted
      && s' == s.(conns := Moved(s, c,
                    if s.conns[c].phase.attempt + 1 < MAX_PUBLISH_ATTEMPTS
                    then Publishing(s.conns[c].phase.g, s.conns[c].phase.attempt + 1, s.trusted[s.conns[c].phone])
                    else Rejected))
    case CloseConn(c) => In(s, c) && s' == s.(conns := s.conns[c := s.conns[c].(closing := true)])
    case Untrack(c) => s' == s.(conns := s.conns - {c})
    case IssueCode(code, now, ttl) =>
      code !in s.issued && s' == s.(issued := s.issued + {code}, codes := s.codes[code := now + ttl])
    case PruneCodes(now) => s' == s.(codes := Live(s.codes, now))
    case Remove(r, device) =>
      && r !in s.revocations && device in s.trusted
      && s' == s.(trusted := s.trusted - {device},
                  revocations := s.revocations[r := Removed(device, s.trusted[device], s.clock)])
    case Advance(r) =>
      && r in s.revocations && s.revocations[r].Removed?
      && var rev := s.revocations[r];
      && s' == s.(generation := s.generation + 1,
                  revocations := s.revocations[r := Closing(rev.device, rev.at, Matching(s.conns, rev.device))])
    case CloseNext(r, c) =>
      && r in s.revocations && s.revocations[r].Closing? && c in s.revocations[r].todo
      && s' == s.(conns := if c in s.conns then s.conns[c := s.conns[c].(closing := true)] else s.conns,
                  revocations := s.revocations[r := s.revocations[r].(todo := s.revocations[r].todo - {c})])
    case Return(r) =>
      && r in s.revocations && s.revocations[r].Closing? && s.revocations[r].todo == {}
      && s' == s.(revocations := s.revocations[r := Returned(s.revocations[r].device, s.revocations[r].at)])
  }

  /** One step, and the clock goes on. */
  ghost predicate Next(s: State, a: Action, s': State) {
    s'.clock == s.clock + 1 && Effect(s, a, s'.(clock := s.clock))
  }

  // ---------- What every reachable state keeps ----------

  /** A revocation that has taken the device off disk but not yet advanced the
      generation. */
  ghost predicate BeingRevoked(s: State, device: DeviceId, record: Moment) {
    exists r :: r in s.revocations && s.revocations[r].Removed?
                && s.revocations[r].device == device && s.revocations[r].record == record
  }

  /** The trust record still stands, or its revocation is about to take effect. */
  ghost predicate Backed(s: State, device: DeviceId, record: Moment) {
    (device in s.trusted && s.trusted[device] == record) || BeingRevoked(s, device, record)
  }

  /** The connection is closed, or some revocation is about to close it. */
  ghost predicate Condemned(s: State, c: ConnId)
    requires c in s.conns
  {
    s.conns[c].closing ||
    exists r :: r in s.revocations && s.revocations[r].Closing? && c in s.revocations[r].todo
  }

  /** The record was there from the start or a pairing of the device inserted it. */
  ghost predicate Paired(s: State, device: DeviceId, record: Moment) {
    record == 0 || (record in s.inserted && s.inserted[record].device == device)
  }

  /** No insertion was paid for with this code. */
  ghost predicate Unused(s: State, code: Code) {
    forall t :: t in s.inserted ==> s.inserted[t].code != code
  }

  ghost predicate TookEffect(rev: Revocation) { !rev.Removed? }

  /** The record is newer than every revocation of the device that has taken
      effect. */
  ghost predicate Newer(s: State, device: DeviceId, record: Moment) {
    forall r :: r in s.revocations && s.revocations[r].device == device && TookEffect(s.revocations[r]) ==>
      s.revocations[r].at < record
  }

  /** The revocation, once it has taken effect, closes the connection unless its
      record is newer. */
  ghost predicate NewerOrClosed(s: State, rev: Revocation, c: ConnId, record: Moment)
    requires c in s.conns
  {
    rev.device == s.conns[c].phone && TookEffect(rev) ==>
      rev.at < record || s.conns[c].closing || (rev.Closing? && c in rev.todo)
  }

  ghost predicate ConnOk(s: State, c: ConnId)
    requires c in s.conns
  {
    var conn := s.conns[c];
    match conn.phase
    case Greeting => true
    case Captured(g) => g <= s.generation
    case ListedCodes(g, _) => g <= s.generation
    case Proved(g, _) => g <= s.generation
    case Spent(g, code) => g <= s.generation && code in s.issued && code !in s.codes && Unused(s, code)
    case Rechecking(g, _) => g <= s.generation
    case Publishing(g, _, record) =>
      && g <= s.generation && Paired(s, conn.phone, record)
      && (g == s.generation ==> Backed(s, conn.phone, record) && Newer(s, conn.phone, record))
    case Published(record) =>
      && Paired(s, conn.phone, record)
      && (Condemned(s, c) || Backed(s, conn.phone, record))
      && forall r :: r in s.revocations ==> NewerOrClosed(s, s.revocations[r], c, record)
    case Rejected => true
  }

  ghost predicate TrustInv(s: State) {
    && (forall d :: d in s.trusted ==> s.trusted[d] < s.clock && Paired(s, d, s.trusted[d]))
    && (forall d, r :: d in s.trusted && r in s.revocations && s.revocations[r].device == d ==>
          s.revocations[r].at < s.trusted[d])
    && (forall r :: r in s.revocations ==> 0 < s.revocations[r].at < s.clock)
  }

  ghost predicate OutstandingOk(s: State) {
    forall code :: code in s.codes ==> code in s.issued && Unused(s, code)
  }

  ghost predicate InsertedOk(s: State) {
    && (forall t :: t in s.inserted ==> 0 < t < s.clock && s.inserted[t].code in s.issued)
    && (forall t, u :: t in s.inserted && u in s.inserted && t != u ==>
          s.inserted[t].code != s.inserted[u].code)
  }

  ghost predicate CodesInv(s: State) {
    && OutstandingOk(s) && InsertedOk(s)
    && (forall c, d :: c in s.conns && d in s.conns && c != d && s.conns[c].phase.Spent? && s.conns[d].phase.Spent? ==>
          s.conns[c].phase.code != s.conns[d].phase.code)
  }

  ghost predicate Inv(s: State) {
    s.clock > 0 && TrustInv(s) && CodesInv(s) && forall c :: c in s.conns ==> ConnOk(s, c)
  }

  predicate AdvancesFor(s: State, a: Action, device: DeviceId) {
    a.Advance? && a.r in s.revocations && s.revocations[a.r].device == device
  }

  lemma RevocationStays(s: State, a: Action, s': State, r: RevokeId)
    requires Next(s, a, s') && r in s.revocations && s.revocations[r].Removed? && !(a.Advance? && a.r == r)
    ensures r in s'.revocations && s'.revocations[r] == s.revocations[r]
  {}

  lemma BackedStays(s: State, a: Action, s': State, device: DeviceId, record: Moment)
    requires Next(s, a, s') && Backed(s, device, record) && !AdvancesFor(s, a, device)
    ensures Backed(s', device, record)
  {
    if device in s.trusted && s.trusted[device] == record {
      if a.Remove? && a.device == device {
        assert s'.revocations[a.r].Removed?;
      }
    } else {
      var r :| r in s.revocations && s.revocations[r].Removed?
               && s.revocations[r].device == device && s.revocations[r].record == record;
      RevocationStays(s, a, s', r);
    }
  }

  /** A revocation that has taken effect had done so before, or does so now. */
  lemma TookEffectBefore(s: State, a: Action, s': State, r: RevokeId)
    requires Next(s, a, s') && r in s'.revocations && TookEffect(s'.revocations[r])
    ensures r in s.revocations
    ensures s.revocations[r].device == s'.revocations[r].device && s.revocations[r].at == s'.revocations[r].at
    ensures TookEffect(s.revocations[r]) || (a.Advance? && a.r == r)
  {}

  lemma NewerStays(s: State, a: Action, s': State, device: DeviceId, record: Moment)
    requires Next(s, a, s') && Newer(s, device, record) && !AdvancesFor(s, a, device)
    ensures Newer(s', device, record)
  {
    forall r | r in s'.revocations && s'.revocations[r].device == device && TookEffect(s'.revocations[r])
      ensures s'.revocations[r].at < record
    {
      TookEffectBefore(s, a, s', r);
    }
  }

  lemma ClosingStays(s: State, a: Action, s': State, c: ConnId)
    requires Next(s, a, s') && c in s.conns && c in s'.conns && s.conns[c].closing
    ensures s'.conns[c].closing
  {}

  lemma TodoStays(s: State, a: Action, s': State, r: RevokeId, c: ConnId)
    requires Next(s, a, s') && c in s.conns && c in s'.conns
    requires r in s.revocations && s.revocations[r].Closing? && c in s.revocations[r].todo
    ensures s'.conns[c].closing || (r in s'.revocations && s'.revocations[r].Closing? && c in s'.revocations[r].todo)
  {}

  lemma CondemnedStays(s: State, a: Action, s': State, c: ConnId)
    requires Next(s, a, s') && c in s.conns && c in s'.conns && Condemned(s, c)
    ensures Condemned(s', c)
  {
    if s.conns[c].closing {
      ClosingStays(s, a, s', c);
    } else {
      var r :| r in s.revocations && s.revocations[r].Closing? && c in s.revocations[r].todo;
      TodoStays(s, a, s', r, c);
    }
  }

  /** A record that stands now is newer than every revocation of its device. */
  lemma TrustedIsNewer(s: State, device: DeviceId)
    requires TrustInv(s) && device in s.trusted
    ensures Backed(s, device, s.trusted[device]) && Newer(s, device, s.trusted[device])
  {}

  predicate Acts(a: Action, c: ConnId) {
    match a
    case Capture(d) => c == d
    case ListCodes(d, _) => c == d
    case FindTrusted(d) => c == d
    case AcceptProof(d, _) => c == d
    case Refuse(d) => c == d
    case ConsumeCode(d, _) => c == d
    case AddTrusted(d) => c == d
    case TryPublish(d) => c == d
    case Recheck(d) => c == d
    case Connect(d, _) => c == d
    case _ => false
  }

  lemma GenerationGrows(s: State, a: Action, s': State)
    requires Next(s, a, s')
    ensures s'.generation == s.generation + (if a.Advance? then 1 else 0)
    ensures s.issued <= s'.issued
  {}

  lemma PhaseStays(s: State, a: Action, s': State, c: ConnId)
    requires Next(s, a, s') && c in s'.conns && !Acts(a, c)
    ensures c in s.conns && s'.conns[c].phase == s.conns[c].phase && s'.conns[c].phone == s.conns[c].phone
  {}

  lemma PairedStays(s: State, a: Action, s': State, device: DeviceId, record: Moment)
    requires CodesInv(s) && Next(s, a, s') && Paired(s, device, record)
    ensures Paired(s', device, record)
  {
    InsertedFrame(s, a, s');
  }

  /** When the generation advances, every published connection of the device is
      put on the revocation's list. */
  lemma AdvanceCondemns(s: State, a: Action, s': State, c: ConnId)
    requires Next(s, a, s') && c in s.conns && s.conns[c].phase.Published? && AdvancesFor(s, a, s.conns[c].phone)
    ensures a.r in s'.revocations && s'.revocations[a.r].Closing? && c in s'.revocations[a.r].todo
  {
    assert c in Matching(s.conns, s.revocations[a.r].device);
  }

  lemma BackedOrCondemnedStays(s: State, a: Action, s': State, c: ConnId, record: Moment)
    requires Next(s, a, s') && c in s.conns && c in s'.conns && s.conns[c].phase == Published(record)
    requires Condemned(s, c) || Backed(s, s.conns[c].phone, record)
    ensures Condemned(s', c) || Backed(s', s.conns[c].phone, record)
  {
    var phone := s.conns[c].phone;
    if Condemned(s, c) {
      CondemnedStays(s, a, s', c);
    } else if AdvancesFor(s, a, phone) {
      AdvanceCondemns(s, a, s', c);
    } else {
      BackedStays(s, a, s', phone, record);
    }
  }

  lemma NewerOrClosedStays(s: State, a: Action, s': State, r: RevokeId, c: ConnId, record: Moment)
    requires Next(s, a, s') && c in s.conns && c in s'.conns && s'.conns[c].phone == s.conns[c].phone
    requires s.conns[c].phase == Published(record) && r in s'.revocations
    requires r in s.revocations ==> NewerOrClosed(s, s.revocations[r], c, record)
    ensures NewerOrClosed(s', s'.revocations[r], c, record)
  {
    var rev := s'.revocations[r];
    if rev.device == s.conns[c].phone && TookEffect(rev) && rev.at >= record {
      TookEffectBefore(s, a, s', r);
      if !TookEffect(s.revocations[r]) {
        AdvanceCondemns(s, a, s', c);
      } else if s.conns[c].closing {
        ClosingStays(s, a, s', c);
      } else {
        TodoStays(s, a, s', r, c);
      }
    }
  }

  lemma StepKeepsPublished(s: State, a: Action, s': State, c: ConnId)
    requires Inv(s) && Next(s, a, s') && c in s'.conns && !Acts(a, c)
    requires c in s.conns && s.conns[c].phase.Published?
    requires s'.conns[c].phase == s.conns[c].phase && s'.conns[c].phone == s.conns[c].phone
    ensures ConnOk(s', c)
  {
    assert ConnOk(s, c);
    var phone, record := s.conns[c].phone, s.conns[c].phase.record;
    PairedStays(s, a, s', phone, record);
    BackedOrCondemnedStays(s, a, s', c, record);
    forall r | r in s'.revocations ensures NewerOrClosed(s', s'.revocations[r], c, record) {
      NewerOrClosedStays(s, a, s', r, c, record);
    }
  }

  /** A step another party takes. */
  lemma StepKeepsOtherConn(s: State, a: Action, s': State, c: ConnId)
    requires Inv(s) && Next(s, a, s') && c in s'.conns && !Acts(a, c)
    ensures ConnOk(s', c)
  {
    PhaseStays(s, a, s', c);
    GenerationGrows(s, a, s');
    assert ConnOk(s, c);
    var conn := s.conns[c];
    if conn.phase.Spent? {
      SpentStays(s, a, s', c);
    } else if conn.phase.Published? {
      StepKeepsPublished(s, a, s', c);
    } else if conn.phase.Publishing? && conn.phase.g == s'.generation {
      BackedStays(s, a, s', conn.phone, conn.phase.record);
      NewerStays(s, a, s', conn.phone, conn.phase.record);
    }
  }

  lemma SpentStays(s: State, a: Action, s': State, c: ConnId)
    requires Inv(s) && Next(s, a, s') && c in s'.conns && !Acts(a, c)
    requires c in s.conns && s.conns[c].phase.Spent? && ConnOk(s, c)
    ensures s.conns[c].phase.code !in s'.codes && Unused(s', s.conns[c].phase.code)
  {
    CodesFrame(s, a, s');
    InsertedFrame(s, a, s');
    if a.AddTrusted? {
      assert s.conns[a.c].phase.code != s.conns[c].phase.code;
    }
  }

  /** The step the connection itself takes. */
  lemma StepKeepsActingConn(s: State, a: Action, s': State, c: ConnId)
    requires Inv(s) && Next(s, a, s') && c in s'.conns && Acts(a, c) && TrustInv(s')
    ensures ConnOk(s', c)
  {
    if c in s.conns {
      assert ConnOk(s, c);
      var phone := s.conns[c].phone;
      if phone in s'.trusted {
        TrustedIsNewer(s', phone);
      }
      if a.TryPublish? && s.conns[c].phase.g == s.generation {
        BackedStays(s, a, s', phone, s.conns[c].phase.record);
        NewerStays(s, a, s', phone, s.conns[c].phase.record);
      }
    }
  }

  lemma StepKeepsTrust(s: State, a: Action, s': State)
    requires Inv(s) && Next(s, a, s')
    ensures TrustInv(s')
  {
    TrustFrame(s, a, s');
    RevocationFrame(s, a, s');
  }

  lemma TrustFrame(s: State, a: Action, s': State)
    requires Next(s, a, s')
    ensures forall d :: d in s'.trusted ==>
              || (d in s.trusted && s'.trusted[d] == s.trusted[d])
              || (a.AddTrusted? && s'.trusted[d] == s.clock && Paired(s', d, s.clock))
    ensures a.Remove? ==> a.device !in s'.trusted
    ensures forall t :: t in s.inserted && t != s.clock ==> t in s'.inserted && s'.inserted[t] == s.inserted[t]
  {}

  lemma RevocationFrame(s: State, a: Action, s': State)
    requires Next(s, a, s')
    ensures forall r :: r in s'.revocations ==>
              || (r in s.revocations && s'.revocations[r].device == s.revocations[r].device
                  && s'.revocations[r].at == s.revocations[r].at)
              || (a.Remove? && a.r == r && s'.revocations[r].device == a.device && s'.revocations[r].at == s.clock)
  {}

  lemma CodesFrame(s: State, a: Action, s': State)
    requires Next(s, a, s')
    ensures forall code :: code in s'.codes ==> code in s.codes || (a.IssueCode? && code == a.code && code !in s.issued)
  {}

  lemma InsertedFrame(s: State, a: Action, s': State)
    requires Next(s, a, s')
    ensures s'.inserted == s.inserted ||
              (a.AddTrusted? && In(s, a.c) && s.conns[a.c].phase.Spent?
               && s'.inserted == s.inserted[s.clock := Pairing(s.conns[a.c].phone, s.conns[a.c].phase.code)])
  {}

  /** A connection with a spent code had it before, or has just consumed it. */
  lemma SpentBefore(s: State, a: Action, s': State, c: ConnId)
    requires Next(s, a, s') && c in s'.conns && s'.conns[c].phase.Spent?
    ensures || (c in s.conns && s'.conns[c].phase == s.conns[c].phase && !(a.AddTrusted? && a.c == c))
            || (a.ConsumeCode? && a.c == c && s'.conns[c].phase.code in s.codes && s'.conns[c].phase.code !in s'.codes)
  {}

  /** Two spent codes stay different: one just consumed was still outstanding. */
  lemma SpentApart(s: State, a: Action, s': State, c: ConnId, d: ConnId)
    requires Inv(s) && Next(s, a, s') && c in s'.conns && d in s'.conns && c != d
    requires s'.conns[c].phase.Spent? && s'.conns[d].phase.Spent?
    ensures s'.conns[c].phase.code != s'.conns[d].phase.code
  {
    SpentBefore(s, a, s', c);
    SpentBefore(s, a, s', d);
    if c in s.conns { assert ConnOk(s, c); }
    if d in s.conns { assert ConnOk(s, d); }
  }

  /** An insertion is paid for with a code nobody has used. */
  lemma PaidWithUnused(s: State, a: Action, s': State)
    requires Inv(s) && Next(s, a, s') && s'.inserted != s.inserted
    ensures a.AddTrusted? && In(s, a.c) && s.conns[a.c].phase.Spent?
    ensures var code := s.conns[a.c].phase.code;
      && s'.inserted == s.inserted[s.clock := Pairing(s.conns[a.c].phone, code)]
      && code in s.issued && code !in s.codes && Unused(s, code)
  {
    InsertedFrame(s, a, s');
    assert ConnOk(s, a.c);
  }

  lemma StepKeepsInserted(s: State, a: Action, s': State)
    requires Inv(s) && Next(s, a, s')
    ensures InsertedOk(s')
  {
    GenerationGrows(s, a, s');
    if s'.inserted != s.inserted {
      PaidWithUnused(s, a, s');
    }
  }

  lemma StepKeepsOutstanding(s: State, a: Action, s': State)
    requires Inv(s) && Next(s, a, s')
    ensures OutstandingOk(s')
  {
    CodesFrame(s, a, s');
    GenerationGrows(s, a, s');
    if s'.inserted != s.inserted {
      PaidWithUnused(s, a, s');
    }
  }

  lemma StepKeepsCodes(s: State, a: Action, s': State)
    requires Inv(s) && Next(s, a, s')
    ensures CodesInv(s')
  {
    StepKeepsOutstanding(s, a, s');
    StepKeepsInserted(s, a, s');
    forall c, d | c in s'.conns && d in s'.conns && c != d && s'.conns[c].phase.Spent? && s'.conns[d].phase.Spent?
      ensures s'.conns[c].phase.code != s'.conns[d].phase.code
    {
      SpentApart(s, a, s', c, d);
    }
  }

  lemma StepKeepsInv(s: State, a: Action, s': State)
    requires Inv(s) && Next(s, a, s')
    ensures Inv(s')
  {
    StepKeepsTrust(s, a, s');
    StepKeepsCodes(s, a, s');
    forall c | c in s'.conns ensures ConnOk(s', c) {
      if Acts(a, c) {
        StepKeepsActingConn(s, a, s', c);
      } else {
        StepKeepsOtherConn(s, a, s', c);
      }
    }
  }

  // ---------- Whole runs ----------

  /** The bridge starts with the devices on disk, no code and no connection. */
  ghost predicate Start(s: State) {
    && s == State(1, s.trusted, map[], {}, 0, map[], map[], map[])
    && forall d :: d in s.trusted ==> s.trusted[d] == 0
  }

  ghost predicate IsRun(states: seq<State>, actions: seq<Action>) {
    && |states| == |actions| + 1
    && Start(states[0])
    && forall i {:trigger actions[i]} :: 0 <= i < |actions| ==> Next(states[i], actions[i], states[i + 1])
  }

  lemma {:induction false} InvInEveryRun(states: seq<State>, actions: seq<Action>, i: nat)
    requires IsRun(states, actions) && i < |states|
    ensures Inv(states[i]) && states[i].clock == i + 1
  {
    if i > 0 {
      InvInEveryRun(states, actions, i - 1);
      StepKeepsInv(states[i - 1], actions[i - 1], states[i]);
    }
  }

  /** In every interleaving, a published connection that nobody is closing belongs
      to a device whose trust record still stands on disk, or whose revocation
      has removed the record and is about to advance the generation. */
  lemma PublishedMeansTrusted(states: seq<State>, actions: seq<Action>, i: nat, c: ConnId)
    requires IsRun(states, actions) && i < |states|
    requires c in states[i].conns && states[i].conns[c].phase.Published? && !Condemned(states[i], c)
    ensures Backed(states[i], states[i].conns[c].phone, states[i].conns[c].phase.record)
  {
    InvInEveryRun(states, actions, i);
    assert ConnOk(states[i], c);
  }

  /** Once `Revoke` has returned, every connection of the device is closed, save
      those admitted on a trust record that a pairing inserted after the
      removal. */
  lemma RevokedMeansDisconnected(
    states: seq<State>, actions: seq<Action>, i: nat, r: RevokeId, c: ConnId)
    requires IsRun(states, actions) && i < |states|
    requires r in states[i].revocations && states[i].revocations[r].Returned?
    requires c in states[i].conns && states[i].conns[c].phase.Published?
    requires states[i].conns[c].phone == states[i].revocations[r].device && !states[i].conns[c].closing
    ensures var record := states[i].conns[c].phase.record;
      && states[i].revocations[r].at < record
      && record in states[i].inserted && states[i].inserted[record].device == states[i].conns[c].phone
  {
    InvInEveryRun(states, actions, i);
    assert ConnOk(states[i], c);
    assert NewerOrClosed(states[i], states[i].revocations[r], c, states[i].conns[c].phase.record);
  }

  /** The step at which a recorded pairing was made: a connection of that device
      whose own code had been consumed. */
  ghost predicate PairingStep(states: seq<State>, actions: seq<Action>, k: nat, p: Pairing)
    requires |states| == |actions| + 1
  {
    && k < |actions| && actions[k].AddTrusted? && In(states[k], actions[k].c)
    && p.device !in states[k].trusted
    && states[k].conns[actions[k].c].phone == p.device
    && states[k].conns[actions[k].c].phase.Spent? && states[k].conns[actions[k].c].phase.code == p.code
  }

  lemma InsertionStep(states: seq<State>, actions: seq<Action>, i: nat, t: Moment)
    requires IsRun(states, actions) && 0 < i < |states| && states[i - 1].clock == i
    requires t in states[i].inserted && t !in states[i - 1].inserted
    ensures t == i && PairingStep(states, actions, i - 1, states[i].inserted[t])
  {
    var s, a, s' := states[i - 1], actions[i - 1], states[i];
    assert Next(s, a, s');
    InsertedFrame(s, a, s');
  }

  /** Every insertion into devices.json was made at its own moment by such a
      step, and no two were paid for with one code. */
  lemma {:induction false} InsertionsArePaid(states: seq<State>, actions: seq<Action>, i: nat, t: Moment)
    requires IsRun(states, actions) && i < |states| && t in states[i].inserted
    ensures 0 < t <= i && PairingStep(states, actions, t - 1, states[i].inserted[t])
    ensures forall u :: u in states[i].inserted && u != t ==> states[i].inserted[u].code != states[i].inserted[t].code
  {
    InvInEveryRun(states, actions, i);
    if i > 0 {
      InvInEveryRun(states, actions, i - 1);
      if t in states[i - 1].inserted {
        assert t != states[i - 1].clock;
        assert Next(states[i - 1], actions[i - 1], states[i]);
        InsertedFrame(states[i - 1], actions[i - 1], states[i]);
        InsertionsArePaid(states, actions, i - 1, t);
      } else {
        InsertionStep(states, actions, i, t);
      }
    }
  }

  /** At step `k` the connection consumed the code, which was outstanding. */
  ghost predicate ConsumedAt(states: seq<State>, actions: seq<Action>, k: nat, c: ConnId, code: Code)
    requires |states| == |actions| + 1
  {
    && k < |actions| && actions[k].ConsumeCode? && actions[k].c == c
    && code in Live(states[k].codes, actions[k].now)
  }

  /** A connection whose code is spent is one for which `Consume` found that
      very code outstanding. */
  lemma {:induction false} SpentWasConsumed(states: seq<State>, actions: seq<Action>, i: nat, c: ConnId)
    requires IsRun(states, actions) && i < |states|
    requires c in states[i].conns && states[i].conns[c].phase.Spent?
    ensures exists k: nat :: k < i && ConsumedAt(states, actions, k, c, states[i].conns[c].phase.code)
  {
    if i > 0 {
      var code := states[i].conns[c].phase.code;
      assert Next(states[i - 1], actions[i - 1], states[i]);
      SpentBefore(states[i - 1], actions[i - 1], states[i], c);
      if actions[i - 1].ConsumeCode? && actions[i - 1].c == c {
        assert ConsumedAt(states, actions, i - 1, c, code);
      } else {
        SpentWasConsumed(states, actions, i - 1, c);
      }
    }
  }
}
