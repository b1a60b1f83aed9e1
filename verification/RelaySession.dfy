/** The session object of `internal/relay/relay.go`: the phones one bridge
    serves, changed in place under the session lock.  Every method is one
    locked region and is proved against its meaning in `RelayPhones`. */
module RelaySession {
  import opened Options
  import opened RelayPhones

  function Lookup(counts: map<string, nat>, key: string): nat {
    if key in counts then counts[key] else 0
  }

  ghost function In(group: set<Channel>, done: set<Channel>): set<Channel> {
    set c | c in done && c in group
  }

  /** How much of a group a pass has counted once it has seen `done`. */
  ghost function Count(group: set<Channel>, done: set<Channel>): nat {
    |In(group, done)|
  }

  lemma OneMore(group: set<Channel>, done: set<Channel>, c: Channel)
    requires c !in done
    ensures Count(group, done + {c}) == Count(group, done) + (if c in group then 1 else 0)
  {
    assert In(group, done + {c}) == (if c in group then In(group, done) + {c} else In(group, done));
  }

  lemma CountAll(group: set<Channel>, done: set<Channel>)
    requires group <= done
    ensures Count(group, done) == |group|
  {
    assert In(group, done) == group;
  }

  method AdmittedCount(ph: Phones) returns (n: nat)
    ensures n == |Admitted(ph)|
  {
    n := 0;
    var todo := ph.Keys;
    ghost var done: set<Channel> := {};
    while todo != {}
      invariant done !! todo && done + todo == ph.Keys
      invariant n == Count(Admitted(ph), done)
      decreases todo
    {
      var c :| c in todo;
      OneMore(Admitted(ph), done, c);
      todo, done := todo - {c}, done + {c};
      if ph[c].admitted {
        n := n + 1;
      }
    }
    CountAll(Admitted(ph), done);
  }

  /** How many phones are pending, and how many of those are of group `key`. */
  method PendingCounts(ph: Phones, key: string) returns (pending: nat, sameKey: nat)
    ensures pending == |Pending(ph)| && sameKey == |PendingOf(ph, key)|
  {
    pending, sameKey := 0, 0;
    var todo := ph.Keys;
    ghost var done: set<Channel> := {};
    while todo != {}
      invariant done !! todo && done + todo == ph.Keys
      invariant pending == Count(Pending(ph), done)
      invariant sameKey == Count(PendingOf(ph, key), done)
      decreases todo
    {
      var c :| c in todo;
      OneMore(Pending(ph), done, c);
      OneMore(PendingOf(ph, key), done, c);
      todo, done := todo - {c}, done + {c};
      if !ph[c].admitted {
        pending := pending + 1;
        if ph[c].key == key {
          sameKey := sameKey + 1;
        }
      }
    }
    CountAll(Pending(ph), done);
    CountAll(PendingOf(ph, key), done);
  }

  /** The maps the first pass of `DisplacementVictim` fills. */
  datatype Tally = Tally(
    total: nat, perKey: map<string, nat>, eligible: map<string, nat>, oldest: map<string, Channel>)

  /** What a tally says of one group once the phones `done` are counted. */
  ghost predicate TalliedFor(ph: Phones, done: set<Channel>, t: Tally, k: string) {
    && Lookup(t.perKey, k) == Count(PendingOf(ph, k), done)
    && Lookup(t.eligible, k) == Count(Unvouched(ph, k), done)
    && (k in t.eligible <==> k in t.oldest)
    && OldestSeen(ph, k, done, if k in t.oldest then Some(t.oldest[k]) else None)
  }

  /** The oldest displaceable phone of `key` among `done`, if there is one. */
  ghost predicate OldestSeen(ph: Phones, key: string, done: set<Channel>, v: Option<Channel>) {
    match v
    case None => forall c :: c in Unvouched(ph, key) ==> c !in done
    case Some(o) =>
      && o in Unvouched(ph, key) && o in done
      && forall c :: c in Unvouched(ph, key) && c in done ==> ph[o].openedAt <= ph[c].openedAt
  }

  ghost predicate Tallied(ph: Phones, done: set<Channel>, t: Tally) {
    && t.total == Count(Pending(ph), done)
    && (forall k :: TalliedFor(ph, done, t, k))
    && (forall k :: k in t.oldest ==> t.oldest[k] in ph)
  }

  /** Counts one more phone. */
  function CountPhone(t: Tally, ph: Phones, c: Channel): Tally
    requires c in ph
    requires forall k :: k in t.oldest ==> t.oldest[k] in ph
  {
    if ph[c].admitted then t
    else
      var k := ph[c].key;
      var t1 := t.(total := t.total + 1, perKey := t.perKey[k := Lookup(t.perKey, k) + 1]);
      if ph[c].vouched then t1
      else
        t1.(eligible := t1.eligible[k := Lookup(t1.eligible, k) + 1],
            oldest := if k !in t1.oldest || ph[c].openedAt < ph[t1.oldest[k]].openedAt
                      then t1.oldest[k := c] else t1.oldest)
  }

  lemma CountPhoneTallies(ph: Phones, done: set<Channel>, c: Channel, t: Tally)
    requires c in ph && c !in done && Tallied(ph, done, t)
    ensures Tallied(ph, done + {c}, CountPhone(t, ph, c))
  {
    OneMore(Pending(ph), done, c);
    forall k ensures TalliedFor(ph, done + {c}, CountPhone(t, ph, c), k) {
      assert TalliedFor(ph, done, t, k);
      OneMore(PendingOf(ph, k), done, c);
      OneMore(Unvouched(ph, k), done, c);
    }
  }

  /** Once all phones are counted a tally describes whole groups. */
  lemma TalliedAll(ph: Phones, t: Tally, k: string)
    requires Tallied(ph, ph.Keys, t)
    ensures Lookup(t.perKey, k) == |PendingOf(ph, k)|
    ensures Lookup(t.eligible, k) == |Unvouched(ph, k)|
    ensures k in t.eligible <==> k in t.oldest
    ensures k in t.oldest <==> Unvouched(ph, k) != {}
    ensures k in t.oldest ==> OldestOf(ph, k, t.oldest[k])
  {
    assert TalliedFor(ph, ph.Keys, t, k);
    CountAll(PendingOf(ph, k), ph.Keys);
    CountAll(Unvouched(ph, k), ph.Keys);
  }

  /** The first pass, over the phones in whatever order they come. */
  method TallyPhones(ph: Phones) returns (t: Tally)
    ensures Tallied(ph, ph.Keys, t)
  {
    t := Tally(0, map[], map[], map[]);
    var todo := ph.Keys;
    ghost var done: set<Channel> := {};
    while todo != {}
      invariant done !! todo && done + todo == ph.Keys
      invariant Tallied(ph, done, t)
      decreases todo
    {
      var c :| c in todo;
      CountPhoneTallies(ph, done, c, t);
      todo, done := todo - {c}, done + {c};
      t := CountPhone(t, ph, c);
    }
  }

  /** The phone to evict, if any, for a newcomer of group `key`.  Visits the
      phones, then the groups, in whatever order they come. */
  method DisplacementVictim(ph: Phones, key: string, limits: Limits) returns (victim: Option<Channel>)
    requires forall c :: c in ph ==> ph[c].key != ""
    ensures IsVictim(ph, key, limits, victim)
  {
    var t := TallyPhones(ph);
    TalliedAll(ph, t, key);
    CountAll(Pending(ph), ph.Keys);
    if Lookup(t.perKey, key) >= limits.maxPendingPerKey {
      return if key in t.oldest then Some(t.oldest[key]) else None;
    }
    if t.total < limits.maxPending {
      return None;
    }
    victim := BusiestOldest(ph, t);
  }

  /** The oldest displaceable phone of the busiest group; ties go to the group
      whose oldest phone is oldest. */
  method BusiestOldest(ph: Phones, t: Tally) returns (victim: Option<Channel>)
    requires forall c :: c in ph ==> ph[c].key != ""
    requires Tallied(ph, ph.Keys, t)
    ensures match victim
            case None => forall c :: c in Pending(ph) ==> ph[c].vouched
            case Some(v) => v in ph && Busiest(ph, ph[v].key, v)
  {
    var busiestKey, busiestCount, busiestOldest := "", 0, 0;
    var keys := t.eligible.Keys;
    while keys != {}
      invariant keys <= t.eligible.Keys
      invariant busiestKey == "" <==> keys == t.eligible.Keys
      invariant busiestKey != "" ==>
                  && busiestKey in t.eligible && busiestKey in t.oldest && t.oldest[busiestKey] in ph
                  && busiestCount == t.eligible[busiestKey]
                  && busiestOldest == ph[t.oldest[busiestKey]].openedAt
      invariant forall k :: k in t.eligible.Keys - keys ==>
                  && k in t.oldest && t.oldest[k] in ph
                  && (|| t.eligible[k] < busiestCount
                      || (t.eligible[k] == busiestCount && busiestOldest <= ph[t.oldest[k]].openedAt))
      decreases keys
    {
      var k :| k in keys;
      TalliedAll(ph, t, k);
      assert ph[t.oldest[k]].key == k;
      keys := keys - {k};
      if busiestKey == "" || t.eligible[k] > busiestCount ||
         (t.eligible[k] == busiestCount && ph[t.oldest[k]].openedAt < busiestOldest) {
        busiestKey, busiestCount, busiestOldest := k, t.eligible[k], ph[t.oldest[k]].openedAt;
      }
    }
    if busiestKey == "" {
      forall c | c in Pending(ph) ensures ph[c].vouched {
        TalliedAll(ph, t, ph[c].key);
        assert c !in Unvouched(ph, ph[c].key);
      }
      return None;
    }
    TalliedAll(ph, t, busiestKey);
    var v := t.oldest[busiestKey];
    forall other, w | OldestOf(ph, other, w)
      ensures || |Unvouched(ph, other)| < |Unvouched(ph, busiestKey)|
              || (|Unvouched(ph, other)| == |Unvouched(ph, busiestKey)| && ph[v].openedAt <= ph[w].openedAt)
    {
      TalliedAll(ph, t, other);
    }
    return Some(v);
  }

  class Session {
    var phones: Phones
    var nextCh: Channel

    constructor ()
      ensures phones == map[] && nextCh == 0
    {
      phones, nextCh := map[], 0;
    }

    /** Every phone has an address group. */
    ghost predicate Valid()
      reads this
    {
      forall c :: c in phones ==> phones[c].key != ""
    }

    /** Advances the channel counter to the first free number.  It terminates
        because the numbers tried are all taken, and fewer than 65535 are. */
    method AllocateChannel()
      requires |phones| < 0xFFFF
      modifies this`nextCh
      ensures FirstFree(phones, old(nextCh), nextCh)
    {
      nextCh := After(nextCh);
      ghost var first := nextCh;
      while nextCh in phones
        invariant first != 0 && nextCh != 0
        invariant Tried(first, nextCh) <= phones.Keys
        decreases phones.Keys - Tried(first, nextCh)
      {
        StepExtendsTried(phones, first, nextCh);
        nextCh := After(nextCh);
      }
    }

    /** Admits a newcomer, displacing at most one pending phone for it. */
    method Connect(newcomer: PhoneView, limits: Limits) returns (outcome: ConnectOutcome)
      requires Valid() && limits.Valid() && WithinCaps(phones, limits) && newcomer.key != ""
      modifies this
      ensures Valid()
      ensures Connects(old(phones), old(nextCh), limits, newcomer, outcome, phones, nextCh)
    {
      var n := AdmittedCount(phones);
      if n >= limits.maxPhones {
        return SessionFull;
      }
      var victim := DisplacementVictim(phones, newcomer.key, limits);
      var pending, sameKey := PendingCounts(phones, newcomer.key);
      if (sameKey >= limits.maxPendingPerKey || pending >= limits.maxPending) && victim.None? {
        return PendingProtected;
      }
      if victim.Some? {
        phones := phones - {victim.value};
      }
      RoomLeft(old(phones), phones, limits);
      AllocateChannel();
      phones := phones[nextCh := newcomer];
      return Connected(nextCh, victim);
    }

    method CountBridgeFrame(ch: Channel, maxAdmitted: nat) returns (p: Option<PhoneView>, overCap: bool)
      modifies this`phones
      ensures phones == CountFrame(old(phones), ch, maxAdmitted).0
      ensures overCap == CountFrame(old(phones), ch, maxAdmitted).1
      ensures p == if ch in old(phones) then Some(phones[ch]) else None
    {
      if ch !in phones {
        return None, false;
      }
      overCap := false;
      phones := phones[ch := phones[ch].(bridgeFrames := phones[ch].bridgeFrames + 1)];
      if phones[ch].bridgeFrames == 2 && !phones[ch].admitted {
        var n := AdmittedCount(phones);
        assert Admitted(phones) == Admitted(old(phones));
        if n < maxAdmitted {
          phones := phones[ch := phones[ch].(admitted := true)];
        } else {
          overCap := true;
        }
      }
      p := Some(phones[ch]);
    }

    /** `current`: the relay still routes this session id to this attachment. */
    method VouchFor(ch: Channel, token: string, current: bool)
      modifies this`phones
      ensures phones == Vouch(old(phones), ch, token, current)
    {
      if !SixteenByteToken(token) || !current || ch !in phones {
        return;
      }
      var p := phones[ch];
      if p.admitted || p.bridgeFrames != 0 || p.vouched || p.token != token {
        return;
      }
      phones := phones[ch := p.(vouched := true)];
    }

    method ClosePhone(ch: Channel) returns (closed: Option<PhoneView>)
      modifies this`phones
      ensures phones == Remove(old(phones), ch)
      ensures closed == if ch in old(phones) then Some(old(phones)[ch]) else None
    {
      closed := if ch in phones then Some(phones[ch]) else None;
      phones := phones - {ch};
    }

    method ClosePhoneFromBridge(ch: Channel, token: string) returns (closed: Option<PhoneView>)
      modifies this`phones
      ensures phones == CloseFromBridge(old(phones), ch, token)
      ensures closed == if phones == old(phones) then None else Some(old(phones)[ch])
    {
      if ch !in phones || (token != "" && phones[ch].token != token) {
        return None;
      }
      closed := Some(phones[ch]);
      phones := phones - {ch};
      assert ch in old(phones) && ch !in phones;
    }

    /** The admission timer of the phone that was given channel `ch` with
        `token`; by now the channel may serve another. */
    method ClosePhoneIfPending(ch: Channel, token: string)
      modifies this`phones
      ensures phones == CloseIfPending(old(phones), ch, token)
    {
      if ch !in phones || phones[ch].token != token || phones[ch].admitted {
        return;
      }
      phones := phones - {ch};
    }

    /** The connection of that phone ends. */
    method LeavePhone(ch: Channel, token: string)
      modifies this`phones
      ensures phones == Leave(old(phones), ch, token)
    {
      if ch in phones && phones[ch].token == token {
        phones := phones - {ch};
      }
    }

    /** The bridge went away. */
    method CloseAllPhones() returns (closed: Phones)
      modifies this`phones
      ensures phones == map[] && closed == old(phones)
    {
      closed := phones;
      phones := map[];
    }
  }

  /** One more number tried. */
  lemma StepExtendsTried(ph: Phones, first: Channel, c: Channel)
    requires first != 0 && c != 0 && |ph| < 0xFFFF
    requires c in ph && Tried(first, c) <= ph.Keys
    ensures Tried(first, After(c)) == Tried(first, c) + {c} && c !in Tried(first, c)
  {
    TriedMembers(first, c);
    TriedMembers(first, After(c));
    if After(c) == first {
      assert Tried(first, c) + {c} <= ph.Keys;
      SearchComesRound(ph, first);
      RangeMembers(first, 0x1_0000);
      RangeMembers(1, first);
      forall n | n in Range(first, 0x1_0000) + Range(1, first) ensures n in ph {
        assert n in Tried(first, c) + {c};
      }
      assert false;
    }
  }

  lemma RangeMembers(lo: nat, hi: nat)
    requires lo <= hi <= 0x1_0000
    ensures forall n: Channel :: n in Range(lo, hi) <==> lo <= n < hi
  {
    forall n: Channel ensures n in Range(lo, hi) <==> lo <= n < hi {
      assert Within(n, lo, hi) <==> lo <= n < hi;
    }
  }

  lemma TriedMembers(first: Channel, c: Channel)
    requires first != 0 && c != 0
    ensures forall n: Channel :: n in Tried(first, c) <==>
              if first <= c then first <= n < c else first <= n || 1 <= n < c
  {
    if first <= c {
      RangeMembers(first, c);
    } else {
      RangeMembers(first, 0x1_0000);
      RangeMembers(1, c);
    }
  }
}
