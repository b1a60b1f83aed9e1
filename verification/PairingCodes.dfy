/** The outstanding one-time pairing codes, `internal/bridge/pairing.go`. */
module PairingCodes {

  type Code = string

  /** The codes that have not expired at `now`. */
  function Live(codes: map<Code, int>, now: int): map<Code, int> {
    map c | c in codes && now < codes[c] :: codes[c]
  }

  class Pairings {
    var codes: map<Code, int>      // code -> expiry

    constructor ()
      ensures codes == map[]
    {
      codes := map[];
    }

    /** `code` is drawn at random by the caller. */
    method Issue(code: Code, now: int, ttl: int) returns (expires: int)
      modifies this
      ensures expires == now + ttl && codes == old(codes)[code := expires]
    {
      expires := now + ttl;
      codes := codes[code := expires];
    }

    /** Visits the codes in whatever order they come, dropping the expired. */
    method Outstanding(now: int) returns (out: set<Code>)
      modifies this
      ensures codes == Live(old(codes), now) && out == codes.Keys
    {
      out := {};
      var todo := codes.Keys;
      while todo != {}
        invariant todo <= old(codes).Keys
        invariant codes == Pruned(old(codes), todo, now)
        invariant out == Live(old(codes), now).Keys - todo
        decreases todo
      {
        var c :| c in todo;
        todo := todo - {c};
        if codes[c] <= now {
          codes := codes - {c};
        } else {
          out := out + {c};
        }
      }
    }

    /** Checks that `code` is outstanding and retires it, in one locked pass. */
    method Consume(code: Code, now: int) returns (consumed: bool)
      modifies this
      ensures consumed <==> code in Live(old(codes), now)
      ensures codes == Live(old(codes), now) - {code}
    {
      consumed := false;
      var todo := codes.Keys;
      while todo != {}
        invariant todo <= old(codes).Keys
        invariant codes == Pruned(old(codes), todo, now) - (if code in todo then {} else {code})
        invariant consumed <==> code in Live(old(codes), now) && code !in todo
        decreases todo
      {
        var c :| c in todo;
        todo := todo - {c};
        if codes[c] <= now {
          codes := codes - {c};
        } else if c == code {
          codes := codes - {c};
          consumed := true;
        }
      }
    }
  }

  /** A pass that has `todo` still to visit. */
  ghost function Pruned(codes: map<Code, int>, todo: set<Code>, now: int): map<Code, int> {
    map c | c in codes && (c in todo || now < codes[c]) :: codes[c]
  }

  datatype Event = Issued(code: Code, now: int, ttl: int) | Listed(now: int) | Consumption(code: Code, now: int)

  /** The codes after the events. */
  function After(events: seq<Event>): map<Code, int> {
    if events == [] then map[]
    else
      var before := After(events[..|events| - 1]);
      match events[|events| - 1]
      case Issued(code, now, ttl) => before[code := now + ttl]
      case Listed(now) => Live(before, now)
      case Consumption(code, now) => Live(before, now) - {code}
  }

  predicate Succeeds(events: seq<Event>, i: nat)
    requires i < |events|
  {
    events[i].Consumption? && events[i].code in Live(After(events[..i]), events[i].now)
  }

  lemma {:induction false} GoneUntilReissued(events: seq<Event>, i: nat, j: nat, code: Code)
    requires i <= j <= |events| && code !in After(events[..i])
    requires forall k :: i <= k < j && events[k].Issued? ==> events[k].code != code
    ensures code !in After(events[..j])
    decreases j
  {
    if i < j {
      GoneUntilReissued(events, i, j - 1, code);
      assert events[..j][..j - 1] == events[..j - 1];
    }
  }

  /** A code is consumed at most once per issue, whatever consumptions, listings
      and other issues come between. */
  lemma ConsumedAtMostOnce(events: seq<Event>, i: nat, j: nat)
    requires i < j < |events| && Succeeds(events, i) && Succeeds(events, j)
    requires events[i].code == events[j].code
    ensures exists k :: i < k < j && events[k].Issued? && events[k].code == events[i].code
  {
    assert events[..i + 1][..i] == events[..i];
    if forall k :: i < k < j && events[k].Issued? ==> events[k].code != events[i].code {
      GoneUntilReissued(events, i + 1, j, events[i].code);
    }
  }

  ghost predicate IssueOf(events: seq<Event>, k: nat, code: Code, expires: int) {
    k < |events| && events[k].Issued? && events[k].code == code && events[k].now + events[k].ttl == expires
  }

  /** Every outstanding code was issued, and expires when its issue said. */
  lemma {:induction false} OutstandingWasIssued(events: seq<Event>, code: Code)
    requires code in After(events)
    ensures exists k: nat :: IssueOf(events, k, code, After(events)[code])
  {
    var n := |events| - 1;
    if !(events[n].Issued? && events[n].code == code) {
      OutstandingWasIssued(events[..n], code);
      var k: nat :| IssueOf(events[..n], k, code, After(events[..n])[code]);
      assert IssueOf(events, k, code, After(events)[code]);
    } else {
      assert IssueOf(events, n, code, After(events)[code]);
    }
  }

  /** A code is only consumed before the expiry of an earlier issue of it. */
  lemma ConsumedBeforeExpiry(events: seq<Event>, i: nat)
    requires i < |events| && Succeeds(events, i)
    ensures exists k :: 0 <= k < i && events[k].Issued? && events[k].code == events[i].code
                        && events[i].now < events[k].now + events[k].ttl
  {
    OutstandingWasIssued(events[..i], events[i].code);
    var k: nat :| IssueOf(events[..i], k, events[i].code, After(events[..i])[events[i].code]);
    assert events[k] == events[..i][k];
  }

  /** The event leaves a code that expires at `expires` outstanding. */
  predicate Spares(e: Event, code: Code, expires: int) {
    match e
    case Issued(c, _, _) => c != code
    case Listed(now) => now < expires
    case Consumption(c, now) => c != code && now < expires
  }

  /** Event `k` issued the code and no later one retired it, by consuming it,
      issuing it anew or looking at the codes once it had expired. */
  ghost predicate StillOut(events: seq<Event>, k: nat, code: Code) {
    && k < |events| && events[k].Issued? && events[k].code == code
    && forall j :: k < j < |events| ==> Spares(events[j], code, events[k].now + events[k].ttl)
  }

  /** A code is outstanding if and only if some issue of it still stands, with the
      expiry of that issue. */
  lemma {:induction false} OutstandingExactlyWhen(events: seq<Event>, code: Code)
    ensures code in After(events) <==> exists k: nat :: StillOut(events, k, code)
    ensures forall k: nat :: StillOut(events, k, code) ==>
              code in After(events) && After(events)[code] == events[k].now + events[k].ttl
  {
    if events != [] {
      var n := |events| - 1;
      var before := events[..n];
      OutstandingExactlyWhen(before, code);
      forall k: nat | StillOut(events, k, code)
        ensures code in After(events) && After(events)[code] == events[k].now + events[k].ttl
      {
        if k < n {
          assert StillOut(before, k, code);
          assert Spares(events[n], code, events[k].now + events[k].ttl);
        }
      }
      if code in After(events) {
        if events[n].Issued? && events[n].code == code {
          assert StillOut(events, n, code);
        } else {
          var k: nat :| StillOut(before, k, code);
          assert StillOut(events, k, code);
        }
      }
    }
  }

  /** A consumption succeeds if and only if an issue of the code still stands and
      has not expired. */
  lemma SucceedsExactlyWhen(events: seq<Event>, i: nat)
    requires i < |events| && events[i].Consumption?
    ensures Succeeds(events, i) <==>
              exists k: nat :: StillOut(events[..i], k, events[i].code) && events[i].now < events[k].now + events[k].ttl
  {
    OutstandingExactlyWhen(events[..i], events[i].code);
    if Succeeds(events, i) {
      var k: nat :| StillOut(events[..i], k, events[i].code);
      assert events[..i][k] == events[k];
    }
  }

  /** So, while the clock does not go back, a code that was issued, has not expired
      and was neither consumed nor issued again is accepted, whatever other codes
      were listed, issued and consumed in between. */
  lemma GoodCodeSucceeds(events: seq<Event>, k: nat, i: nat)
    requires k < i < |events| && events[k].Issued? && events[i].Consumption? && events[i].code == events[k].code
    requires events[i].now < events[k].now + events[k].ttl
    requires forall j :: k < j < i ==> events[j].now <= events[i].now
    requires forall j :: k < j < i && !events[j].Listed? ==> events[j].code != events[k].code
    ensures Succeeds(events, i)
  {
    assert StillOut(events[..i], k, events[i].code);
    SucceedsExactlyWhen(events, i);
  }
}
