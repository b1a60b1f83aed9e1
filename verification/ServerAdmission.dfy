/** The bookkeeping behind the steps of `Admission`: the connection table and the
    revocation generation of `internal/bridge/server.go`, and the choice of a
    pairing code in `internal/protocol/handshake.go`. */
module ServerAdmission {
  import A = Admission
  import P = PairingCodes

  type ConnId = A.ConnId
  type DeviceId = A.DeviceId

  const NO_DEVICE: DeviceId := ""
  const MAX_PUBLISH_ATTEMPTS: nat := A.MAX_PUBLISH_ATTEMPTS

  datatype Verdict = Published | Untrusted | KeptChanging

  /** What `publishAdmission` comes to from attempt `k` on.  `g` is the server's
      generation before the attempt, `moves[k]` how often revocations advance it
      before the comparison, `trusts[k]` what the store then answers. */
  function Outcome(captured: nat, g: nat, moves: seq<nat>, trusts: seq<bool>, k: nat): Verdict
    requires k <= MAX_PUBLISH_ATTEMPTS <= |moves| && |moves| == |trusts|
    decreases MAX_PUBLISH_ATTEMPTS - k
  {
    if k == MAX_PUBLISH_ATTEMPTS then KeptChanging
    else if g + moves[k] == captured then Published
    else if !trusts[k] then Untrusted
    else Outcome(g + moves[k], g + moves[k], moves, trusts, k + 1)
  }

  /** Attempt `k` finds the generation it has last seen. */
  predicate Quiet(captured: nat, g: nat, moves: seq<nat>, k: nat)
    requires k < |moves|
  {
    if k == 0 then g + moves[0] == captured else moves[k] == 0
  }

  /** Attempt `k` is reached: each before it was disturbed, and each recheck
      found the device trusted. */
  ghost predicate Reaches(captured: nat, g: nat, moves: seq<nat>, trusts: seq<bool>, k: nat)
    requires k <= |moves| && |moves| == |trusts|
  {
    forall j: nat :: j < k ==> !Quiet(captured, g, moves, j) && trusts[j]
  }

  lemma {:induction false} OutcomeFrom(
    captured: nat, g: nat, moves: seq<nat>, trusts: seq<bool>, k: nat, seen: nat, now: nat)
    requires k <= MAX_PUBLISH_ATTEMPTS <= |moves| && |moves| == |trusts|
    requires if k == 0 then seen == captured && now == g else seen == now
    ensures Outcome(seen, now, moves, trusts, k) == Published <==>
      exists n: nat :: k <= n < MAX_PUBLISH_ATTEMPTS && Quiet(captured, g, moves, n)
        && forall j: nat :: k <= j < n ==> !Quiet(captured, g, moves, j) && trusts[j]
    decreases MAX_PUBLISH_ATTEMPTS - k
  {
    if k < MAX_PUBLISH_ATTEMPTS {
      assert Quiet(captured, g, moves, k) <==> now + moves[k] == seen;
      if !Quiet(captured, g, moves, k) && trusts[k] {
        OutcomeFrom(captured, g, moves, trusts, k + 1, now + moves[k], now + moves[k]);
      }
    }
  }

  /** A connection is published exactly when one of the three attempts is
      undisturbed, every recheck before it having found the device trusted. */
  lemma PublishedExactlyWhen(captured: nat, g: nat, moves: seq<nat>, trusts: seq<bool>)
    requires MAX_PUBLISH_ATTEMPTS <= |moves| && |moves| == |trusts|
    ensures Outcome(captured, g, moves, trusts, 0) == Published <==>
      exists n: nat ::
        n < MAX_PUBLISH_ATTEMPTS && Quiet(captured, g, moves, n) && Reaches(captured, g, moves, trusts, n)
  {
    OutcomeFrom(captured, g, moves, trusts, 0, captured, g);
    if Outcome(captured, g, moves, trusts, 0) == Published {
      var n: nat :| n < MAX_PUBLISH_ATTEMPTS && Quiet(captured, g, moves, n)
        && forall j: nat :: 0 <= j < n ==> !Quiet(captured, g, moves, j) && trusts[j];
      assert Reaches(captured, g, moves, trusts, n);
    }
  }

  lemma {:induction false} RefusedFrom(
    captured: nat, g: nat, moves: seq<nat>, trusts: seq<bool>, k: nat, seen: nat, now: nat)
    requires k <= MAX_PUBLISH_ATTEMPTS <= |moves| && |moves| == |trusts|
    requires if k == 0 then seen == captured && now == g else seen == now
    ensures Outcome(seen, now, moves, trusts, k) == Untrusted <==>
      exists n: nat :: k <= n < MAX_PUBLISH_ATTEMPTS && !Quiet(captured, g, moves, n) && !trusts[n]
        && forall j: nat :: k <= j < n ==> !Quiet(captured, g, moves, j) && trusts[j]
    decreases MAX_PUBLISH_ATTEMPTS - k
  {
    if k < MAX_PUBLISH_ATTEMPTS {
      assert Quiet(captured, g, moves, k) <==> now + moves[k] == seen;
      if !Quiet(captured, g, moves, k) && trusts[k] {
        RefusedFrom(captured, g, moves, trusts, k + 1, now + moves[k], now + moves[k]);
      }
    }
  }

  /** It is refused as untrusted exactly when the recheck after some disturbed
      attempt, the first to fail, finds the device gone; and gives up exactly when
      all three attempts were disturbed although the device stayed trusted. */
  lemma RefusedExactlyWhen(captured: nat, g: nat, moves: seq<nat>, trusts: seq<bool>)
    requires MAX_PUBLISH_ATTEMPTS <= |moves| && |moves| == |trusts|
    ensures Outcome(captured, g, moves, trusts, 0) == Untrusted <==>
      exists n: nat ::
        && n < MAX_PUBLISH_ATTEMPTS && !Quiet(captured, g, moves, n) && !trusts[n]
        && Reaches(captured, g, moves, trusts, n)
    ensures Outcome(captured, g, moves, trusts, 0) == KeptChanging <==>
      Reaches(captured, g, moves, trusts, MAX_PUBLISH_ATTEMPTS)
  {
    RefusedFrom(captured, g, moves, trusts, 0, captured, g);
    PublishedExactlyWhen(captured, g, moves, trusts);
    if Outcome(captured, g, moves, trusts, 0) == Untrusted {
      var n: nat :| n < MAX_PUBLISH_ATTEMPTS && !Quiet(captured, g, moves, n) && !trusts[n]
        && forall j: nat :: 0 <= j < n ==> !Quiet(captured, g, moves, j) && trusts[j];
      assert Reaches(captured, g, moves, trusts, n);
    }
    if Outcome(captured, g, moves, trusts, 0) == KeptChanging {
      AllDisturbed(captured, g, moves, trusts, MAX_PUBLISH_ATTEMPTS);
    }
  }

  lemma {:induction false} AllDisturbed(captured: nat, g: nat, moves: seq<nat>, trusts: seq<bool>, k: nat)
    requires k <= MAX_PUBLISH_ATTEMPTS <= |moves| && |moves| == |trusts|
    requires Outcome(captured, g, moves, trusts, 0) == KeptChanging
    ensures Reaches(captured, g, moves, trusts, k)
  {
    if k > 0 {
      AllDisturbed(captured, g, moves, trusts, k - 1);
      PublishedExactlyWhen(captured, g, moves, trusts);
      RefusedFrom(captured, g, moves, trusts, 0, captured, g);
      assert !Quiet(captured, g, moves, k - 1);
    }
  }

  /** What the call comes to once attempt `k` has found the generation moved to `g`. */
  function AfterRecheck(g: nat, moves: seq<nat>, trusts: seq<bool>, k: nat): Verdict
    requires k < MAX_PUBLISH_ATTEMPTS <= |moves| && |moves| == |trusts|
  {
    if trusts[k] then Outcome(g, g, moves, trusts, k + 1) else Untrusted
  }

  /** A turn of the loop is two steps of `Admission`.  The first compares the
      generation under the lock and publishes if it has not moved ... */
  lemma ComparingIsAStep(s: A.State, s': A.State, c: ConnId, now: nat, moves: seq<nat>, trusts: seq<bool>)
    requires MAX_PUBLISH_ATTEMPTS <= |moves| && |moves| == |trusts|
    requires c in s.conns && s.conns[c].phase.Publishing? && s.conns[c].phase.attempt < MAX_PUBLISH_ATTEMPTS
    requires A.Next(s, A.TryPublish(c), s') && s.generation == now + moves[s.conns[c].phase.attempt]
    ensures c in s'.conns && (s'.conns[c].phase.Published? || s'.conns[c].phase.Rechecking?)
    ensures var p, p' := s.conns[c].phase, s'.conns[c].phase;
      Outcome(p.g, now, moves, trusts, p.attempt)
        == if p'.Published? then Published else AfterRecheck(p'.g, moves, trusts, p.attempt)
    ensures s'.conns[c].phase.Rechecking? ==> s'.conns[c].phase == A.Rechecking(s.generation, s.conns[c].phase.attempt)
  {}

  /** ... and the second asks the store again, and goes on or gives up. */
  lemma RecheckingIsAStep(s: A.State, s': A.State, c: ConnId, moves: seq<nat>, trusts: seq<bool>)
    requires MAX_PUBLISH_ATTEMPTS <= |moves| && |moves| == |trusts|
    requires c in s.conns && s.conns[c].phase.Rechecking? && s.conns[c].phase.attempt < MAX_PUBLISH_ATTEMPTS
    requires trusts[s.conns[c].phase.attempt] == (s.conns[c].phone in s.trusted)
    requires A.Next(s, if s.conns[c].phone in s.trusted then A.Recheck(c) else A.Refuse(c), s')
    ensures c in s'.conns && (s'.conns[c].phase.Publishing? || s'.conns[c].phase == A.Rejected)
    ensures var p, p' := s.conns[c].phase, s'.conns[c].phase;
      && (p'.Publishing? ==> p'.g == p.g && p'.attempt == p.attempt + 1 < MAX_PUBLISH_ATTEMPTS)
      && AfterRecheck(p.g, moves, trusts, p.attempt)
           == if p'.Publishing? then Outcome(p'.g, p.g, moves, trusts, p'.attempt)
              else if trusts[p.attempt] then KeptChanging else Untrusted
  {}

  class Server {
    var conns: map<ConnId, DeviceId>         // tracked connections, and the device each has published
    var generation: nat
    var closed: set<ConnId>                  // connections told to close

    constructor ()
      ensures conns == map[] && generation == 0 && closed == {}
    {
      conns, generation, closed := map[], 0, {};
    }

    method Track(c: ConnId)
      modifies this`conns
      ensures conns == old(conns)[c := NO_DEVICE]
    {
      conns := conns[c := NO_DEVICE];
    }

    method Untrack(c: ConnId)
      modifies this`conns
      ensures conns == old(conns) - {c}
    {
      conns := conns - {c};
    }

    /** The generation may move under the loop, by `moves`; the device is
        published under the lock that compared it. */
    method PublishAdmission(c: ConnId, device: DeviceId, captured: nat, moves: seq<nat>, trusts: seq<bool>)
        returns (verdict: Verdict)
      requires MAX_PUBLISH_ATTEMPTS <= |moves| && |moves| == |trusts| && c in conns
      modifies this`conns, this`generation
      ensures verdict == Outcome(captured, old(generation), moves, trusts, 0)
      ensures conns == if verdict == Published then old(conns)[c := device] else old(conns)
    {
      var seen := captured;
      for attempt := 0 to MAX_PUBLISH_ATTEMPTS
        invariant conns == old(conns)
        invariant Outcome(seen, generation, moves, trusts, attempt)
               == Outcome(captured, old(generation), moves, trusts, 0)
      {
        generation := generation + moves[attempt];
        if generation == seen {
          conns := conns[c := device];
          return Published;
        }
        seen := generation;
        if !trusts[attempt] {
          return Untrusted;
        }
      }
      return KeptChanging;
    }

    /** `removed` says that the store took the device off disk, with or without a
        diagnostic after the commit.  Only then does anything happen: the
        generation moves on, and every connection that has published the device
        is closed. */
    method Revoke(device: DeviceId, removed: bool)
      modifies this`generation, this`closed
      ensures generation == old(generation) + if removed then 1 else 0
      ensures forall c :: c in closed <==> c in old(closed) || (removed && c in conns && conns[c] == device)
    {
      if !removed {
        return;
      }
      generation := generation + 1;
      var matching, left := {}, conns.Keys;
      while left != {}
        invariant left <= conns.Keys
        invariant forall c :: c in matching <==> c in conns.Keys - left && conns[c] == device
        decreases |left|
      {
        var c :| c in left;
        if conns[c] == device {
          matching := matching + {c};
        }
        left := left - {c};
      }
      closed := closed + matching;
    }
  }

  // ---------- A revocation is its steps ----------

  ghost predicate Leads(s: A.State, actions: seq<A.Action>, s': A.State)
    decreases |actions|
  {
    if actions == [] then s' == s else exists mid :: A.Next(s, actions[0], mid) && Leads(mid, actions[1..], s')
  }

  lemma StepThen(s: A.State, a: A.Action, mid: A.State, actions: seq<A.Action>, s': A.State)
    requires A.Next(s, a, mid) && Leads(mid, actions, s')
    ensures Leads(s, [a] + actions, s')
  {
    assert ([a] + actions)[1..] == actions;
  }

  /** `after` is `before` with exactly the connections of `todo` told to close. */
  ghost predicate Told(before: map<ConnId, A.Conn>, todo: set<ConnId>, after: map<ConnId, A.Conn>) {
    && after.Keys == before.Keys
    && forall c :: c in before ==> after[c] == before[c].(closing := before[c].closing || c in todo)
  }

  lemma ToldOneByOne(before: map<ConnId, A.Conn>, todo: set<ConnId>, c: ConnId, after: map<ConnId, A.Conn>)
    requires c in todo && c in before && Told(before[c := before[c].(closing := true)], todo - {c}, after)
    ensures Told(before, todo, after)
  {}

  function AfterClose(s: A.State, r: A.RevokeId, c: ConnId): A.State
    requires r in s.revocations && s.revocations[r].Closing? && c in s.conns
  {
    s.(clock := s.clock + 1, conns := s.conns[c := s.conns[c].(closing := true)],
       revocations := s.revocations[r := s.revocations[r].(todo := s.revocations[r].todo - {c})])
  }

  lemma CloseIsAStep(s: A.State, r: A.RevokeId, c: ConnId)
    requires r in s.revocations && s.revocations[r].Closing? && c in s.revocations[r].todo && c in s.conns
    ensures A.Next(s, A.CloseNext(r, c), AfterClose(s, r, c))
  {}

  lemma ReturnIsAStep(s: A.State, r: A.RevokeId) returns (s': A.State)
    requires r in s.revocations && s.revocations[r].Closing? && s.revocations[r].todo == {}
    ensures A.Next(s, A.Return(r), s')
    ensures s'.conns == s.conns && s'.generation == s.generation
    ensures r in s'.revocations && s'.revocations[r].Returned?
  {
    s' := s.(clock := s.clock + 1,
             revocations := s.revocations[r := A.Returned(s.revocations[r].device, s.revocations[r].at)]);
  }

  lemma {:induction false} ClosingIsItsSteps(s: A.State, r: A.RevokeId) returns (actions: seq<A.Action>, s': A.State)
    requires r in s.revocations && s.revocations[r].Closing? && s.revocations[r].todo <= s.conns.Keys
    ensures Leads(s, actions, s') && s'.generation == s.generation
    ensures r in s'.revocations && s'.revocations[r].Returned?
    ensures Told(s.conns, s.revocations[r].todo, s'.conns)
    decreases s.revocations[r].todo
  {
    var todo := s.revocations[r].todo;
    if todo == {} {
      s' := ReturnIsAStep(s, r);
      StepThen(s, A.Return(r), s', [], s');
      actions := [A.Return(r)] + [];
    } else {
      var c :| c in todo;
      var mid := AfterClose(s, r, c);
      CloseIsAStep(s, r, c);
      var rest;
      rest, s' := ClosingIsItsSteps(mid, r);
      ToldOneByOne(s.conns, todo, c, s'.conns);
      StepThen(s, A.CloseNext(r, c), mid, rest, s');
      actions := [A.CloseNext(r, c)] + rest;
    }
  }

  /** `Server.Revoke`, once the device is off disk, is a run: the generation moves
      on by one, and exactly the connections that have published the device are
      told to close. */
  lemma RevokeIsItsSteps(s: A.State, r: A.RevokeId) returns (actions: seq<A.Action>, s': A.State)
    requires r in s.revocations && s.revocations[r].Removed?
    ensures Leads(s, actions, s') && s'.generation == s.generation + 1
    ensures r in s'.revocations && s'.revocations[r].Returned?
    ensures Told(s.conns, A.Matching(s.conns, s.revocations[r].device), s'.conns)
  {
    var rev := s.revocations[r];
    var closing := A.Closing(rev.device, rev.at, A.Matching(s.conns, rev.device));
    var advanced :=
      s.(clock := s.clock + 1, generation := s.generation + 1, revocations := s.revocations[r := closing]);
    assert A.Next(s, A.Advance(r), advanced);
    var rest;
    rest, s' := ClosingIsItsSteps(advanced, r);
    StepThen(s, A.Advance(r), advanced, rest, s');
    actions := [A.Advance(r)] + rest;
  }

  // ---------- An undisturbed handshake goes through ----------

  /** `s` with the connection `c` in another phase, one step later. */
  function InPhase(s: A.State, c: ConnId, phase: A.Phase): A.State
    requires c in s.conns
  {
    s.(clock := s.clock + 1, conns := s.conns[c := s.conns[c].(phase := phase)])
  }

  function Connected(s: A.State, c: ConnId, phone: DeviceId): A.State {
    s.(clock := s.clock + 1, conns := s.conns[c := A.Conn(phone, A.Greeting, false)])
  }

  function Listed(s: A.State, c: ConnId, now: int): A.State
    requires c in s.conns && s.conns[c].phase.Captured?
  {
    var live := P.Live(s.codes, now);
    InPhase(s, c, A.ListedCodes(s.conns[c].phase.g, live.Keys)).(codes := live)
  }

  /** The greeting: connecting, capturing the generation, listing the codes. */
  lemma GreetingLeads(
    s: A.State, c: ConnId, phone: DeviceId, now: int, rest: seq<A.Action>, s': A.State)
    requires c !in s.conns
    requires var captured := InPhase(Connected(s, c, phone), c, A.Captured(s.generation));
      Leads(Listed(captured, c, now), rest, s')
    ensures Leads(s, [A.Connect(c, phone)] + ([A.Capture(c)] + ([A.ListCodes(c, now)] + rest)), s')
  {
    var connected := Connected(s, c, phone);
    var captured := InPhase(connected, c, A.Captured(s.generation));
    var listed := Listed(captured, c, now);
    assert A.Next(captured, A.ListCodes(c, now), listed);
    StepThen(captured, A.ListCodes(c, now), listed, rest, s');
    assert A.Next(connected, A.Capture(c), captured);
    StepThen(connected, A.Capture(c), captured, [A.ListCodes(c, now)] + rest, s');
    assert A.Next(s, A.Connect(c, phone), connected);
    StepThen(s, A.Connect(c, phone), connected, [A.Capture(c)] + ([A.ListCodes(c, now)] + rest), s');
  }

  lemma PublishLeads(s: A.State, c: ConnId) returns (s': A.State)
    requires c in s.conns && s.conns[c].phase.Publishing? && s.conns[c].phase.g == s.generation
    ensures s' == InPhase(s, c, A.Published(s.conns[c].phase.record))
    ensures Leads(s, [A.TryPublish(c)] + [], s')
  {
    s' := InPhase(s, c, A.Published(s.conns[c].phase.record));
    assert A.Next(s, A.TryPublish(c), s');
    StepThen(s, A.TryPublish(c), s', [], s');
  }

  /** A phone on disk is published by a handshake that nothing disturbs, on the
      record it has. */
  lemma TrustedPhoneGetsIn(s: A.State, c: ConnId, phone: DeviceId, now: int)
      returns (actions: seq<A.Action>, s': A.State)
    requires c !in s.conns && phone in s.trusted
    ensures Leads(s, actions, s') && s'.trusted == s.trusted
    ensures c in s'.conns && s'.conns[c] == A.Conn(phone, A.Published(s.trusted[phone]), false)
  {
    var captured := InPhase(Connected(s, c, phone), c, A.Captured(s.generation));
    var listed := Listed(captured, c, now);
    var found := InPhase(listed, c, A.Publishing(s.generation, 0, s.trusted[phone]));
    s' := PublishLeads(found, c);
    assert A.Next(listed, A.FindTrusted(c), found);
    StepThen(listed, A.FindTrusted(c), found, [A.TryPublish(c)] + [], s');
    var rest := [A.FindTrusted(c)] + ([A.TryPublish(c)] + []);
    GreetingLeads(s, c, phone, now, rest, s');
    actions := [A.Connect(c, phone)] + ([A.Capture(c)] + ([A.ListCodes(c, now)] + rest));
  }

  lemma InsertionLeads(s: A.State, c: ConnId) returns (s': A.State)
    requires c in s.conns && s.conns[c].phase.Spent? && s.conns[c].phase.g == s.generation
    requires s.conns[c].phone !in s.trusted
    ensures Leads(s, [A.AddTrusted(c)] + ([A.TryPublish(c)] + []), s')
    ensures s'.trusted == s.trusted[s.conns[c].phone := s.clock] && s'.codes == s.codes
    ensures s'.conns == s.conns[c := s.conns[c].(phase := A.Published(s.clock))]
  {
    var phone := s.conns[c].phone;
    var added := InPhase(s, c, A.Publishing(s.generation, 0, s.clock)).(
      trusted := s.trusted[phone := s.clock],
      inserted := s.inserted[s.clock := A.Pairing(phone, s.conns[c].phase.code)]);
    s' := PublishLeads(added, c);
    assert A.Next(s, A.AddTrusted(c), added);
    StepThen(s, A.AddTrusted(c), added, [A.TryPublish(c)] + [], s');
  }

  lemma PairingLeads(s: A.State, c: ConnId, code: P.Code, now: int)
      returns (actions: seq<A.Action>, s': A.State)
    requires c in s.conns && s.conns[c].phase.ListedCodes? && code in s.conns[c].phase.listed
    requires s.conns[c].phase.g == s.generation && code in P.Live(s.codes, now) && s.conns[c].phone !in s.trusted
    ensures Leads(s, actions, s')
    ensures s'.trusted.Keys == s.trusted.Keys + {s.conns[c].phone} && s'.codes == P.Live(s.codes, now) - {code}
    ensures c in s'.conns && s'.conns[c].phone == s.conns[c].phone && s'.conns[c].closing == s.conns[c].closing
    ensures s'.conns[c].phase == A.Published(s'.trusted[s.conns[c].phone])
  {
    var phone, g := s.conns[c].phone, s.generation;
    var proved := InPhase(s, c, A.Proved(g, code));
    var spent := InPhase(proved, c, A.Spent(g, code)).(codes := P.Live(s.codes, now) - {code});
    s' := InsertionLeads(spent, c);
    var last := [A.TryPublish(c)] + [];
    assert A.Next(proved, A.ConsumeCode(c, now), spent);
    StepThen(proved, A.ConsumeCode(c, now), spent, [A.AddTrusted(c)] + last, s');
    assert A.Next(s, A.AcceptProof(c, code), proved);
    StepThen(s, A.AcceptProof(c, code), proved, [A.ConsumeCode(c, now)] + ([A.AddTrusted(c)] + last), s');
    actions := [A.AcceptProof(c, code)] + ([A.ConsumeCode(c, now)] + ([A.AddTrusted(c)] + last));
  }

  /** A new phone that proves an outstanding code is paired and published by a
      handshake that nothing disturbs, and the code is spent. */
  lemma NewPhoneGetsIn(s: A.State, c: ConnId, phone: DeviceId, code: P.Code, now: int)
      returns (actions: seq<A.Action>, s': A.State)
    requires c !in s.conns && phone !in s.trusted && code in P.Live(s.codes, now)
    ensures Leads(s, actions, s')
    ensures s'.trusted.Keys == s.trusted.Keys + {phone} && code !in s'.codes
    ensures c in s'.conns && s'.conns[c] == A.Conn(phone, A.Published(s'.trusted[phone]), false)
  {
    var captured := InPhase(Connected(s, c, phone), c, A.Captured(s.generation));
    var listed := Listed(captured, c, now);
    var rest;
    rest, s' := PairingLeads(listed, c, code, now);
    GreetingLeads(s, c, phone, now, rest, s');
    actions := [A.Connect(c, phone)] + ([A.Capture(c)] + ([A.ListCodes(c, now)] + rest));
  }

  // ---------- The phone's Confirm ----------

  /** The Confirm as the bridge sees it: it opens and parses, its signature
      verifies, its proof if any. */
  datatype Confirm = Confirm(wellFormed: bool, signed: bool, proof: string)

  const PROOF_SIZE := 32

  datatype Decision = Malformed | BadSignature | Trusted | Paired(code: nat) | Refused

  /** `expected[i]` is the proof that outstanding code `i` calls for. */
  method Finish(c: Confirm, trusted: bool, expected: seq<string>) returns (d: Decision)
    ensures d == Malformed <==> !c.wellFormed
    ensures d == BadSignature <==> c.wellFormed && !c.signed
    ensures d == Trusted <==> c.wellFormed && c.signed && trusted
    ensures d.Paired? <==> c.wellFormed && c.signed && !trusted && |c.proof| == PROOF_SIZE && c.proof in expected
    ensures d.Paired? ==> d.code < |expected| && expected[d.code] == c.proof && c.proof !in expected[..d.code]
  {
    if !c.wellFormed {
      return Malformed;
    }
    if !c.signed {
      return BadSignature;
    }
    if trusted {
      return Trusted;
    }
    if |c.proof| == PROOF_SIZE {
      for i := 0 to |expected|
        invariant c.proof !in expected[..i]
      {
        if expected[i] == c.proof {
          return Paired(i);
        }
        assert expected[..i + 1] == expected[..i] + [expected[i]];
      }
      assert expected[..|expected|] == expected;
    }
    return Refused;
  }
}
