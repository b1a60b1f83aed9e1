/** Any number of goroutines taking and giving back slots at the same time:
    `internal/bridge/limits.go`, one step per channel operation. */
module LeaseRuns {
  import opened WorkPools

  type LeaseId = nat

  datatype Stage =
    | Acquiring            // inside acquirePools
    | RollingBack          // a refusal inside acquirePools is giving back what it took
    | Refused
    | Held
    | Releasing            // inside release, with `released` set
    | Released

  /** `wanted` are the pools asked for, `taken` and `givenBack` the slots taken
      and given back so far, `pools` what the lease still lists. */
  datatype Lease =
    Lease(wanted: seq<PoolId>, stage: Stage, pools: seq<PoolId>, taken: seq<PoolId>, givenBack: seq<PoolId>)

  datatype State = State(limits: map<PoolId, nat>, filled: map<PoolId, nat>, leases: seq<Lease>)

  datatype Action =
    | Begin(wanted: seq<PoolId>)
    | Take(l: LeaseId)                       // the next pool's slot
    | GiveUp(l: LeaseId)                     // full, or a context has ended
    | Grant(l: LeaseId)
    | ReleasePool(l: LeaseId, p: PoolId)     // early, at a deadline
    | StartRelease(l: LeaseId)
    | GiveBackLast(l: LeaseId)
    | EndRelease(l: LeaseId)

  /** What a step does to a channel. */
  datatype Effect = Nothing | Fill(p: PoolId) | Drain(p: PoolId)

  predicate Enabled(lease: Lease, a: Action) {
    match a
    case Begin(_) => false
    case Take(_) => lease.stage == Acquiring && |lease.taken| < |lease.wanted|
    case GiveUp(_) => lease.stage == Acquiring
    case Grant(_) => lease.stage == Acquiring && |lease.taken| == |lease.wanted|
    case ReleasePool(_, _) => lease.stage in {Held, Released}       // the lease's mutex is free
    case StartRelease(_) => lease.stage in {Held, Released}
    case GiveBackLast(_) => lease.stage in {RollingBack, Releasing} && lease.pools != []
    case EndRelease(_) => lease.stage in {RollingBack, Releasing} && lease.pools == []
  }

  function EffectOf(lease: Lease, a: Action): Effect
    requires Enabled(lease, a)
  {
    match a
    case Take(_) => Fill(lease.wanted[|lease.taken|])
    case ReleasePool(_, p) => if lease.stage == Held && p in lease.pools then Drain(p) else Nothing
    case GiveBackLast(_) => Drain(lease.pools[|lease.pools| - 1])
    case _ => Nothing
  }

  function After(lease: Lease, a: Action): Lease
    requires Enabled(lease, a)
  {
    match a
    case Take(_) =>
      var p := lease.wanted[|lease.taken|];
      lease.(pools := lease.pools + [p], taken := lease.taken + [p])
    case GiveUp(_) => lease.(stage := RollingBack)
    case Grant(_) => lease.(stage := Held)
    case ReleasePool(_, p) =>
      if lease.stage == Held && p in lease.pools
      then lease.(pools := WithoutFirst(lease.pools, p), givenBack := lease.givenBack + [p]) else lease
    case StartRelease(_) => if lease.stage == Held then lease.(stage := Releasing) else lease
    case GiveBackLast(_) =>
      lease.(pools := lease.pools[..|lease.pools| - 1],
             givenBack := lease.givenBack + [lease.pools[|lease.pools| - 1]])
    case EndRelease(_) => lease.(stage := if lease.stage == RollingBack then Refused else Released)
    case Begin(_) => lease
  }

  /** A full channel stops `Fill`, an empty one would stop `Drain`. */
  ghost predicate Channels(limits: map<PoolId, nat>, filled: map<PoolId, nat>, e: Effect, filled': map<PoolId, nat>) {
    match e
    case Nothing => filled' == filled
    case Fill(p) => p in filled && p in limits && filled[p] < limits[p] && filled' == filled[p := filled[p] + 1]
    case Drain(p) => p in filled && 0 < filled[p] && filled' == filled[p := filled[p] - 1]
  }

  ghost predicate Next(s: State, a: Action, s': State) {
    s'.limits == s.limits &&
    match a
    case Begin(wanted) =>
      && (forall p :: p in wanted ==> p in s.limits)
      && s'.filled == s.filled && s'.leases == s.leases + [Lease(wanted, Acquiring, [], [], [])]
    case _ =>
      && a.l < |s.leases| && Enabled(s.leases[a.l], a)
      && Channels(s.limits, s.filled, EffectOf(s.leases[a.l], a), s'.filled)
      && s'.leases == s.leases[a.l := After(s.leases[a.l], a)]
  }

  ghost predicate Init(s: State) {
    s.leases == [] && s.filled.Keys == s.limits.Keys
    && forall p :: p in s.limits ==> 0 < s.limits[p] && s.filled[p] == 0
  }

  ghost predicate IsRun(states: seq<State>, actions: seq<Action>) {
    && |states| == |actions| + 1
    && Init(states[0])
    && forall i {:trigger actions[i]} :: 0 <= i < |actions| ==> Next(states[i], actions[i], states[i + 1])
  }

  // ---------- The accounting ----------

  /** The slots of pool `p` that some lease still lists. */
  function InUse(leases: seq<Lease>, p: PoolId): nat {
    if leases == [] then 0 else InUse(leases[..|leases| - 1], p) + Count(leases[|leases| - 1].pools, p)
  }

  lemma {:induction false} InUseUpdate(leases: seq<Lease>, l: LeaseId, lease: Lease, p: PoolId)
    requires l < |leases|
    ensures InUse(leases[l := lease], p) == InUse(leases, p) - Count(leases[l].pools, p) + Count(lease.pools, p)
    ensures InUse(leases, p) >= Count(leases[l].pools, p)
  {
    var rest := leases[..|leases| - 1];
    if l < |rest| {
      InUseUpdate(rest, l, lease, p);
      assert leases[l := lease][..|rest|] == rest[l := lease];
    } else {
      assert leases[l := lease][..|rest|] == rest;
    }
  }

  ghost predicate StageOk(lease: Lease) {
    && (lease.stage == Acquiring ==> lease.givenBack == [])
    && (lease.stage in {Acquiring, RollingBack, Refused} ==>
          |lease.taken| <= |lease.wanted| && lease.taken == lease.wanted[..|lease.taken|])
    && (lease.stage in {Held, Releasing, Released} ==> lease.taken == lease.wanted)
    && (lease.stage in {Refused, Released} ==> lease.pools == [])
  }

  /** Every slot a lease took is either listed or given back, exactly once. */
  ghost predicate Conserved(lease: Lease, p: PoolId) {
    Count(lease.taken, p) == Count(lease.pools, p) + Count(lease.givenBack, p)
  }

  ghost predicate LeaseOk(lease: Lease) {
    StageOk(lease) && forall p :: Conserved(lease, p)
  }

  ghost predicate Inv(s: State) {
    && s.filled.Keys == s.limits.Keys
    && (forall p :: p in s.limits ==> s.filled[p] == InUse(s.leases, p) && s.filled[p] <= s.limits[p])
    && (forall l: LeaseId :: l < |s.leases| ==> LeaseOk(s.leases[l]))
    && (forall l: LeaseId, p :: l < |s.leases| && p in s.leases[l].wanted ==> p in s.limits)
    && (forall l: LeaseId, p :: l < |s.leases| && p in s.leases[l].pools ==> p in s.limits)
  }

  lemma AfterKeepsStageOk(lease: Lease, a: Action)
    requires StageOk(lease) && Enabled(lease, a)
    ensures StageOk(After(lease, a))
  {
    if a.Take? {
      var n := |lease.taken|;
      assert lease.wanted[..n + 1] == lease.wanted[..n] + [lease.wanted[n]];
    } else if a.Grant? {
      assert lease.wanted[..|lease.wanted|] == lease.wanted;
    }
  }

  /** `after` lists one slot more than `lease` when it filled a channel, one less
      when it drained one, and remembers both. */
  ghost predicate Counts(lease: Lease, e: Effect, after: Lease, p: PoolId) {
    && Count(after.pools, p)
         == Count(lease.pools, p) + (if e == Fill(p) then 1 else 0) - (if e == Drain(p) then 1 else 0)
    && Count(after.taken, p) == Count(lease.taken, p) + (if e == Fill(p) then 1 else 0)
    && Count(after.givenBack, p) == Count(lease.givenBack, p) + (if e == Drain(p) then 1 else 0)
  }

  lemma FillCounts(lease: Lease, q: PoolId, p: PoolId)
    ensures Counts(lease, Fill(q), lease.(pools := lease.pools + [q], taken := lease.taken + [q]), p)
  {
    CountPush(lease.pools, q);
    CountPush(lease.taken, q);
  }

  lemma EarlyDrainCounts(lease: Lease, q: PoolId, p: PoolId)
    requires q in lease.pools
    ensures var after := lease.(pools := WithoutFirst(lease.pools, q), givenBack := lease.givenBack + [q]);
      Counts(lease, Drain(q), after, p)
  {
    WithoutFirstCount(lease.pools, q);
    CountPush(lease.givenBack, q);
  }

  lemma DrainCounts(lease: Lease, p: PoolId)
    requires lease.pools != []
    ensures var q := lease.pools[|lease.pools| - 1];
      Counts(lease, Drain(q), lease.(pools := lease.pools[..|lease.pools| - 1], givenBack := lease.givenBack + [q]), p)
  {
    CountPush(lease.givenBack, lease.pools[|lease.pools| - 1]);
  }

  lemma AfterChangesCount(lease: Lease, a: Action, p: PoolId)
    requires Enabled(lease, a)
    ensures Counts(lease, EffectOf(lease, a), After(lease, a), p)
  {
    match a
    case Take(_) => FillCounts(lease, lease.wanted[|lease.taken|], p);
    case ReleasePool(_, q) => if q in lease.pools { EarlyDrainCounts(lease, q, p); }
    case GiveBackLast(_) => DrainCounts(lease, p);
    case _ =>
  }

  lemma AfterKeepsLeaseOk(lease: Lease, a: Action)
    requires LeaseOk(lease) && Enabled(lease, a)
    ensures LeaseOk(After(lease, a))
  {
    AfterKeepsStageOk(lease, a);
    forall p ensures Conserved(After(lease, a), p) {
      assert Conserved(lease, p);
      AfterChangesCount(lease, a, p);
    }
  }

  lemma ChannelStep(limits: map<PoolId, nat>, filled: map<PoolId, nat>, e: Effect, filled': map<PoolId, nat>, p: PoolId)
    requires Channels(limits, filled, e, filled') && filled.Keys == limits.Keys && p in limits && filled[p] <= limits[p]
    ensures filled'.Keys == filled.Keys && filled'[p] <= limits[p]
    ensures filled'[p] == filled[p] + (if e == Fill(p) then 1 else 0) - (if e == Drain(p) then 1 else 0)
  {}

  lemma OccupancyMoves(limits: map<PoolId, nat>, filled: map<PoolId, nat>, leases: seq<Lease>, l: LeaseId,
                       e: Effect, after: Lease, filled': map<PoolId, nat>, p: PoolId)
    requires filled.Keys == limits.Keys && p in limits && filled[p] == InUse(leases, p) <= limits[p]
    requires l < |leases| && Counts(leases[l], e, after, p) && Channels(limits, filled, e, filled')
    ensures filled'.Keys == filled.Keys && filled'[p] == InUse(leases[l := after], p) <= limits[p]
  {
    InUseUpdate(leases, l, after, p);
    ChannelStep(limits, filled, e, filled', p);
  }

  lemma OccupancyStep(s: State, a: Action, s': State, p: PoolId)
    requires Inv(s) && Next(s, a, s') && p in s.limits
    ensures s'.filled.Keys == s.filled.Keys
    ensures s'.filled[p] == InUse(s'.leases, p) && s'.filled[p] <= s'.limits[p]
  {
    if a.Begin? {
      assert s'.leases[..|s.leases|] == s.leases;
    } else {
      var lease := s.leases[a.l];
      AfterChangesCount(lease, a, p);
      OccupancyMoves(s.limits, s.filled, s.leases, a.l, EffectOf(lease, a), After(lease, a), s'.filled, p);
    }
  }

  lemma AfterListsOnlyKnown(lease: Lease, a: Action, p: PoolId)
    requires LeaseOk(lease) && Enabled(lease, a) && p in After(lease, a).pools
    ensures p in lease.pools || p in lease.wanted
  {
    OccursThenCounts(lease.pools, p);
    OccursThenCounts(After(lease, a).pools, p);
    AfterChangesCount(lease, a, p);
  }

  lemma LeaseStep(s: State, a: Action, s': State, l: LeaseId)
    requires Inv(s) && Next(s, a, s') && l < |s'.leases|
    ensures LeaseOk(s'.leases[l])
    ensures forall p :: p in s'.leases[l].wanted || p in s'.leases[l].pools ==> p in s'.limits
  {
    if l < |s.leases| {
      assert LeaseOk(s.leases[l]);
      if !a.Begin? && a.l == l {
        AfterKeepsLeaseOk(s.leases[l], a);
        forall p | p in s'.leases[l].pools ensures p in s.limits {
          AfterListsOnlyKnown(s.leases[l], a, p);
        }
      }
    }
  }

  lemma StepKeepsInv(s: State, a: Action, s': State)
    requires Inv(s) && Next(s, a, s')
    ensures Inv(s')
  {
    forall p | p in s'.limits
      ensures s'.filled.Keys == s.filled.Keys
      ensures s'.filled[p] == InUse(s'.leases, p) && s'.filled[p] <= s'.limits[p]
    {
      OccupancyStep(s, a, s', p);
    }
    forall l: LeaseId | l < |s'.leases|
      ensures LeaseOk(s'.leases[l])
      ensures forall p :: p in s'.leases[l].wanted || p in s'.leases[l].pools ==> p in s'.limits
    {
      LeaseStep(s, a, s', l);
    }
  }

  lemma {:induction false} InvInEveryRun(states: seq<State>, actions: seq<Action>, i: nat)
    requires IsRun(states, actions) && i < |states|
    ensures Inv(states[i]) && states[i].limits == states[0].limits
  {
    if i > 0 {
      InvInEveryRun(states, actions, i - 1);
      assert Next(states[i - 1], actions[i - 1], states[i]);
      StepKeepsInv(states[i - 1], actions[i - 1], states[i]);
    }
  }

  // ---------- Main results ----------

  /** At every moment each pool's occupancy is the number of slots that leases
      still list, and at most its capacity. */
  lemma OccupancyIsWhatLeasesHold(states: seq<State>, actions: seq<Action>, i: nat, p: PoolId)
    requires IsRun(states, actions) && i < |states| && p in states[0].limits
    ensures p in states[i].filled && states[i].filled[p] == InUse(states[i].leases, p) <= states[0].limits[p]
  {
    InvInEveryRun(states, actions, i);
  }

  /** Giving back never blocks: whichever goroutine is about to drain a slot, the
      channel has one. */
  lemma ReleaseNeverBlocks(states: seq<State>, actions: seq<Action>, i: nat, l: LeaseId, p: PoolId)
    requires IsRun(states, actions) && i < |states| && l < |states[i].leases| && p in states[i].leases[l].pools
    ensures p in states[i].filled && 0 < states[i].filled[p]
  {
    InvInEveryRun(states, actions, i);
    InUseUpdate(states[i].leases, l, states[i].leases[l], p);
    OccursThenCounts(states[i].leases[l].pools, p);
  }

  /** Every slot is given back exactly once: at every moment what a lease took is
      what it lists plus what it gave back; when its call was refused or it has
      been released, it has given back all it took, however often `release` and
      `releasePool` were called. */
  lemma GivenBackOnce(states: seq<State>, actions: seq<Action>, i: nat, l: LeaseId, p: PoolId)
    requires IsRun(states, actions) && i < |states| && l < |states[i].leases|
    ensures var lease := states[i].leases[l];
      && Count(lease.taken, p) == Count(lease.pools, p) + Count(lease.givenBack, p)
      && (lease.stage in {Refused, Released} ==> Count(lease.givenBack, p) == Count(lease.taken, p))
      && (lease.stage == Released ==> Count(lease.givenBack, p) == Count(lease.wanted, p))
  {
    InvInEveryRun(states, actions, i);
    assert LeaseOk(states[i].leases[l]);
    assert Conserved(states[i].leases[l], p);
  }

  lemma {:induction false} NothingListed(leases: seq<Lease>, p: PoolId)
    requires forall l: LeaseId :: l < |leases| ==> leases[l].pools == []
    ensures InUse(leases, p) == 0
  {
    if leases != [] {
      NothingListed(leases[..|leases| - 1], p);
    }
  }

  /** When every call was refused or its lease is released, all pools are empty
      again. */
  lemma AllSlotsComeBack(states: seq<State>, actions: seq<Action>, i: nat, p: PoolId)
    requires IsRun(states, actions) && i < |states| && p in states[0].limits
    requires forall l: LeaseId :: l < |states[i].leases| ==> states[i].leases[l].stage in {Refused, Released}
    ensures p in states[i].filled && states[i].filled[p] == 0
  {
    InvInEveryRun(states, actions, i);
    assert forall l: LeaseId :: l < |states[i].leases| ==> LeaseOk(states[i].leases[l]);
    NothingListed(states[i].leases, p);
  }

  // ---------- The methods are runs ----------

  ghost predicate Leads(s: State, actions: seq<Action>, s': State)
    decreases |actions|
  {
    if actions == [] then s' == s else exists mid :: Next(s, actions[0], mid) && Leads(mid, actions[1..], s')
  }

  lemma StepThen(s: State, a: Action, mid: State, actions: seq<Action>, s': State)
    requires Next(s, a, mid) && Leads(mid, actions, s')
    ensures Leads(s, [a] + actions, s')
  {
    assert ([a] + actions)[1..] == actions;
  }

  /** The last listed slot can be given back, and the others after it. */
  lemma LastGoesBack(filled: map<PoolId, nat>, pools: seq<PoolId>, after: map<PoolId, nat>)
    requires pools != [] && Holds(filled, pools) && GivenBack(filled, pools, after)
    ensures var p, rest := pools[|pools| - 1], pools[..|pools| - 1];
      && p in filled && 0 < filled[p]
      && Holds(filled[p := filled[p] - 1], rest) && GivenBack(filled[p := filled[p] - 1], rest, after)
  {
    var p, rest := pools[|pools| - 1], pools[..|pools| - 1];
    assert p in pools;
    forall q | q in rest ensures q in filled && Count(rest, q) <= filled[p := filled[p] - 1][q] {
      assert q in pools;
    }
  }

  lemma NoneGoesBack(filled: map<PoolId, nat>, after: map<PoolId, nat>)
    requires GivenBack(filled, [], after)
    ensures after == filled
  {}

  lemma OneGoesBack(filled: map<PoolId, nat>, pools: seq<PoolId>, p: PoolId, after: map<PoolId, nat>)
    requires p in pools && Holds(filled, pools) && GivenBack(filled, [p], after)
    ensures p in filled && 0 < filled[p] && after == filled[p := filled[p] - 1]
  {
    OccursThenCounts(pools, p);
    CountPush([], p);
    assert [] + [p] == [p];
  }

  function With(s: State, l: LeaseId, lease: Lease, filled: map<PoolId, nat>): State
    requires l < |s.leases|
  {
    s.(filled := filled, leases := s.leases[l := lease])
  }

  /** The releasing lease has a slot to give back, and the channel has one too. */
  predicate HasLast(s: State, l: LeaseId) {
    && l < |s.leases| && s.leases[l].stage == Releasing && s.leases[l].pools != []
    && var p := s.leases[l].pools[|s.leases[l].pools| - 1];
    && p in s.filled && 0 < s.filled[p]
  }

  function AfterLast(s: State, l: LeaseId): State
    requires HasLast(s, l)
  {
    var p := s.leases[l].pools[|s.leases[l].pools| - 1];
    With(s, l, After(s.leases[l], GiveBackLast(l)), s.filled[p := s.filled[p] - 1])
  }

  lemma GiveBackIsAStep(s: State, l: LeaseId, after: map<PoolId, nat>)
    requires l < |s.leases| && s.leases[l].stage == Releasing && s.leases[l].pools != []
    requires Holds(s.filled, s.leases[l].pools) && GivenBack(s.filled, s.leases[l].pools, after)
    ensures HasLast(s, l) && Next(s, GiveBackLast(l), AfterLast(s, l))
    ensures var pools, mid := s.leases[l].pools, AfterLast(s, l);
      && |mid.leases| == |s.leases| && mid.leases[l].stage == Releasing && mid.leases[l].pools == pools[..|pools| - 1]
      && Holds(mid.filled, mid.leases[l].pools) && GivenBack(mid.filled, mid.leases[l].pools, after)
  {
    LastGoesBack(s.filled, s.leases[l].pools, after);
  }

  lemma EndIsAStep(s: State, l: LeaseId, after: map<PoolId, nat>) returns (s': State)
    requires l < |s.leases| && s.leases[l].stage == Releasing && s.leases[l].pools == []
    requires GivenBack(s.filled, [], after)
    ensures Leads(s, [EndRelease(l)], s') && s'.filled == after
    ensures |s'.leases| == |s.leases| && s'.leases[l].stage == Released && s'.leases[l].pools == []
  {
    NoneGoesBack(s.filled, after);
    s' := With(s, l, After(s.leases[l], EndRelease(l)), after);
    StepThen(s, EndRelease(l), s', [], s');
    assert [EndRelease(l)] + [] == [EndRelease(l)];
  }

  lemma {:induction false} LoopIsItsSteps(s: State, l: LeaseId, after: map<PoolId, nat>)
      returns (actions: seq<Action>, s': State)
    requires l < |s.leases| && s.leases[l].stage == Releasing
    requires Holds(s.filled, s.leases[l].pools) && GivenBack(s.filled, s.leases[l].pools, after)
    ensures Leads(s, actions, s') && s'.filled == after
    ensures |s'.leases| == |s.leases| && s'.leases[l].stage == Released && s'.leases[l].pools == []
    decreases |s.leases[l].pools|
  {
    if s.leases[l].pools == [] {
      s' := EndIsAStep(s, l, after);
      actions := [EndRelease(l)];
    } else {
      GiveBackIsAStep(s, l, after);
      var rest;
      rest, s' := LoopIsItsSteps(AfterLast(s, l), l, after);
      StepThen(s, GiveBackLast(l), AfterLast(s, l), rest, s');
      actions := [GiveBackLast(l)] + rest;
    }
  }

  /** `WorkLease.Release` is a run: from a held lease its steps lead to the very
      occupancy the method's contract states. */
  lemma ReleaseIsItsSteps(s: State, l: LeaseId, after: map<PoolId, nat>) returns (actions: seq<Action>, s': State)
    requires l < |s.leases| && s.leases[l].stage == Held
    requires Holds(s.filled, s.leases[l].pools) && GivenBack(s.filled, s.leases[l].pools, after)
    ensures Leads(s, actions, s') && s'.filled == after
    ensures |s'.leases| == |s.leases| && s'.leases[l].stage == Released && s'.leases[l].pools == []
  {
    var mid := With(s, l, After(s.leases[l], StartRelease(l)), s.filled);
    var rest;
    rest, s' := LoopIsItsSteps(mid, l, after);
    StepThen(s, StartRelease(l), mid, rest, s');
    actions := [StartRelease(l)] + rest;
  }

  /** `WorkLease.ReleasePool` is one step. */
  lemma ReleasePoolIsOneStep(s: State, l: LeaseId, p: PoolId, after: map<PoolId, nat>)
    requires l < |s.leases| && s.leases[l].stage == Held && Holds(s.filled, s.leases[l].pools)
    requires GivenBack(s.filled, if p in s.leases[l].pools then [p] else [], after)
    ensures var lease := After(s.leases[l], ReleasePool(l, p));
      && lease.pools == WithoutFirst(s.leases[l].pools, p)
      && Next(s, ReleasePool(l, p), With(s, l, lease, after))
  {
    var pools := s.leases[l].pools;
    WithoutFirstCount(pools, p);
    if p in pools {
      OneGoesBack(s.filled, pools, p, after);
    } else {
      NoneGoesBack(s.filled, after);
    }
  }

  /** The first `n` slots of `wanted` are taken; the rest lead to `after`. */
  ghost predicate Needs(filled: map<PoolId, nat>, wanted: seq<PoolId>, n: nat, after: map<PoolId, nat>)
    requires n <= |wanted|
  {
    && after.Keys == filled.Keys
    && forall p :: p in filled ==> after[p] == filled[p] + Count(wanted, p) - Count(wanted[..n], p)
  }

  ghost predicate MayTake(s: State, l: LeaseId, after: map<PoolId, nat>) {
    && s.filled.Keys == s.limits.Keys && (forall p :: p in s.limits ==> p in after && after[p] <= s.limits[p])
    && l < |s.leases| && s.leases[l].stage == Acquiring && s.leases[l].pools == s.leases[l].taken
    && (forall p :: p in s.leases[l].wanted ==> p in s.limits)
    && |s.leases[l].taken| <= |s.leases[l].wanted| && s.leases[l].taken == s.leases[l].wanted[..|s.leases[l].taken|]
    && Needs(s.filled, s.leases[l].wanted, |s.leases[l].taken|, after)
  }

  lemma NextNeeded(filled: map<PoolId, nat>, wanted: seq<PoolId>, n: nat, after: map<PoolId, nat>)
    requires n < |wanted| && wanted[n] in filled && Needs(filled, wanted, n, after)
    ensures wanted[..n + 1] == wanted[..n] + [wanted[n]]
    ensures filled[wanted[n]] < after[wanted[n]]
    ensures Needs(filled[wanted[n] := filled[wanted[n]] + 1], wanted, n + 1, after)
  {
    CountPrefix(wanted, n, wanted[n]);
    assert wanted[..n + 1] == wanted[..n] + [wanted[n]];
    CountPush(wanted[..n], wanted[n]);
  }

  lemma TakeIsAStep(s: State, l: LeaseId, after: map<PoolId, nat>) returns (mid: State)
    requires MayTake(s, l, after) && |s.leases[l].taken| < |s.leases[l].wanted|
    ensures Next(s, Take(l), mid) && MayTake(mid, l, after)
    ensures |mid.leases| == |s.leases| && mid.leases[l].wanted == s.leases[l].wanted
    ensures |mid.leases[l].taken| == |s.leases[l].taken| + 1
  {
    var lease := s.leases[l];
    var p := lease.wanted[|lease.taken|];
    NextNeeded(s.filled, lease.wanted, |lease.taken|, after);
    mid := With(s, l, After(lease, Take(l)), s.filled[p := s.filled[p] + 1]);
  }

  lemma GrantIsAStep(s: State, l: LeaseId, after: map<PoolId, nat>) returns (s': State)
    requires MayTake(s, l, after) && |s.leases[l].taken| == |s.leases[l].wanted|
    ensures Leads(s, [Grant(l)], s') && s'.filled == after
    ensures |s'.leases| == |s.leases| && s'.leases[l].stage == Held && s'.leases[l].pools == s.leases[l].wanted
  {
    var lease := s.leases[l];
    assert lease.wanted[..|lease.wanted|] == lease.wanted;
    s' := With(s, l, After(lease, Grant(l)), s.filled);
    StepThen(s, Grant(l), s', [], s');
    assert [Grant(l)] + [] == [Grant(l)];
  }

  lemma {:induction false} TakingIsItsSteps(s: State, l: LeaseId, after: map<PoolId, nat>)
      returns (actions: seq<Action>, s': State)
    requires MayTake(s, l, after)
    ensures Leads(s, actions, s') && s'.filled == after
    ensures |s'.leases| == |s.leases| && s'.leases[l].stage == Held && s'.leases[l].pools == s.leases[l].wanted
    decreases |s.leases[l].wanted| - |s.leases[l].taken|
  {
    if |s.leases[l].taken| == |s.leases[l].wanted| {
      s' := GrantIsAStep(s, l, after);
      actions := [Grant(l)];
    } else {
      var mid := TakeIsAStep(s, l, after);
      var rest;
      rest, s' := TakingIsItsSteps(mid, l, after);
      StepThen(s, Take(l), mid, rest, s');
      actions := [Take(l)] + rest;
    }
  }

  /** A call of `AcquirePools` that is granted without waiting is a run: its steps
      lead to a held lease of the pools it asked for and to the occupancy that
      the method's contract states. */
  lemma AcquireIsItsSteps(s: State, wanted: seq<PoolId>, after: map<PoolId, nat>)
      returns (actions: seq<Action>, s': State)
    requires s.filled.Keys == s.limits.Keys && forall p :: p in wanted ==> p in s.limits
    requires Changed(s.filled, wanted, [], after) && forall p :: p in s.limits ==> p in after && after[p] <= s.limits[p]
    ensures Leads(s, actions, s') && s'.filled == after
    ensures |s'.leases| == |s.leases| + 1
    ensures s'.leases[|s.leases|].stage == Held && s'.leases[|s.leases|].pools == wanted
  {
    var begun := s.(leases := s.leases + [Lease(wanted, Acquiring, [], [], [])]);
    assert wanted[..0] == [];
    assert Needs(s.filled, wanted, 0, after);
    var rest;
    rest, s' := TakingIsItsSteps(begun, |s.leases|, after);
    StepThen(s, Begin(wanted), begun, rest, s');
    actions := [Begin(wanted)] + rest;
  }
}
