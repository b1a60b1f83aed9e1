/** Capacity slots and the leases that hold them: `internal/bridge/limits.go`. */
module WorkPools {

  type PoolId = nat

  /** How often `p` occurs. */
  function Count(s: seq<PoolId>, p: PoolId): nat {
    if s == [] then 0 else Count(s[..|s| - 1], p) + if s[|s| - 1] == p then 1 else 0
  }

  lemma CountPush(s: seq<PoolId>, x: PoolId)
    ensures forall p :: Count(s + [x], p) == Count(s, p) + if x == p then 1 else 0
  {
    assert (s + [x])[..|s|] == s;
  }

  /** Everything but the first occurrence of `x`. */
  function WithoutFirst(s: seq<PoolId>, x: PoolId): seq<PoolId> {
    if s == [] then []
    else if x in s[..|s| - 1] then WithoutFirst(s[..|s| - 1], x) + [s[|s| - 1]]
    else if s[|s| - 1] == x then s[..|s| - 1] else s
  }

  lemma {:induction false} WithoutFirstCount(s: seq<PoolId>, x: PoolId)
    ensures forall p :: Count(WithoutFirst(s, x), p) == Count(s, p) - if x in s && p == x then 1 else 0
    ensures x !in s ==> WithoutFirst(s, x) == s
  {
    if s != [] {
      WithoutFirstCount(s[..|s| - 1], x);
      CountPush(WithoutFirst(s[..|s| - 1], x), s[|s| - 1]);
    }
  }

  /** Where a scan from the left stops is the first occurrence. */
  lemma {:induction false} CutAtFirst(s: seq<PoolId>, x: PoolId, i: nat)
    requires i < |s| && s[i] == x && x !in s[..i]
    ensures WithoutFirst(s, x) == s[..i] + s[i + 1..]
  {
    var rest := s[..|s| - 1];
    if i < |rest| {
      assert rest[i] == x && rest[..i] == s[..i];
      CutAtFirst(rest, x, i);
    } else {
      assert rest == s[..i];
    }
  }

  lemma {:induction false} CountPrefix(s: seq<PoolId>, i: nat, p: PoolId)
    requires i <= |s|
    ensures Count(s[..i], p) <= Count(s, p)
    ensures i < |s| && s[i] == p ==> Count(s[..i], p) < Count(s, p)
  {
    if i < |s| {
      var rest := s[..|s| - 1];
      assert rest[..i] == s[..i];
      CountPrefix(rest, i, p);
    } else {
      assert s[..i] == s;
    }
  }

  lemma {:induction false} OccursThenCounts(s: seq<PoolId>, p: PoolId)
    ensures p in s <==> 0 < Count(s, p)
  {
    if s != [] {
      OccursThenCounts(s[..|s| - 1], p);
      assert p in s <==> p in s[..|s| - 1] || p == s[|s| - 1];
    }
  }

  /** The buffered channels of one bridge: how many slots each has, and how many
      are filled. */
  class Pools {
    const limits: map<PoolId, nat>
    var filled: map<PoolId, nat>

    ghost predicate Valid()
      reads this
    {
      && filled.Keys == limits.Keys
      && forall p :: p in limits ==> 0 < limits[p] && filled[p] <= limits[p]
    }

    constructor (limits: map<PoolId, nat>)
      requires forall p :: p in limits ==> 0 < limits[p]
      ensures Valid() && this.limits == limits && forall p :: p in filled ==> filled[p] == 0
    {
      this.limits := limits;
      filled := map p | p in limits :: 0;
    }

    method TryAcquire(p: PoolId) returns (ok: bool)
      requires Valid() && p in limits
      modifies this
      ensures Valid() && ok == (old(filled)[p] < limits[p])
      ensures filled == if ok then old(filled)[p := old(filled)[p] + 1] else old(filled)
    {
      ok := filled[p] < limits[p];
      if ok {
        filled := filled[p := filled[p] + 1];
      }
    }

    /** Waits on a full pool.  `freed` says that another holder gave its slot
        back before the wait's context ended; that slot is taken over. */
    method Acquire(p: PoolId, freed: bool) returns (ok: bool)
      requires Valid() && p in limits && filled[p] == limits[p]
      modifies this
      ensures Valid() && filled == old(filled) && ok == freed
    {
      ok := false;
      if freed {
        filled := filled[p := filled[p] - 1];
        ok := TryAcquire(p);
        assert filled == old(filled);
      }
    }

    /** On an empty channel this would block for ever. */
    method Release(p: PoolId)
      requires Valid() && p in limits && 0 < filled[p]
      modifies this
      ensures Valid() && filled == old(filled)[p := old(filled)[p] - 1]
    {
      filled := filled[p := filled[p] - 1];
    }
  }

  /** The slots a lease still holds are all filled. */
  ghost predicate Holds(filled: map<PoolId, nat>, pools: seq<PoolId>) {
    forall p :: p in pools ==> p in filled && Count(pools, p) <= filled[p]
  }

  /** `filled` with one slot of each of `pools` given back. */
  ghost predicate GivenBack(before: map<PoolId, nat>, pools: seq<PoolId>, after: map<PoolId, nat>) {
    after.Keys == before.Keys && forall p :: p in before ==> after[p] == before[p] - Count(pools, p)
  }

  class WorkLease {
    var pools: seq<PoolId>
    var released: bool

    predicate Valid()
      reads this
    {
      released ==> pools == []
    }

    constructor ()
      ensures pools == [] && !released
    {
      pools := [];
      released := false;
    }

    method Release(all: Pools)
      requires Valid() && all.Valid() && Holds(all.filled, pools)
      modifies this, all
      ensures Valid() && all.Valid() && released && pools == []
      ensures GivenBack(old(all.filled), old(pools), all.filled)
    {
      if released {
        return;
      }
      released := true;
      var i := |pools|;
      assert pools[..i] == pools;
      while 0 < i
        invariant 0 <= i <= |pools| && released && pools == old(pools)
        invariant all.Valid() && all.filled.Keys == old(all.filled).Keys
        invariant forall p :: p in all.filled ==>
          all.filled[p] == old(all.filled)[p] - Count(pools, p) + Count(pools[..i], p)
      {
        i := i - 1;
        assert pools[..i + 1] == pools[..i] + [pools[i]];
        CountPush(pools[..i], pools[i]);
        assert pools[i] in pools;
        all.Release(pools[i]);
      }
      pools := [];
    }

    /** Gives back one pool's slot early; a later `Release` skips it. */
    method ReleasePool(all: Pools, pool: PoolId)
      requires Valid() && all.Valid() && Holds(all.filled, pools)
      modifies this, all
      ensures Valid() && all.Valid() && released == old(released)
      ensures pools == WithoutFirst(old(pools), pool)
      ensures GivenBack(old(all.filled), if pool in old(pools) then [pool] else [], all.filled)
    {
      ghost var held := pools;
      WithoutFirstCount(pools, pool);
      if released {
        return;
      }
      for i := 0 to |pools|
        invariant pools == held && pool !in held[..i] && all.filled == old(all.filled)
      {
        if pools[i] == pool {
          CutAtFirst(held, pool, i);
          pools := pools[..i] + pools[i + 1..];
          assert pool in held;
          OccursThenCounts(held, pool);
          all.Release(pool);
          CountPush([], pool);
          assert [] + [pool] == [pool];
          return;
        }
        assert held[..i + 1] == held[..i] + [held[i]];
      }
      assert held[..|held|] == held;
    }
  }

  datatype Admission = Granted | Busy | Canceled

  /** What one look at the clock finds ended: the caller's context, the shared
      wait budget.  What has ended stays ended. */
  datatype Look = Look(parent: bool, budget: bool)

  /** What a call has done to the pools: it holds `mine`, and other holders gave
      `others` back while it waited. */
  ghost predicate Changed(before: map<PoolId, nat>, mine: seq<PoolId>, others: seq<PoolId>, after: map<PoolId, nat>) {
    && after.Keys == before.Keys
    && forall p :: p in before ==> after[p] + Count(others, p) == before[p] + Count(mine, p)
  }

  /** There is a free slot for every place the caller asks for. */
  ghost predicate Fits(filled: map<PoolId, nat>, limits: map<PoolId, nat>, pools: seq<PoolId>) {
    forall p :: p in pools && p in filled && p in limits ==> filled[p] + Count(pools, p) <= limits[p]
  }

  /** The changes made on the way never took more from others than they had. */
  ghost predicate Holding(before: map<PoolId, nat>, mine: seq<PoolId>, others: seq<PoolId>, after: map<PoolId, nat>) {
    && Changed(before, mine, others, after)
    && (forall p :: p in before ==> Count(others, p) <= before[p])
    && (forall p :: p in mine ==> p in before)
  }

  /** Gives everything back; the caller is left with nothing. */
  method RollBack(all: Pools, lease: WorkLease, ghost others: seq<PoolId>, ghost before: map<PoolId, nat>)
    requires lease.Valid() && all.Valid() && Holding(before, lease.pools, others, all.filled)
    modifies all, lease
    ensures all.Valid() && Holding(before, [], others, all.filled)
  {
    lease.Release(all);
  }

  /** The single success boundary: refuses and gives everything back when a
      context has ended, the caller's first. */
  method ValidateAdmission(all: Pools, lease: WorkLease, look: Look, waiting: bool,
                           ghost others: seq<PoolId>, ghost before: map<PoolId, nat>) returns (result: Admission)
    requires lease.Valid() && all.Valid() && Holding(before, lease.pools, others, all.filled)
    modifies all, lease
    ensures result == Canceled <==> look.parent
    ensures result == Busy <==> !look.parent && waiting && look.budget
    ensures all.Valid() && Holding(before, if result == Granted then lease.pools else [], others, all.filled)
    ensures result == Granted ==>
      all.filled == old(all.filled) && lease.pools == old(lease.pools) && lease.released == old(lease.released)
  {
    if look.parent {
      RollBack(all, lease, others, before);
      return Canceled;
    }
    if waiting && look.budget {
      RollBack(all, lease, others, before);
      return Busy;
    }
    return Granted;
  }

  /** One turn of the loop: takes a free slot at once, or waits for one when the
      caller has a wait budget. */
  method TakeOrWait(all: Pools, p: PoolId, wait: int, freed: bool, mine: seq<PoolId>, others: seq<PoolId>,
                    ghost before: map<PoolId, nat>) returns (ok: bool, waited: bool, others': seq<PoolId>)
    requires all.Valid() && p in all.limits && Holding(before, mine, others, all.filled)
    modifies all
    ensures all.Valid() && Holding(before, if ok then mine + [p] else mine, others', all.filled)
    ensures waited == (wait > 0 && old(all.filled)[p] == all.limits[p])
    ensures others' == if ok && waited then others + [p] else others
    ensures !ok ==> old(all.filled)[p] == all.limits[p]
    ensures !ok ==> wait <= 0 || !freed || Count(mine, p) >= all.limits[p]
  {
    CountPush(mine, p);
    CountPush(others, p);
    waited, others' := false, others;
    ok := all.TryAcquire(p);
    if !ok && wait > 0 {
      waited := true;
      // a wait on slots that only this call holds is never answered
      ok := all.Acquire(p, freed && Count(mine, p) < all.filled[p]);
      if ok {
        others' := others + [p];
      }
    }
  }

  /** One turn of the loop in `AcquirePools`. */
  method AcquireNext(all: Pools, held: WorkLease, p: PoolId, wait: int, looks: seq<Look>, freed: bool,
                     waiting: bool, others: seq<PoolId>, last: nat, ghost before: map<PoolId, nat>)
      returns (result: Admission, waiting': bool, others': seq<PoolId>, last': nat)
    requires all.Valid() && p in all.limits && !held.released && Holding(before, held.pools, others, all.filled)
    requires last + 2 < |looks| && !looks[last].parent && (waiting ==> wait > 0)
    modifies all, held
    ensures all.Valid() && (waiting' ==> wait > 0) && last <= last' <= last + 2
    ensures result == Granted ==> !held.released && held.pools == old(held.pools) + [p]
    ensures Holding(before, if result == Granted then held.pools else [], others', all.filled)
    ensures result == Canceled <==> looks[last'].parent
    ensures others' != others || waiting ==> waiting'
    ensures result == Busy && (wait <= 0 || !looks[last'].budget) ==>
      old(all.filled)[p] == all.limits[p] && (wait <= 0 || !freed || Count(old(held.pools), p) >= all.limits[p])
  {
    waiting', others', last' := waiting, others, last;
    if waiting {
      last' := last' + 1;
      result := ValidateAdmission(all, held, looks[last'], waiting, others, before);
      if result != Granted {
        return;
      }
    }
    var ok, waited, taken := TakeOrWait(all, p, wait, freed, held.pools, others, before);
    waiting', others', last' := waiting || waited, taken, last' + 1;
    if !ok {
      RollBack(all, held, others', before);
      result := if looks[last'].parent then Canceled else Busy;
    } else {
      held.pools := held.pools + [p];
      result := ValidateAdmission(all, held, looks[last'], waiting', others', before);
    }
  }

  /** Takes a slot of every pool in order, or nothing.  `looks[n]` is what the
      n-th look finds, `freed[i]` whether a wait for `pools[i]` is answered;
      `others` are the slots taken over from other holders. */
  method AcquirePools(all: Pools, wait: int, pools: seq<PoolId>, looks: seq<Look>, freed: seq<bool>)
      returns (lease: WorkLease?, result: Admission, last: nat, others: seq<PoolId>)
    requires all.Valid() && forall p :: p in pools ==> p in all.limits
    requires 2 * |pools| + 2 <= |looks| && |pools| <= |freed|
    modifies all
    ensures all.Valid() && (result == Granted <==> lease != null)
    ensures lease != null ==> fresh(lease) && !lease.released && lease.pools == pools
    ensures Changed(old(all.filled), if result == Granted then pools else [], others, all.filled)
    ensures last < |looks| && (result == Canceled <==> looks[last].parent)
    ensures wait <= 0 ==> others == []
    ensures wait <= 0 && result == Granted ==> Fits(old(all.filled), all.limits, pools)
    ensures wait <= 0 && result == Busy ==> !Fits(old(all.filled), all.limits, pools)
    ensures wait > 0 && result == Busy && !looks[last].budget ==>
      exists i: nat :: i < |pools| && (!freed[i] || Count(pools[..i], pools[i]) >= all.limits[pools[i]])
  {
    var held := new WorkLease();
    others, last := [], 0;
    var waiting := false;
    ghost var before := all.filled;
    result := ValidateAdmission(all, held, looks[last], waiting, others, before);
    if result != Granted {
      return null, result, last, others;
    }
    for i := 0 to |pools|
      invariant fresh(held) && !held.released && held.pools == pools[..i]
      invariant all.Valid() && Holding(before, pools[..i], others, all.filled)
      invariant last <= 2 * i && !looks[last].parent
      invariant waiting ==> wait > 0
      invariant wait <= 0 ==> others == []
    {
      assert pools[..i + 1] == pools[..i] + [pools[i]];
      result, waiting, others, last :=
        AcquireNext(all, held, pools[i], wait, looks, freed[i], waiting, others, last, before);
      if result != Granted {
        CountPrefix(pools, i, pools[i]);
        return null, result, last, others;
      }
    }
    assert pools[..|pools|] == pools;
    last := last + 1;
    result := ValidateAdmission(all, held, looks[last], waiting, others, before);
    lease := if result == Granted then held else null;
  }
}
