/** One shared read per folder: `internal/bridge/fs_listing.go`. */
module FolderReads {
  import opened WorkPools

  type ReadId = nat
  type Key = string

  /** `current` (`reads` in the source) is the read that requests for a path
      join, `abandoned` a stale one that a retry replaced. */
  datatype Registry = Registry(current: map<Key, ReadId>, abandoned: map<Key, ReadId>)

  datatype Timing = Timing(listTimeout: int, staleAfter: int)

  /** What a request for a path is told while the lister is locked. */
  datatype Decision =
    | Join(read: ReadId, remaining: int)
    | StillStuck                             // both reads of the path are stuck: ETIMEDOUT
    | Start(stale: bool)

  function Decide(reg: Registry, started: seq<int>, key: Key, now: int, timing: Timing): (d: Decision)
    requires key in reg.current ==> reg.current[key] < |started|
  {
    if key in reg.current then
      var age := now - started[reg.current[key]];
      if age < timing.staleAfter then Join(reg.current[key], timing.listTimeout - age)
      else if key in reg.abandoned then StillStuck
      else Start(true)
    else Start(false)
  }

  function AfterStart(reg: Registry, key: Key, stale: bool, read: ReadId): Registry
    requires stale ==> key in reg.current
  {
    Registry(reg.current[key := read], if stale then reg.abandoned[key := reg.current[key]] else reg.abandoned)
  }

  function Dropped(m: map<Key, ReadId>, key: Key, read: ReadId): map<Key, ReadId> {
    if key in m && m[key] == read then m - {key} else m
  }

  function AfterFinish(reg: Registry, key: Key, read: ReadId): Registry {
    Registry(Dropped(reg.current, key, read), Dropped(reg.abandoned, key, read))
  }

  datatype Outcome =
    | Joined(read: ReadId, remaining: int) | TimedOut | Refused(result: Admission) | Started(read: ReadId)

  class FolderLister {
    const timing: Timing
    const processSlots: PoolId
    var current: map<Key, ReadId>
    var abandoned: map<Key, ReadId>
    var started: seq<int>                    // when each read so far began

    ghost function View(): Registry
      reads this
    {
      Registry(current, abandoned)
    }

    ghost predicate Valid()
      reads this
    {
      && (forall k :: k in current ==> current[k] < |started|)
      && (forall k :: k in abandoned ==> abandoned[k] < |started|)
    }

    constructor (timing: Timing, processSlots: PoolId)
      ensures Valid() && View() == Registry(map[], map[]) && started == []
      ensures this.timing == timing && this.processSlots == processSlots
    {
      this.timing := timing;
      this.processSlots := processSlots;
      current, abandoned, started := map[], map[], [];
    }

    /** The locked part of `list`: joins a live read, gives up on a path with two
        stuck reads, or takes both slots and registers a new read. */
    method List(key: Key, now: int, all: Pools, connSlots: PoolId, looks: seq<Look>)
        returns (outcome: Outcome, lease: WorkLease?)
      requires Valid() && all.Valid() && connSlots in all.limits && processSlots in all.limits && 6 <= |looks|
      modifies this, all
      ensures Valid() && all.Valid()
      ensures match old(Decide(View(), started, key, now, timing))
        case Join(read, remaining) => outcome == Joined(read, remaining)
        case StillStuck => outcome == TimedOut
        case Start(stale) => if Fits(old(all.filled), all.limits, [connSlots, processSlots]) then
            outcome == Started(|old(started)|) || outcome == Refused(Canceled)
          else outcome == Refused(Busy) || outcome == Refused(Canceled)
      ensures outcome.Joined? <==> key in old(current) && now - old(started)[old(current)[key]] < timing.staleAfter
      ensures outcome.Joined? ==>
        outcome == Joined(old(current)[key], old(started)[old(current)[key]] + timing.listTimeout - now)
      ensures outcome == TimedOut <==>
        && key in old(current) && key in old(abandoned)
        && now - old(started)[old(current)[key]] >= timing.staleAfter
      ensures outcome.Started? ==>
        && current == old(current)[key := |old(started)|]
        && abandoned == if key in old(current) then old(abandoned)[key := old(current)[key]] else old(abandoned)
      ensures outcome.Started? ==>
        var d := old(Decide(View(), started, key, now, timing));
        && View() == AfterStart(old(View()), key, d.stale, outcome.read)
        && started == old(started) + [now]
        && lease != null && !lease.released && lease.pools == [connSlots, processSlots]
        && Changed(old(all.filled), [connSlots, processSlots], [], all.filled)
      ensures !outcome.Started? ==>
        && View() == old(View()) && started == old(started) && lease == null
        && Changed(old(all.filled), [], [], all.filled)
    {
      lease := null;
      var stale := false;
      if key in current {
        var read := current[key];
        var age := now - started[read];
        if age < timing.staleAfter {
          return Joined(read, timing.listTimeout - age), null;
        }
        if key in abandoned {
          return TimedOut, null;
        }
        stale := true;
      }
      var pools := [connSlots, processSlots];
      var granted, result, _, _ := AcquirePools(all, 0, pools, looks, [false, false]);
      if result != Granted {
        return Refused(result), null;
      }
      var read := |started|;
      if stale {
        abandoned := abandoned[key := current[key]];
      }
      current, started := current[key := read], started + [now];
      return Started(read), granted;
    }

    /** The locked part of `finish`. */
    method Finish(key: Key, read: ReadId)
      requires Valid()
      modifies this
      ensures Valid() && View() == AfterFinish(old(View()), key, read) && started == old(started)
    {
      if key in current && current[key] == read {
        current := current - {key};
      }
      if key in abandoned && abandoned[key] == read {
        abandoned := abandoned - {key};
      }
    }
  }
}
