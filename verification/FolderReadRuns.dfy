/** Listings, workers that macOS may hold up for ever, joiners and deadlines:
    `internal/bridge/fs_listing.go` with `fsListSettling` of
    `internal/bridge/fs.go`. */
module FolderReadRuns {
  import opened FolderReads
  import opened Sets

  type WaiterId = nat
  type Answer = string

  /** The worker of a read: it lets go of its lease, unregisters the read, then
      announces the answer. */
  datatype Worker = Reading | LetGo(answer: Answer) | Settled(answer: Answer) | Announced(answer: Answer)

  /** A request waiting for a read, its starter or a joiner. */
  datatype Caller = Waiting | Answered(answer: Answer) | Expired | Gone

  /** `conn` and `process` say which slots the read's lease still lists; `key` is
      empty for a request that shares nothing. */
  datatype Read = Read(key: Key, started: int, worker: Worker, conn: bool, process: bool, starter: Caller)

  datatype Waiter = Waiter(key: Key, read: ReadId, asked: int, until: int, caller: Caller)

  /** `turnedAway` are the requests that were told ETIMEDOUT without a read. */
  datatype State = State(
    now: int, timing: Timing, reg: Registry, runs: seq<Read>, waiters: seq<Waiter>, turnedAway: seq<Key>)

  datatype Action =
    | Pass(now: int)
    | Request(key: Key)                      // with free slots, when it starts a read
    | Worker(r: ReadId, worker: Worker)
    | AnswerStarter(r: ReadId)
    | ExpireStarter(r: ReadId)
    | GiveBackConn(r: ReadId)                // the starter's, after its deadline
    | LeaveStarter(r: ReadId)                // its connection is gone
    | AnswerWaiter(w: WaiterId)
    | ExpireWaiter(w: WaiterId)
    | LeaveWaiter(w: WaiterId)

  function Starts(runs: seq<Read>): (starts: seq<int>)
    ensures |starts| == |runs| && forall i :: 0 <= i < |runs| ==> starts[i] == runs[i].started
  {
    seq(|runs|, i requires 0 <= i < |runs| => runs[i].started)
  }

  ghost predicate Listed(s: State, key: Key, r: ReadId) {
    (key in s.reg.current && s.reg.current[key] == r) || (key in s.reg.abandoned && s.reg.abandoned[key] == r)
  }

  predicate Unsettled(read: Read) { read.worker.Reading? || read.worker.LetGo? }

  function Run(s: State, r: ReadId, read: Read): State
    requires r < |s.runs|
  {
    s.(runs := s.runs[r := read])
  }

  function Wait(s: State, w: WaiterId, caller: Caller): State
    requires w < |s.waiters|
  {
    s.(waiters := s.waiters[w := s.waiters[w].(caller := caller)])
  }

  function Requested(s: State, key: Key): State
    requires key in s.reg.current ==> s.reg.current[key] < |s.runs|
  {
    var read := Read(key, s.now, Reading, true, true, Waiting);
    if key == "" then s.(runs := s.runs + [read])
    else match Decide(s.reg, Starts(s.runs), key, s.now, s.timing)
      case Join(r, remaining) =>
        s.(waiters := s.waiters
             + [Waiter(key, r, s.now, s.now + remaining, if remaining <= 0 then Expired else Waiting)])
      case StillStuck => s.(turnedAway := s.turnedAway + [key])
      case Start(stale) => s.(runs := s.runs + [read], reg := AfterStart(s.reg, key, stale, |s.runs|))
  }

  predicate WorkerMoves(before: Worker, after: Worker) {
    match after
    case Reading => false
    case LetGo(_) => before == Reading
    case Settled(answer) => before == LetGo(answer)
    case Announced(answer) => before == Settled(answer)
  }

  function WorkerMoved(s: State, r: ReadId, worker: Worker): State
    requires r < |s.runs|
  {
    var read := s.runs[r];
    match worker
    case LetGo(_) => Run(s, r, read.(worker := worker, conn := false, process := false))
    case Settled(_) =>
      Run(s, r, read.(worker := worker)).(reg := if read.key == "" then s.reg else AfterFinish(s.reg, read.key, r))
    case _ => Run(s, r, read.(worker := worker))
  }

  ghost predicate Next(s: State, a: Action, s': State) {
    match a
    case Pass(now) => s.now <= now && s' == s.(now := now)
    case Request(key) => (key in s.reg.current ==> s.reg.current[key] < |s.runs|) && s' == Requested(s, key)
    case Worker(r, worker) => r < |s.runs| && WorkerMoves(s.runs[r].worker, worker) && s' == WorkerMoved(s, r, worker)
    case AnswerStarter(r) =>
      && r < |s.runs| && s.runs[r].starter == Waiting && s.runs[r].worker.Announced?
      && s' == Run(s, r, s.runs[r].(starter := Answered(s.runs[r].worker.answer)))
    case ExpireStarter(r) =>
      && r < |s.runs| && s.runs[r].starter == Waiting && s.runs[r].started + s.timing.listTimeout <= s.now
      && s' == Run(s, r, s.runs[r].(starter := Expired))
    case GiveBackConn(r) =>
      r < |s.runs| && s.runs[r].starter == Expired && s' == Run(s, r, s.runs[r].(conn := false))
    case LeaveStarter(r) =>
      r < |s.runs| && s.runs[r].starter == Waiting && s' == Run(s, r, s.runs[r].(starter := Gone))
    case AnswerWaiter(w) =>
      && w < |s.waiters| && s.waiters[w].caller == Waiting && s.waiters[w].read < |s.runs|
      && s.runs[s.waiters[w].read].worker.Announced?
      && s' == Wait(s, w, Answered(s.runs[s.waiters[w].read].worker.answer))
    case ExpireWaiter(w) =>
      && w < |s.waiters| && s.waiters[w].caller == Waiting && s.waiters[w].until <= s.now
      && s' == Wait(s, w, Expired)
    case LeaveWaiter(w) =>
      w < |s.waiters| && s.waiters[w].caller == Waiting && s' == Wait(s, w, Gone)
  }

  ghost predicate Init(s: State) {
    s.reg == Registry(map[], map[]) && s.runs == [] && s.waiters == [] && s.turnedAway == []
  }

  ghost predicate IsRun(states: seq<State>, actions: seq<Action>) {
    && |states| == |actions| + 1
    && Init(states[0])
    && forall i {:trigger actions[i]} :: 0 <= i < |actions| ==> Next(states[i], actions[i], states[i + 1])
  }

  // ---------- What every step keeps ----------

  /** A keyed read is listed exactly while it is unsettled, under its own key. */
  ghost predicate Tracked(s: State, r: ReadId)
    requires r < |s.runs|
  {
    s.runs[r].key != "" && Unsettled(s.runs[r]) ==> Listed(s, s.runs[r].key, r)
  }

  ghost predicate EntryOk(s: State, key: Key, r: ReadId) {
    key != "" && r < |s.runs| && s.runs[r].key == key && Unsettled(s.runs[r])
  }

  ghost predicate RegistryOk(s: State) {
    && (forall k :: k in s.reg.current ==> EntryOk(s, k, s.reg.current[k]))
    && (forall k :: k in s.reg.abandoned ==> EntryOk(s, k, s.reg.abandoned[k]))
    && (forall k :: k in s.reg.current && k in s.reg.abandoned ==> s.reg.current[k] != s.reg.abandoned[k])
  }

  ghost predicate IsStale(s: State, r: ReadId)
    requires r < |s.runs|
  {
    s.now - s.runs[r].started >= s.timing.staleAfter
  }

  /** Only stale reads are abandoned. */
  ghost predicate AbandonedOk(s: State) {
    forall k :: k in s.reg.abandoned ==> s.reg.abandoned[k] < |s.runs| && IsStale(s, s.reg.abandoned[k])
  }

  /** Slots are held by unsettled reads only, the connection's not once its
      request is answered. */
  ghost predicate ReadOk(now: int, timing: Timing, read: Read) {
    && read.started <= now
    && (read.conn || read.process ==> read.worker.Reading?)
    && (read.worker.Reading? ==> read.process)
    && (read.starter.Answered? ==> read.worker == Announced(read.starter.answer))
    && (!read.conn && read.worker.Reading? ==> read.starter == Expired)
    && (read.starter == Expired ==> read.started + timing.listTimeout <= now)
  }

  ghost predicate WaiterOk(s: State, waiter: Waiter) {
    && waiter.read < |s.runs| && s.runs[waiter.read].key == waiter.key != ""
    && waiter.until == s.runs[waiter.read].started + s.timing.listTimeout
    && (waiter.caller.Answered? ==> s.runs[waiter.read].worker == Announced(waiter.caller.answer))
    && (waiter.caller == Expired ==> waiter.until <= s.now)
    && waiter.asked - s.runs[waiter.read].started < s.timing.staleAfter
  }

  ghost predicate Inv(s: State) {
    && RegistryOk(s) && AbandonedOk(s)
    && (forall r: ReadId :: r < |s.runs| ==> Tracked(s, r))
    && (forall r: ReadId :: r < |s.runs| ==> ReadOk(s.now, s.timing, s.runs[r]))
    && (forall w: WaiterId :: w < |s.waiters| ==> WaiterOk(s, s.waiters[w]))
  }

  lemma StartKeepsRegistry(s: State, key: Key, s': State)
    requires Inv(s) && key != "" && s' == Requested(s, key)
    requires Decide(s.reg, Starts(s.runs), key, s.now, s.timing).Start?
    ensures RegistryOk(s') && forall r: ReadId :: r < |s'.runs| ==> Tracked(s', r)
  {
    forall r: ReadId | r < |s'.runs| && s'.runs[r].key != "" && Unsettled(s'.runs[r])
      ensures Listed(s', s'.runs[r].key, r)
    {
      assert r < |s.runs| ==> s'.runs[r] == s.runs[r] && Tracked(s, r);
    }
    assert forall r: ReadId :: r < |s.runs| ==> s'.runs[r] == s.runs[r];
  }

  lemma SettleKeepsRegistry(s: State, r: ReadId, worker: Worker, s': State)
    requires Inv(s) && Next(s, Worker(r, worker), s')
    ensures RegistryOk(s') && forall q: ReadId :: q < |s'.runs| ==> Tracked(s', q)
  {
    assert Tracked(s, r);
    forall q: ReadId | q < |s'.runs| ensures Tracked(s', q) {
      assert Tracked(s, q);
    }
  }

  /** The steps that neither register nor settle a read. */
  lemma OthersKeepRegistry(s: State, s': State)
    requires Inv(s) && s'.reg == s.reg && |s.runs| <= |s'.runs|
    requires forall r: ReadId :: r < |s.runs| ==>
               s'.runs[r].key == s.runs[r].key && s'.runs[r].worker == s.runs[r].worker
    requires forall r: ReadId :: |s.runs| <= r < |s'.runs| ==> s'.runs[r].key == ""
    ensures RegistryOk(s') && forall r: ReadId :: r < |s'.runs| ==> Tracked(s', r)
  {
    forall r: ReadId | r < |s'.runs| ensures Tracked(s', r) {
      assert r < |s.runs| ==> Tracked(s, r);
    }
  }

  lemma RegistryStep(s: State, a: Action, s': State)
    requires Inv(s) && Next(s, a, s')
    ensures RegistryOk(s') && forall r: ReadId :: r < |s'.runs| ==> Tracked(s', r)
  {
    if a.Worker? {
      SettleKeepsRegistry(s, a.r, a.worker, s');
    } else if a.Request? && a.key != "" && Decide(s.reg, Starts(s.runs), a.key, s.now, s.timing).Start? {
      StartKeepsRegistry(s, a.key, s');
    } else {
      OthersKeepRegistry(s, s');
    }
  }

  lemma ReadStep(s: State, a: Action, s': State, r: ReadId)
    requires Inv(s) && Next(s, a, s') && r < |s'.runs|
    ensures ReadOk(s'.now, s'.timing, s'.runs[r])
  {
    if r < |s.runs| {
      assert ReadOk(s.now, s.timing, s.runs[r]);
    }
  }

  lemma ReadStays(s: State, a: Action, s': State, r: ReadId)
    requires Next(s, a, s') && r < |s.runs|
    ensures r < |s'.runs| && s'.runs[r].key == s.runs[r].key && s'.runs[r].started == s.runs[r].started
    ensures s.runs[r].worker.Announced? ==> s'.runs[r].worker == s.runs[r].worker
    ensures s'.timing == s.timing && s.now <= s'.now
  {}

  lemma WaiterStep(s: State, a: Action, s': State, w: WaiterId)
    requires Inv(s) && Next(s, a, s') && w < |s'.waiters|
    ensures WaiterOk(s', s'.waiters[w])
  {
    if w < |s.waiters| {
      assert WaiterOk(s, s.waiters[w]);
      ReadStays(s, a, s', s.waiters[w].read);
    } else {
      assert a.Request?;
    }
  }

  /** A read enters the abandoned ones only when it is stale, and time goes on. */
  lemma AbandonedStep(s: State, a: Action, s': State)
    requires Inv(s) && Next(s, a, s')
    ensures AbandonedOk(s')
  {
    forall k | k in s'.reg.abandoned
      ensures s'.reg.abandoned[k] < |s'.runs| && IsStale(s', s'.reg.abandoned[k])
    {
      AbandonedBefore(s, a, s', k);
      ReadStays(s, a, s', s'.reg.abandoned[k]);
    }
  }

  lemma AbandonedBefore(s: State, a: Action, s': State, k: Key)
    requires Inv(s) && Next(s, a, s') && k in s'.reg.abandoned
    ensures s'.reg.abandoned[k] < |s.runs| && IsStale(s, s'.reg.abandoned[k])
  {}

  lemma StepKeepsInv(s: State, a: Action, s': State)
    requires Inv(s) && Next(s, a, s')
    ensures Inv(s')
  {
    AbandonedStep(s, a, s');
    RegistryStep(s, a, s');
    forall r: ReadId | r < |s'.runs| ensures ReadOk(s'.now, s'.timing, s'.runs[r]) {
      ReadStep(s, a, s', r);
    }
    forall w: WaiterId | w < |s'.waiters| ensures WaiterOk(s', s'.waiters[w]) {
      WaiterStep(s, a, s', w);
    }
  }

  lemma {:induction false} InvInEveryRun(states: seq<State>, actions: seq<Action>, i: nat)
    requires IsRun(states, actions) && i < |states|
    ensures Inv(states[i])
  {
    if i > 0 {
      InvInEveryRun(states, actions, i - 1);
      assert Next(states[i - 1], actions[i - 1], states[i]);
      StepKeepsInv(states[i - 1], actions[i - 1], states[i]);
    }
  }

  // ---------- Main results ----------

  /** The unsettled reads of one requested path. */
  function InProgress(s: State, key: Key): set<ReadId> {
    set r | 0 <= r < |s.runs| && s.runs[r].key == key && Unsettled(s.runs[r]) :: r
  }

  /** The reads of one requested path that hold a process slot. */
  function HoldingProcessSlots(s: State, key: Key): set<ReadId> {
    set r | 0 <= r < |s.runs| && s.runs[r].key == key && s.runs[r].process :: r
  }

  function Registered(reg: Registry, key: Key): set<ReadId> {
    (if key in reg.current then {reg.current[key]} else {})
    + (if key in reg.abandoned then {reg.abandoned[key]} else {})
  }

  /** At every moment the unsettled reads of a path are exactly the registered
      ones: at most two, holding at most two process slots, whichever of the
      original and its replacement ends first. */
  lemma TwoReadsPerPath(states: seq<State>, actions: seq<Action>, i: nat, key: Key)
    requires IsRun(states, actions) && i < |states| && key != ""
    ensures InProgress(states[i], key) == Registered(states[i].reg, key)
    ensures |InProgress(states[i], key)| <= 2
    ensures HoldingProcessSlots(states[i], key) <= InProgress(states[i], key)
    ensures |HoldingProcessSlots(states[i], key)| <= 2
  {
    InvInEveryRun(states, actions, i);
    var s := states[i];
    forall r | r in InProgress(s, key) ensures r in Registered(s.reg, key) {
      assert Tracked(s, r);
    }
    assert forall r :: r in Registered(s.reg, key) ==> EntryOk(s, key, r);
    assert HoldingProcessSlots(s, key) <= InProgress(s, key) by {
      assert forall r: ReadId :: r < |s.runs| ==> ReadOk(s.now, s.timing, s.runs[r]);
    }
    SubsetSize(HoldingProcessSlots(s, key), InProgress(s, key));
  }

  /** Everyone who shares a read is told what its worker found, for the path they
      asked for, and gives up no earlier than `listTimeout` after it began. */
  lemma SharersAgree(states: seq<State>, actions: seq<Action>, i: nat, w: WaiterId)
    requires IsRun(states, actions) && i < |states| && w < |states[i].waiters|
    ensures var waiter := states[i].waiters[w];
      && waiter.read < |states[i].runs|
      && var read := states[i].runs[waiter.read];
      && waiter.key == read.key != ""
      && (waiter.caller.Answered? ==> read.worker == Announced(waiter.caller.answer))
      && (waiter.caller.Answered? && read.starter.Answered? ==> waiter.caller == read.starter)
      && (waiter.caller == Expired ==> read.started + states[i].timing.listTimeout <= states[i].now)
  {
    InvInEveryRun(states, actions, i);
    assert WaiterOk(states[i], states[i].waiters[w]);
    assert ReadOk(states[i].now, states[i].timing, states[i].runs[states[i].waiters[w].read]);
  }

  /** An answered request holds no slot at all; one that expired gives the
      connection's slot back while its worker still holds the process's, and a
      worker still reading holds the process's slot always. */
  lemma SlotsFollowTheRead(states: seq<State>, actions: seq<Action>, i: nat, r: ReadId)
    requires IsRun(states, actions) && i < |states| && r < |states[i].runs|
    ensures var read := states[i].runs[r];
      && (read.starter.Answered? ==> !read.conn && !read.process)
      && (read.process <==> read.worker.Reading?)
      && (read.process && !read.conn ==>
            read.starter == Expired && read.started + states[i].timing.listTimeout <= states[i].now)
  {
    InvInEveryRun(states, actions, i);
    assert ReadOk(states[i].now, states[i].timing, states[i].runs[r]);
  }

  // ---------- What a request is told ----------

  /** An unsettled read of the path that began less than `staleAfter` ago. */
  ghost predicate Young(s: State, key: Key, r: ReadId) {
    r < |s.runs| && s.runs[r].key == key && Unsettled(s.runs[r]) && s.now - s.runs[r].started < s.timing.staleAfter
  }

  /** Two reads of the path are unsettled, both stale. */
  ghost predicate BothStuck(s: State, key: Key) {
    |InProgress(s, key)| == 2 && forall r :: r in InProgress(s, key) ==> !Young(s, key, r)
  }

  /** The registry tells exactly what the unsettled reads of the path are. */
  lemma RegistryTells(s: State, key: Key)
    requires Inv(s) && key != ""
    ensures InProgress(s, key) == Registered(s.reg, key)
    ensures |InProgress(s, key)|
         == (if key in s.reg.current then 1 else 0) + (if key in s.reg.abandoned then 1 else 0)
    ensures forall r: ReadId :: Young(s, key, r) ==> key in s.reg.current && s.reg.current[key] == r
  {
    forall r | r in InProgress(s, key) ensures r in Registered(s.reg, key) {
      assert Tracked(s, r);
    }
    assert forall r :: r in Registered(s.reg, key) ==> EntryOk(s, key, r);
    forall r: ReadId | Young(s, key, r) ensures key in s.reg.current && s.reg.current[key] == r {
      assert Tracked(s, r);
    }
  }

  lemma RequestTold(s: State, key: Key, s': State)
    requires Inv(s) && key != "" && Next(s, Request(key), s')
    ensures (exists r: ReadId :: Young(s, key, r)) <==>
              key in s.reg.current && s.now - s.runs[s.reg.current[key]].started < s.timing.staleAfter
    ensures BothStuck(s, key) <==>
              && key in s.reg.current && key in s.reg.abandoned
              && s.now - s.runs[s.reg.current[key]].started >= s.timing.staleAfter
  {
    RegistryTells(s, key);
    if key in s.reg.current {
      assert EntryOk(s, key, s.reg.current[key]);
      assert Young(s, key, s.reg.current[key])
        <==> s.now - s.runs[s.reg.current[key]].started < s.timing.staleAfter;
      assert s.reg.current[key] in InProgress(s, key);
    }
  }

  /** In every run a request for a path shares a read exactly when an unsettled one
      of the path is younger than `staleAfter`, and then that one, until the
      deadline counted from its start; it is told ETIMEDOUT at once exactly when two
      unsettled reads of the path are both stale; and it starts a read in every
      other case. */
  lemma RequestExactlyWhen(states: seq<State>, actions: seq<Action>, i: nat, key: Key)
    requires IsRun(states, actions) && i < |actions| && actions[i] == Request(key) && key != ""
    ensures var s, s' := states[i], states[i + 1];
      && (|s'.waiters| == |s.waiters| + 1 <==> exists r: ReadId :: Young(s, key, r))
      && (forall r: ReadId :: Young(s, key, r) ==>
            var until := s.runs[r].started + s.timing.listTimeout;
            s' == s.(waiters := s.waiters
                       + [Waiter(key, r, s.now, until, if until <= s.now then Expired else Waiting)]))
      && (s'.turnedAway == s.turnedAway + [key] <==> BothStuck(s, key))
      && (BothStuck(s, key) ==> s' == s.(turnedAway := s.turnedAway + [key]))
      && (|s'.runs| == |s.runs| + 1 <==> !BothStuck(s, key) && !exists r: ReadId :: Young(s, key, r))
      && (|s'.runs| == |s.runs| + 1 ==>
            && s'.runs == s.runs + [Read(key, s.now, Reading, true, true, Waiting)]
            && s'.waiters == s.waiters && s'.turnedAway == s.turnedAway)
  {
    InvInEveryRun(states, actions, i);
    assert Next(states[i], actions[i], states[i + 1]);
    RegistryTells(states[i], key);
    RequestTold(states[i], key, states[i + 1]);
  }

  /** A request that shares nothing always starts a read; and nothing but a request
      starts one, makes anybody wait or turns anybody away. */
  lemma OtherStepsStartNothing(states: seq<State>, actions: seq<Action>, i: nat)
    requires IsRun(states, actions) && i < |actions| && (actions[i].Request? ==> actions[i].key == "")
    ensures |states[i + 1].runs| == |states[i].runs| + if actions[i].Request? then 1 else 0
    ensures |states[i + 1].waiters| == |states[i].waiters| && states[i + 1].turnedAway == states[i].turnedAway
  {
    assert Next(states[i], actions[i], states[i + 1]);
  }

  /** Whoever waits joined a read that was younger than `staleAfter` when it asked. */
  lemma WaitersJoinedYoungReads(states: seq<State>, actions: seq<Action>, i: nat, w: WaiterId)
    requires IsRun(states, actions) && i < |states| && w < |states[i].waiters|
    ensures var waiter := states[i].waiters[w];
      && waiter.read < |states[i].runs|
      && waiter.asked - states[i].runs[waiter.read].started < states[i].timing.staleAfter
  {
    InvInEveryRun(states, actions, i);
    assert WaiterOk(states[i], states[i].waiters[w]);
  }

  /** A healthy read is never put aside: whatever is abandoned is at least
      `staleAfter` old, from the moment it is. */
  lemma OnlyStaleIsAbandoned(states: seq<State>, actions: seq<Action>, i: nat, key: Key)
    requires IsRun(states, actions) && i < |states| && key in states[i].reg.abandoned
    ensures var r := states[i].reg.abandoned[key];
      r < |states[i].runs| && states[i].now - states[i].runs[r].started >= states[i].timing.staleAfter
  {
    InvInEveryRun(states, actions, i);
    assert IsStale(states[i], states[i].reg.abandoned[key]);
  }
}
