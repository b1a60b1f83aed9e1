/** Any number of store objects, in any number of processes, working on one
    devices.json at the same time: `internal/state/state.go`, one step per gate,
    lock and file operation.  Each step may fail, and a process may die. */
module StoreTransactions {
  import opened Options
  import opened DeviceStore

  type ClientId = nat
  type StoreId = nat

  /** Where an operation is; `entry` is its place in the lock order. */
  datatype Pc =
    | Outside                                   // waiting for the gate
    | Gated                                     // has the gate, wants the file lock
    | InLock(entry: nat)
    | Edited(entry: nat, edit: Edit)            // has read the file
    | Renamed(entry: nat)                       // past the commit point
    | Leaving(entry: nat, wrote: bool, failed: bool)
    | Finished(ran: Option<nat>, wrote: bool, failed: bool)

  datatype Client = Client(store: StoreId, op: Op, now: int, pc: Pc)

  /** One lock acquisition, and whether its edit was committed. */
  datatype Entry = Entry(op: Op, now: int, committed: bool)

  datatype State = State(
    file: File,
    lock: Option<StoreId>,
    gates: map<StoreId, ClientId>,              // the gates that are taken
    closed: set<StoreId>,
    clients: map<ClientId, Client>,
    order: seq<Entry>)

  datatype Action =
    | Begin(c: ClientId, store: StoreId, op: Op, now: int)
    | GateTimeout(c: ClientId)
    | TakeGate(c: ClientId)
    | SeeClosed(c: ClientId)
    | LockFails(c: ClientId)
    | TakeLock(c: ClientId)
    | ReadFails(c: ClientId)
    | Read(c: ClientId)
    | EditDone(c: ClientId)                     // nothing to write, or refused
    | WriteFails(c: ClientId)
    | RenameFile(c: ClientId)
    | SyncDirectory(c: ClientId, fails: bool)
    | Unlock(c: ClientId, fails: bool, keepsLock: bool)
    | CloseStore(store: StoreId)
    | Crash(store: StoreId)

  ghost predicate At(s: State, c: ClientId) { c in s.clients }

  function Moved(s: State, c: ClientId, pc: Pc): map<ClientId, Client>
    requires c in s.clients
  {
    s.clients[c := s.clients[c].(pc := pc)]
  }

  ghost predicate Next(s: State, a: Action, s': State) {
    match a
    case Begin(c, store, op, now) =>
      c !in s.clients && s' == s.(clients := s.clients[c := Client(store, op, now, Outside)])
    case GateTimeout(c) =>
      && At(s, c) && s.clients[c].pc == Outside
      && s' == s.(clients := Moved(s, c, Finished(None, false, true)))
    case TakeGate(c) =>
      && At(s, c) && s.clients[c].pc == Outside && s.clients[c].store !in s.gates
      && s' == s.(clients := Moved(s, c, Gated), gates := s.gates[s.clients[c].store := c])
    case SeeClosed(c) =>
      && At(s, c) && s.clients[c].pc == Gated && s.clients[c].store in s.closed
      && s' == s.(clients := Moved(s, c, Finished(None, false, true)), gates := s.gates - {s.clients[c].store})
    case LockFails(c) =>
      && At(s, c) && s.clients[c].pc == Gated && s.clients[c].store !in s.closed
      && s' == s.(clients := Moved(s, c, Finished(None, false, true)), gates := s.gates - {s.clients[c].store})
    case TakeLock(c) =>
      && At(s, c) && s.clients[c].pc == Gated && s.clients[c].store !in s.closed
      && (s.lock == None || s.lock == Some(s.clients[c].store))
      && s' == s.(clients := Moved(s, c, InLock(|s.order|)), lock := Some(s.clients[c].store),
                  order := s.order + [Entry(s.clients[c].op, s.clients[c].now, false)])
    case ReadFails(c) =>
      && At(s, c) && s.clients[c].pc.InLock?
      && s' == s.(clients := Moved(s, c, Leaving(s.clients[c].pc.entry, false, true)))
    case Read(c) =>
      && At(s, c) && s.clients[c].pc.InLock? && s.file != Corrupt
      && s' == s.(clients := Moved(s, c, Edited(s.clients[c].pc.entry,
                    EditOf(s.clients[c].op, s.clients[c].now, Contents(s.file)))))
    case EditDone(c) =>
      && At(s, c) && s.clients[c].pc.Edited? && !s.clients[c].pc.edit.Write?
      && s' == s.(clients := Moved(s, c, Leaving(s.clients[c].pc.entry, false, s.clients[c].pc.edit.Refuse?)))
    case WriteFails(c) =>
      && At(s, c) && s.clients[c].pc.Edited? && s.clients[c].pc.edit.Write?
      && s' == s.(clients := Moved(s, c, Leaving(s.clients[c].pc.entry, false, true)))
    case RenameFile(c) =>
      && At(s, c) && s.clients[c].pc.Edited? && s.clients[c].pc.edit.Write?
      && s.clients[c].pc.entry < |s.order|
      && s' == s.(clients := Moved(s, c, Renamed(s.clients[c].pc.entry)),
                  file := Holds(s.clients[c].pc.edit.devices),
                  order := s.order[s.clients[c].pc.entry := s.order[s.clients[c].pc.entry].(committed := true)])
    case SyncDirectory(c, fails) =>
      && At(s, c) && s.clients[c].pc.Renamed?
      && s' == s.(clients := Moved(s, c, Leaving(s.clients[c].pc.entry, true, fails)))
    case Unlock(c, fails, keepsLock) =>
      && At(s, c) && s.clients[c].pc.Leaving? && (keepsLock ==> fails)
      && s' == s.(clients := Moved(s, c, Finished(Some(s.clients[c].pc.entry), s.clients[c].pc.wrote,
                                                  s.clients[c].pc.failed || fails)),
                  lock := if keepsLock then s.lock else None,
                  gates := s.gates - {s.clients[c].store})
    case CloseStore(store) =>
      && store !in s.gates
      && s' == s.(closed := s.closed + {store}, lock := if s.lock == Some(store) then None else s.lock)
    case Crash(store) =>
      s' == s.(clients := map c | c in s.clients && s.clients[c].store != store :: s.clients[c],
               gates := s.gates - {store},
               lock := if s.lock == Some(store) then None else s.lock)
  }

  // ---------- The invariant ----------

  predicate HasLock(pc: Pc) {
    pc.InLock? || pc.Edited? || pc.Renamed? || pc.Leaving?
  }

  predicate HasGate(pc: Pc) { HasLock(pc) || pc.Gated? }

  /** The file after one entry, if it is committed. */
  function Applied(file: File, e: Entry): File {
    var edit := EditOf(e.op, e.now, Contents(file));
    if e.committed && edit.Write? then Holds(edit.devices) else file
  }

  /** The file after the committed ones of the first `k` entries, run one after the
      other. */
  function After(file: File, order: seq<Entry>, k: nat): File
    requires k <= |order|
  {
    if k == 0 then file else Applied(After(file, order, k - 1), order[k - 1])
  }

  function Serial(file: File, order: seq<Entry>): File { After(file, order, |order|) }

  /** Entry `k`, if committed, had something to write where it ran. */
  ghost predicate Wrote(file: File, order: seq<Entry>, k: nat)
    requires k < |order|
  {
    order[k].committed ==> EditOf(order[k].op, order[k].now, Contents(After(file, order, k))).Write?
  }

  ghost predicate EachWrote(file: File, order: seq<Entry>) {
    forall k: nat {:trigger Wrote(file, order, k)} :: k < |order| ==> Wrote(file, order, k)
  }

  /** What a call of `Store.Locked` leaves on disk is what its entry, committed or
      not, applies to the file it found. */
  lemma LockedIsOneEntry(
    op: Op, now: int, faults: Faults, closed: bool, before: File, after: File, err: Option<Error>)
    requires Outcome(op, now, faults, closed, before, after, err)
    ensures var e := Entry(op, now, Committed(op, now, faults, closed, before).Some?);
      after == Applied(before, e) == Serial(before, [e]) && EachWrote(before, [e])
  {
    var e := Entry(op, now, Committed(op, now, faults, closed, before).Some?);
    assert After(before, [e], 1) == Applied(After(before, [e], 0), [e][0]);
    assert Wrote(before, [e], 0);
  }

  lemma {:induction false} SamePrefix(file: File, order: seq<Entry>, other: seq<Entry>, k: nat)
    requires k <= |order| && k <= |other| && forall i :: 0 <= i < k ==> order[i] == other[i]
    ensures After(file, order, k) == After(file, other, k)
  {
    if k > 0 {
      SamePrefix(file, order, other, k - 1);
      assert order[k - 1] == other[k - 1];
    }
  }

  /** Entries that stay as they are wrote what they wrote. */
  lemma SamePrefixWrote(file: File, order: seq<Entry>, other: seq<Entry>, n: nat)
    requires n <= |order| && n <= |other| && forall i :: 0 <= i < n ==> order[i] == other[i]
    requires EachWrote(file, order)
    ensures forall k: nat {:trigger Wrote(file, other, k)} :: k < n ==> Wrote(file, other, k)
  {
    forall k: nat | k < n ensures Wrote(file, other, k) {
      SamePrefix(file, order, other, k);
      assert Wrote(file, order, k);
    }
  }

  /** What holds of an operation wherever it is. */
  ghost predicate ClientOk(s: State, c: ClientId)
    requires c in s.clients
  {
    var cl := s.clients[c];
    && (HasGate(cl.pc) ==> cl.store in s.gates && s.gates[cl.store] == c)
    && (HasLock(cl.pc) ==>
          && s.lock == Some(cl.store)
          && cl.pc.entry == |s.order| - 1
          && s.order[cl.pc.entry].op == cl.op && s.order[cl.pc.entry].now == cl.now
          && s.order[cl.pc.entry].committed == (cl.pc.Renamed? || (cl.pc.Leaving? && cl.pc.wrote)))
    && (cl.pc.Edited? ==> s.file != Corrupt && cl.pc.edit == EditOf(cl.op, cl.now, Contents(s.file)))
    && (cl.pc.Finished? ==>
          match cl.pc.ran
          case None => !cl.pc.wrote && cl.pc.failed
          case Some(e) => e < |s.order| && s.order[e].committed == cl.pc.wrote
                          && s.order[e].op == cl.op && s.order[e].now == cl.now)
  }

  /** The lock acquisition an operation made, if any. */
  function EntryOf(pc: Pc): Option<nat> {
    if HasLock(pc) then Some(pc.entry) else if pc.Finished? then pc.ran else None
  }

  ghost predicate Inv(initial: File, s: State) {
    && s.file == Serial(initial, s.order) && EachWrote(initial, s.order)
    && (forall c :: c in s.clients ==> ClientOk(s, c))
    && (forall c, d :: c in s.clients && d in s.clients && c != d && EntryOf(s.clients[c].pc).Some? ==>
          EntryOf(s.clients[c].pc) != EntryOf(s.clients[d].pc))
    && (forall store :: store in s.gates ==>
          && s.gates[store] in s.clients
          && s.clients[s.gates[store]].store == store && HasGate(s.clients[s.gates[store]].pc))
  }

  lemma EnteringKeepsFile(file: File, order: seq<Entry>, e: Entry)
    requires EachWrote(file, order) && !e.committed
    ensures Serial(file, order + [e]) == Serial(file, order) && EachWrote(file, order + [e])
  {
    SamePrefix(file, order, order + [e], |order|);
    SamePrefixWrote(file, order, order + [e], |order|);
    assert Wrote(file, order + [e], |order|);
  }

  /** Committing the last entry runs its edit. */
  lemma CommittingRunsEdit(file: File, order: seq<Entry>, e: Entry)
    requires EachWrote(file, order) && order != [] && e.committed && !order[|order| - 1].committed
    requires EditOf(e.op, e.now, Contents(Serial(file, order))).Write?
    ensures var committed := order[|order| - 1 := e];
      Serial(file, committed) == Applied(Serial(file, order), e) && EachWrote(file, committed)
  {
    var n := |order| - 1;
    SamePrefix(file, order, order[n := e], n);
    SamePrefixWrote(file, order, order[n := e], n);
    assert Wrote(file, order[n := e], n);
  }

  lemma StepKeepsFile(initial: File, s: State, a: Action, s': State)
    requires Inv(initial, s) && Next(s, a, s')
    ensures s'.file == Serial(initial, s'.order) && EachWrote(initial, s'.order)
  {
    match a
    case TakeLock(c) => EnteringKeepsFile(initial, s.order, Entry(s.clients[c].op, s.clients[c].now, false));
    case RenameFile(c) =>
      assert ClientOk(s, c);
      CommittingRunsEdit(initial, s.order, s.order[s.clients[c].pc.entry].(committed := true));
    case _ => assert s'.order == s.order && s'.file == s.file;
  }

  lemma GatesFrame(s: State, a: Action, s': State, store: StoreId)
    requires Next(s, a, s') && store in s'.gates
    ensures (store in s.gates && s'.gates[store] == s.gates[store]) ||
            (a.TakeGate? && At(s, a.c) && s.clients[a.c].store == store && s'.gates[store] == a.c)
    ensures a.Crash? ==> a.store != store
    ensures (a.SeeClosed? || a.LockFails? || a.Unlock?) && At(s, a.c) ==> s.clients[a.c].store != store
  {}

  /** The operation that takes the step, if it is one operation's. */
  function Actor(a: Action): Option<ClientId> {
    if a.CloseStore? || a.Crash? then None else Some(a.c)
  }

  /** What a step leaves of the other operations. */
  lemma OthersStay(s: State, a: Action, s': State, c: ClientId)
    requires Next(s, a, s') && c in s'.clients && Actor(a) != Some(c)
    ensures c in s.clients && s'.clients[c] == s.clients[c]
  {}

  lemma OthersSurvive(s: State, a: Action, s': State, c: ClientId)
    requires Next(s, a, s') && c in s.clients && Actor(a) != Some(c)
    requires a.Crash? ==> a.store != s.clients[c].store
    ensures c in s'.clients && s'.clients[c] == s.clients[c]
  {}

  lemma ActorKeepsGate(s: State, a: Action, s': State, c: ClientId)
    requires Next(s, a, s') && Actor(a) == Some(c) && c in s.clients && (HasGate(s.clients[c].pc) || a.TakeGate?)
    requires !a.SeeClosed? && !a.LockFails? && !a.Unlock?
    ensures c in s'.clients && s'.clients[c].store == s.clients[c].store && HasGate(s'.clients[c].pc)
  {}

  lemma StepKeepsGates(initial: File, s: State, a: Action, s': State, store: StoreId)
    requires Inv(initial, s) && Next(s, a, s') && store in s'.gates
    ensures s'.gates[store] in s'.clients
    ensures s'.clients[s'.gates[store]].store == store && HasGate(s'.clients[s'.gates[store]].pc)
  {
    GatesFrame(s, a, s', store);
    var c := s'.gates[store];
    if Actor(a) == Some(c) {
      ActorKeepsGate(s, a, s', c);
    } else {
      OthersSurvive(s, a, s', c);
    }
  }

  /** While an operation has the lock no other one touches the file, the lock or
      the order. */
  lemma LockExcludesOthers(initial: File, s: State, a: Action, s': State, c: ClientId)
    requires Inv(initial, s) && Next(s, a, s') && c in s'.clients && Actor(a) != Some(c) && c in s.clients
    requires HasLock(s.clients[c].pc)
    ensures s'.lock == s.lock && s'.order == s.order && s'.file == s.file
  {
    assert ClientOk(s, c);
    if Actor(a).Some? && At(s, Actor(a).value) {
      assert ClientOk(s, Actor(a).value);
    }
  }

  /** No other operation takes its gate. */
  lemma GateStays(initial: File, s: State, a: Action, s': State, c: ClientId)
    requires Inv(initial, s) && Next(s, a, s') && c in s'.clients && Actor(a) != Some(c) && c in s.clients
    requires HasGate(s.clients[c].pc)
    ensures s.clients[c].store in s'.gates && s'.gates[s.clients[c].store] == c
  {
    assert ClientOk(s, c);
    if Actor(a).Some? && At(s, Actor(a).value) {
      assert ClientOk(s, Actor(a).value);
    }
  }

  /** Only the operation itself changes its entry. */
  lemma EntryStays(initial: File, s: State, a: Action, s': State, c: ClientId)
    requires Inv(initial, s) && Next(s, a, s') && c in s'.clients && Actor(a) != Some(c) && c in s.clients
    requires EntryOf(s.clients[c].pc).Some?
    ensures var e := EntryOf(s.clients[c].pc).value; e < |s.order| && e < |s'.order| && s'.order[e] == s.order[e]
  {
    assert ClientOk(s, c);
    if a.RenameFile? {
      assert ClientOk(s, a.c);
    }
  }

  lemma OtherOk(s: State, s': State, c: ClientId)
    requires c in s.clients && ClientOk(s, c) && c in s'.clients && s'.clients[c] == s.clients[c]
    requires HasLock(s.clients[c].pc) ==> s'.lock == s.lock && s'.order == s.order && s'.file == s.file
    requires HasGate(s.clients[c].pc) ==> s.clients[c].store in s'.gates && s'.gates[s.clients[c].store] == c
    requires EntryOf(s.clients[c].pc).Some? ==>
               var e := EntryOf(s.clients[c].pc).value; e < |s.order| && e < |s'.order| && s'.order[e] == s.order[e]
    ensures ClientOk(s', c)
  {}

  lemma StepKeepsOthers(initial: File, s: State, a: Action, s': State, c: ClientId)
    requires Inv(initial, s) && Next(s, a, s') && c in s'.clients && Actor(a) != Some(c)
    ensures ClientOk(s', c)
  {
    OthersStay(s, a, s', c);
    assert ClientOk(s, c);
    if HasLock(s.clients[c].pc) {
      LockExcludesOthers(initial, s, a, s', c);
    }
    if HasGate(s.clients[c].pc) {
      GateStays(initial, s, a, s', c);
    }
    if EntryOf(s.clients[c].pc).Some? {
      EntryStays(initial, s, a, s', c);
    }
    OtherOk(s, s', c);
  }

  lemma LockedStepOk(s: State, a: Action, s': State, c: ClientId)
    requires Next(s, a, s') && Actor(a) == Some(c) && c in s.clients && HasLock(s.clients[c].pc) && ClientOk(s, c)
    ensures c in s'.clients && ClientOk(s', c)
  {}

  lemma EnteringStepOk(s: State, a: Action, s': State, c: ClientId)
    requires Next(s, a, s') && Actor(a) == Some(c) && (c in s.clients ==> !HasLock(s.clients[c].pc) && ClientOk(s, c))
    ensures c in s'.clients && ClientOk(s', c)
  {}

  lemma StepKeepsActor(initial: File, s: State, a: Action, s': State, c: ClientId)
    requires Inv(initial, s) && Next(s, a, s') && Actor(a) == Some(c)
    ensures c in s'.clients && ClientOk(s', c)
  {
    if c in s.clients && HasLock(s.clients[c].pc) {
      LockedStepOk(s, a, s', c);
    } else {
      EnteringStepOk(s, a, s', c);
    }
  }

  /** An operation gets its entry when it takes the lock, and keeps it. */
  lemma ActorEntry(s: State, a: Action, s': State, c: ClientId)
    requires Next(s, a, s') && Actor(a) == Some(c)
    ensures c in s'.clients
    ensures EntryOf(s'.clients[c].pc).Some? ==>
              a.TakeLock? || (c in s.clients && EntryOf(s'.clients[c].pc) == EntryOf(s.clients[c].pc))
    ensures a.TakeLock? ==> EntryOf(s'.clients[c].pc) == Some(|s.order|)
  {}

  lemma StepKeepsInv(initial: File, s: State, a: Action, s': State)
    requires Inv(initial, s) && Next(s, a, s')
    ensures Inv(initial, s')
  {
    StepKeepsFile(initial, s, a, s');
    forall c | c in s'.clients ensures ClientOk(s', c) {
      if Actor(a) == Some(c) {
        StepKeepsActor(initial, s, a, s', c);
      } else {
        StepKeepsOthers(initial, s, a, s', c);
      }
    }
    forall c, d | c in s'.clients && d in s'.clients && c != d && EntryOf(s'.clients[c].pc).Some?
      ensures EntryOf(s'.clients[c].pc) != EntryOf(s'.clients[d].pc)
    {
      StepKeepsEntries(initial, s, a, s', c, d);
    }
    forall store | store in s'.gates
      ensures s'.gates[store] in s'.clients
      ensures s'.clients[s'.gates[store]].store == store && HasGate(s'.clients[s'.gates[store]].pc)
    {
      StepKeepsGates(initial, s, a, s', store);
    }
  }

  lemma StepKeepsEntries(initial: File, s: State, a: Action, s': State, c: ClientId, d: ClientId)
    requires Inv(initial, s) && Next(s, a, s')
    requires c in s'.clients && d in s'.clients && c != d && EntryOf(s'.clients[c].pc).Some?
    ensures EntryOf(s'.clients[c].pc) != EntryOf(s'.clients[d].pc)
  {
    if Actor(a) == Some(c) {
      ActorEntry(s, a, s', c);
      OthersStay(s, a, s', d);
      assert ClientOk(s, d);
    } else {
      OthersStay(s, a, s', c);
      assert ClientOk(s, c);
      if Actor(a) == Some(d) {
        ActorEntry(s, a, s', d);
      } else {
        OthersStay(s, a, s', d);
      }
    }
  }

  // ---------- Whole runs ----------

  ghost predicate Start(file: File, s: State) {
    s == State(file, None, map[], {}, map[], [])
  }

  ghost predicate IsRun(initial: File, states: seq<State>, actions: seq<Action>) {
    && |states| == |actions| + 1
    && Start(initial, states[0])
    && forall i {:trigger actions[i]} :: 0 <= i < |actions| ==> Next(states[i], actions[i], states[i + 1])
  }

  lemma {:induction false} InvInEveryRun(initial: File, states: seq<State>, actions: seq<Action>, i: nat)
    requires IsRun(initial, states, actions) && i < |states|
    ensures Inv(initial, states[i])
  {
    if i > 0 {
      InvInEveryRun(initial, states, actions, i - 1);
      StepKeepsInv(initial, states[i - 1], actions[i - 1], states[i]);
    }
  }

  /** Mutual exclusion: in every state of every run the file lock and the gates
      together let at most one operation in, of whichever store and process. */
  lemma OneAtATime(
    initial: File, states: seq<State>, actions: seq<Action>, i: nat, c: ClientId, d: ClientId)
    requires IsRun(initial, states, actions) && i < |states|
    requires c in states[i].clients && HasLock(states[i].clients[c].pc)
    requires d in states[i].clients && HasLock(states[i].clients[d].pc)
    ensures c == d
  {
    InvInEveryRun(initial, states, actions, i);
    assert ClientOk(states[i], c) && ClientOk(states[i], d);
  }

  /** Whatever the interleaving, the faults and the crashes, devices.json is what
      the committed operations leave when run alone, one after the other, in
      the order they took the lock; and what an operation reports, that it wrote
      or not, is what became of its entry in that order. */
  lemma DevicesFileIsSerial(
    initial: File, states: seq<State>, actions: seq<Action>, i: nat, c: ClientId)
    requires IsRun(initial, states, actions) && i < |states|
    ensures states[i].file == Serial(initial, states[i].order) && EachWrote(initial, states[i].order)
    ensures c in states[i].clients && states[i].clients[c].pc.Finished? ==>
              var cl := states[i].clients[c];
              match cl.pc.ran
              case None => !cl.pc.wrote && cl.pc.failed
              case Some(e) => e < |states[i].order| && states[i].order[e] == Entry(cl.op, cl.now, cl.pc.wrote)
  {
    InvInEveryRun(initial, states, actions, i);
    if c in states[i].clients {
      assert ClientOk(states[i], c);
    }
  }

  lemma StepKeepsCommitted(initial: File, s: State, a: Action, s': State, e: nat)
    requires Inv(initial, s) && Next(s, a, s') && e < |s.order| && s.order[e].committed
    ensures e < |s'.order| && s'.order[e] == s.order[e]
  {}

  lemma RunStepKeepsCommitted(initial: File, states: seq<State>, actions: seq<Action>, j: nat, e: nat)
    requires IsRun(initial, states, actions) && j < |actions|
    requires e < |states[j].order| && states[j].order[e].committed
    ensures e < |states[j + 1].order| && states[j + 1].order[e] == states[j].order[e]
  {
    InvInEveryRun(initial, states, actions, j);
    StepKeepsCommitted(initial, states[j], actions[j], states[j + 1], e);
  }

  /** What is committed stays committed: later steps only extend the order, and
      only the operation that holds the lock may still commit its own entry. */
  lemma {:induction false} CommittedForGood(
    initial: File, states: seq<State>, actions: seq<Action>, i: nat, j: nat, e: nat)
    requires IsRun(initial, states, actions) && i <= j < |states|
    requires e < |states[i].order| && states[i].order[e].committed
    ensures e < |states[j].order| && states[j].order[e] == states[i].order[e]
    decreases j
  {
    if i < j {
      CommittedForGood(initial, states, actions, i, j - 1, e);
      RunStepKeepsCommitted(initial, states, actions, j - 1, e);
    }
  }

  predicate Adds(e: Entry, id: string) { e.committed && e.op.AddTrusted? && e.op.id == id }

  /** One transaction keeps the file readable and its ids distinct, and brings an
      id in only by adding it. */
  lemma AppliedAddsOnlyByAddTrusted(file: File, e: Entry, id: string)
    requires file != Corrupt && Distinct(Contents(file))
    ensures Applied(file, e) != Corrupt && Distinct(Contents(Applied(file, e)))
    ensures !Known(Contents(file), id) && !Adds(e, id) ==> !Known(Contents(Applied(file, e)), id)
  {
    var edit := EditOf(e.op, e.now, Contents(file));
    if e.committed && edit.Write? {
      EditOfIds(e.op, e.now, Contents(file), edit.devices);
      SameIdsSameKnown(Contents(file), edit.devices, id);
    }
  }

  /** A readable file with distinct ids. */
  ghost predicate Sound(file: File) { file != Corrupt && Distinct(Contents(file)) }

  ghost predicate Out(file: File, id: string) { !Known(Contents(file), id) }

  lemma AfterKeepsSound(file: File, order: seq<Entry>, k: nat)
    requires k < |order| && Sound(After(file, order, k))
    ensures Sound(After(file, order, k + 1))
  {
    AppliedAddsOnlyByAddTrusted(After(file, order, k), order[k], "");
  }

  lemma AfterStep(file: File, order: seq<Entry>, k: nat, id: string)
    requires k < |order| && Sound(After(file, order, k))
    ensures Out(After(file, order, k), id) && !Adds(order[k], id) ==> Out(After(file, order, k + 1), id)
  {
    AppliedAddsOnlyByAddTrusted(After(file, order, k), order[k], id);
  }

  lemma {:induction false} ReplayKeepsSound(file: File, order: seq<Entry>, k: nat)
    requires Sound(file) && k <= |order|
    ensures Sound(After(file, order, k))
  {
    if k > 0 {
      ReplayKeepsSound(file, order, k - 1);
      AfterKeepsSound(file, order, k - 1);
    }
  }

  ghost predicate NoneAdds(order: seq<Entry>, n: nat, k: nat, id: string)
    requires k <= |order|
  {
    forall i :: n <= i < k ==> !Adds(order[i], id)
  }

  lemma {:induction false} StaysOut(file: File, order: seq<Entry>, n: nat, k: nat, id: string)
    requires Sound(file) && n <= k <= |order| && Out(After(file, order, n), id) && NoneAdds(order, n, k, id)
    ensures Out(After(file, order, k), id)
    decreases k
  {
    if n < k {
      assert !Adds(order[k - 1], id);
      ReplayKeepsSound(file, order, k - 1);
      StaysOut(file, order, n, k - 1, id);
      AfterStep(file, order, k - 1, id);
    }
  }

  /** Replaying transactions keeps the file readable and its ids distinct; an id
      that is out after the first `n` stays out until one that adds it. */
  lemma ReplayAddsOnlyByAddTrusted(file: File, order: seq<Entry>, n: nat, k: nat, id: string)
    requires Sound(file) && n <= k <= |order|
    ensures Sound(After(file, order, k))
    ensures Out(After(file, order, n), id) && NoneAdds(order, n, k, id) ==> Out(After(file, order, k), id)
  {
    ReplayKeepsSound(file, order, k);
    if Out(After(file, order, n), id) && NoneAdds(order, n, k, id) {
      StaysOut(file, order, n, k, id);
    }
  }

  /** Once the first `n` transactions of the lock order leave an id out of the
      file, as a revocation does, it stays out in every later state of the run
      until a committed AddTrusted of that very id; and ids stay distinct. */
  lemma RevokedStaysRevoked(
    initial: File, states: seq<State>, actions: seq<Action>, i: nat, n: nat, id: string)
    requires IsRun(initial, states, actions) && i < |states| && n <= |states[i].order|
    requires Sound(initial) && Out(After(initial, states[i].order, n), id)
    requires NoneAdds(states[i].order, n, |states[i].order|, id)
    ensures Out(states[i].file, id) && Sound(states[i].file)
  {
    InvInEveryRun(initial, states, actions, i);
    ReplayAddsOnlyByAddTrusted(initial, states[i].order, n, |states[i].order|, id);
  }

  // ---------- An undisturbed operation ----------

  ghost predicate Leads(s: State, actions: seq<Action>, s': State)
    decreases |actions|
  {
    if actions == [] then s' == s else exists mid :: Next(s, actions[0], mid) && Leads(mid, actions[1..], s')
  }

  lemma StepThen(s: State, a: Action, mid: State, actions: seq<Action>, s': State)
    requires Next(s, a, mid) && Leads(mid, actions, s')
    ensures Leads(s, [a] + actions, s')
  {
    assert ([a] + actions)[1..] == actions;
  }

  function Placed(s: State, c: ClientId, pc: Pc): State
    requires c in s.clients
  {
    s.(clients := Moved(s, c, pc))
  }

  lemma UnlockLeads(s: State, c: ClientId) returns (s': State)
    requires c in s.clients && s.clients[c].pc.Leaving?
    ensures Leads(s, [Unlock(c, false, false)] + [], s')
    ensures s'.file == s.file && s'.order == s.order && s'.lock == None && s'.gates == s.gates - {s.clients[c].store}
    ensures var pc := s.clients[c].pc;
      s'.clients == Moved(s, c, Finished(Some(pc.entry), pc.wrote, pc.failed))
  {
    var pc := s.clients[c].pc;
    s' := Placed(s, c, Finished(Some(pc.entry), pc.wrote, pc.failed)).(
      lock := None, gates := s.gates - {s.clients[c].store});
    assert Next(s, Unlock(c, false, false), s');
    StepThen(s, Unlock(c, false, false), s', [], s');
  }

  /** From the edit to the end: what there is to write is in the file. */
  lemma EditLeads(s: State, c: ClientId) returns (actions: seq<Action>, s': State)
    requires c in s.clients && s.clients[c].pc.Edited? && s.clients[c].pc.entry < |s.order|
    ensures Leads(s, actions, s') && s'.lock == None && s'.gates == s.gates - {s.clients[c].store}
    ensures var entry, edit := s.clients[c].pc.entry, s.clients[c].pc.edit;
      && c in s'.clients && s'.clients[c].pc == Finished(Some(entry), edit.Write?, edit.Refuse?)
      && s'.file == (if edit.Write? then Holds(edit.devices) else s.file)
      && s'.order == (if edit.Write? then s.order[entry := s.order[entry].(committed := true)] else s.order)
  {
    var entry, edit := s.clients[c].pc.entry, s.clients[c].pc.edit;
    if edit.Write? {
      var renamed := Placed(s, c, Renamed(entry)).(
        file := Holds(edit.devices), order := s.order[entry := s.order[entry].(committed := true)]);
      var synced := Placed(renamed, c, Leaving(entry, true, false));
      s' := UnlockLeads(synced, c);
      assert Next(renamed, SyncDirectory(c, false), synced);
      StepThen(renamed, SyncDirectory(c, false), synced, [Unlock(c, false, false)] + [], s');
      assert Next(s, RenameFile(c), renamed);
      StepThen(s, RenameFile(c), renamed, [SyncDirectory(c, false)] + ([Unlock(c, false, false)] + []), s');
      actions := [RenameFile(c)] + ([SyncDirectory(c, false)] + ([Unlock(c, false, false)] + []));
    } else {
      var done := Placed(s, c, Leaving(entry, false, edit.Refuse?));
      s' := UnlockLeads(done, c);
      assert Next(s, EditDone(c), done);
      StepThen(s, EditDone(c), done, [Unlock(c, false, false)] + [], s');
      actions := [EditDone(c)] + ([Unlock(c, false, false)] + []);
    }
  }

  /** From the gate to the end. */
  lemma GatedLeads(s: State, c: ClientId) returns (actions: seq<Action>, s': State)
    requires c in s.clients && s.clients[c].pc == Gated && s.clients[c].store !in s.closed
    requires s.lock == None && s.file != Corrupt
    ensures Leads(s, actions, s') && s'.lock == None && s'.gates == s.gates - {s.clients[c].store}
    ensures var op, now := s.clients[c].op, s.clients[c].now;
      var edit := EditOf(op, now, Contents(s.file));
      && s'.file == (if edit.Write? then Holds(edit.devices) else s.file)
      && s'.order == s.order + [Entry(op, now, edit.Write?)]
      && c in s'.clients && s'.clients[c].pc == Finished(Some(|s.order|), edit.Write?, edit.Refuse?)
  {
    var cl := s.clients[c];
    var locked := Placed(s, c, InLock(|s.order|)).(
      lock := Some(cl.store), order := s.order + [Entry(cl.op, cl.now, false)]);
    var edited := Placed(locked, c, Edited(|s.order|, EditOf(cl.op, cl.now, Contents(s.file))));
    var rest;
    rest, s' := EditLeads(edited, c);
    assert Next(locked, Read(c), edited);
    StepThen(locked, Read(c), edited, rest, s');
    assert Next(s, TakeLock(c), locked);
    StepThen(s, TakeLock(c), locked, [Read(c)] + rest, s');
    actions := [TakeLock(c)] + ([Read(c)] + rest);
  }

  /** Nothing in the protocol stands in the way of an operation that is alone: while
      its store is open, its gate and the file lock are free and the file can be
      read, its steps lead to its full effect, its true answer and a free lock. */
  lemma UndisturbedOperation(s: State, c: ClientId, store: StoreId, op: Op, now: int)
      returns (actions: seq<Action>, s': State)
    requires c !in s.clients && store !in s.gates && store !in s.closed && s.lock == None && s.file != Corrupt
    ensures Leads(s, actions, s') && s'.lock == None && s'.gates == s.gates
    ensures var edit := EditOf(op, now, Contents(s.file));
      && s'.file == Applied(s.file, Entry(op, now, true))
      && s'.order == s.order + [Entry(op, now, edit.Write?)]
      && c in s'.clients && s'.clients[c].pc == Finished(Some(|s.order|), edit.Write?, edit.Refuse?)
  {
    var begun := s.(clients := s.clients[c := Client(store, op, now, Outside)]);
    var gated := Placed(begun, c, Gated).(gates := s.gates[store := c]);
    var rest;
    rest, s' := GatedLeads(gated, c);
    assert Next(begun, TakeGate(c), gated);
    StepThen(begun, TakeGate(c), gated, rest, s');
    assert Next(s, Begin(c, store, op, now), begun);
    StepThen(s, Begin(c, store, op, now), begun, [TakeGate(c)] + rest, s');
    assert gated.gates - {store} == s.gates;
    actions := [Begin(c, store, op, now)] + ([TakeGate(c)] + rest);
  }
}
