/** Readers, idle monitors and commit workers of any number of connections
    contending for uploads and for one quota: `internal/bridge/blob.go`, one step
    per locked region, file operation and settlement. */
module BlobRuns {
  import opened ByteStrings
  import opened Options
  import opened BlobUploads

  datatype State = State(quota: Quota, conns: map<ConnId, Conn>, uploads: seq<Upload>)

  ghost predicate BeginStep(s: State, c: ConnId, size: nat, digest: Digest, s': State) {
    && c in s.conns && s.conns[c] == Conn(None, Idle)
    && s' == if Admits(s.quota, size)
             then State(Reserved(s.quota, size),
                        s.conns[c := Conn(None, Allocating(|s.uploads|))],
                        s.uploads + [NewUpload(c, size, digest)])
             else s
  }

  ghost predicate LeaveStep(s: State, c: ConnId, s': State) {
    c in s.conns && s.conns[c].reader == Idle && s' == s.(conns := s.conns[c := s.conns[c].(reader := Left)])
  }

  ghost predicate UploadStep(sha: Bytes -> Digest, s: State, a: Action, s': State)
    requires !a.Begin? && !a.Leave?
  {
    && a.u < |s.uploads|
    && var up := s.uploads[a.u];
    && up.conn in s.conns
    && var conn := s.conns[up.conn];
    && Enabled(sha, conn, a.u, up, a)
    && s' == State(QuotaAfter(s.quota, up, a),
                   s.conns[up.conn := ConnAfter(conn, a.u, up, a)],
                   s.uploads[a.u := After(conn, a.u, up, a)])
  }

  ghost predicate Next(sha: Bytes -> Digest, s: State, a: Action, s': State) {
    match a
    case Begin(c, size, digest) => BeginStep(s, c, size, digest, s')
    case Leave(c) => LeaveStep(s, c, s')
    case _ => UploadStep(sha, s, a, s')
  }

  ghost predicate Init(s: State) {
    && s.uploads == [] && 0 <= s.quota.maxUploads && 0 <= s.quota.maxBytes
    && s.quota.active == 0 && s.quota.reserved == 0
    && forall c :: c in s.conns ==> s.conns[c] == Conn(None, Idle)
  }

  ghost predicate IsRun(sha: Bytes -> Digest, states: seq<State>, actions: seq<Action>) {
    && |states| == |actions| + 1
    && Init(states[0])
    && forall i {:trigger actions[i]} :: 0 <= i < |actions| ==> Next(sha, states[i], actions[i], states[i + 1])
  }

  // ---------- The accounts ----------

  predicate Unsettled(up: Upload) { up.reservation != GivenBack }

  /** The reservations not cleanly settled: how many, and of how many bytes. */
  function Outstanding(uploads: seq<Upload>): nat {
    if uploads == [] then 0
    else Outstanding(uploads[..|uploads| - 1]) + if Unsettled(uploads[|uploads| - 1]) then 1 else 0
  }

  function OutstandingBytes(uploads: seq<Upload>): nat {
    if uploads == [] then 0
    else
      var last := uploads[|uploads| - 1];
      OutstandingBytes(uploads[..|uploads| - 1]) + if Unsettled(last) then last.size else 0
  }

  lemma {:induction false} AccountsUpdate(uploads: seq<Upload>, u: UploadId, up: Upload)
    requires u < |uploads| && up.size == uploads[u].size
    ensures Outstanding(uploads[u := up])
      == Outstanding(uploads) - (if Unsettled(uploads[u]) then 1 else 0) + (if Unsettled(up) then 1 else 0)
    ensures OutstandingBytes(uploads[u := up])
      == OutstandingBytes(uploads) - (if Unsettled(uploads[u]) then up.size else 0)
         + (if Unsettled(up) then up.size else 0)
  {
    var rest := uploads[..|uploads| - 1];
    if u < |rest| {
      AccountsUpdate(rest, u, up);
      assert uploads[u := up][..|rest|] == rest[u := up];
    } else {
      assert uploads[u := up][..|rest|] == rest;
    }
  }

  ghost predicate QuotaOk(q: Quota, uploads: seq<Upload>) {
    && q.active == Outstanding(uploads) <= q.maxUploads
    && q.reserved == OutstandingBytes(uploads) <= q.maxBytes
    && forall u: UploadId :: u < |uploads| && uploads[u].reservation == Stuck ==> q.broken
  }

  // ---------- One upload ----------

  /** The reservation is settled when, and only when, `finishOnce` or the failed
      allocation settles it. */
  ghost predicate SettledOnce(up: Upload) {
    && (up.reservation == Held <==> up.fin != Released && up.fin != Over)
    && up.settles == (if up.reservation == Held then 0 else 1)
  }

  /** How the upload, its connection and the reader of that connection name each
      other. */
  ghost predicate Registered(conn: Conn, u: UploadId, up: Upload) {
    && (up.monitor == Absent && up.fin != Over ==>
          conn == Conn(None, Allocating(u)) && up.fin == NotStarted && !up.finished)
    && (up.monitor == Absent ==>
          up.phase == Receiving && conn.reader != Failing(u) && !up.file.torn && up.file.acked == [])
    && (conn.reader == Allocating(u) ==> up.monitor == Absent && up.fin == NotStarted)
    && (up.monitor != Absent && up.fin != Over <==> conn.active == Some(u))
    && (conn.reader == Failing(u) ==> up.phase == Receiving)
  }

  /** Who is responsible for finishing the upload. */
  ghost predicate Owned(conn: Conn, u: UploadId, up: Upload) {
    && (up.phase == Receiving <==> up.committer == NoCommitter)
    && (up.fin == NotStarted && up.monitor != Absent && up.phase == Receiving ==>
          up.monitor == if up.finished then MonitorFinishing else Watching)
    && (up.fin == NotStarted && up.phase == Committing ==> !up.finished && up.committer != CommitterGone)
    && (up.monitor == MonitorFinishing ==> up.phase == Receiving && up.finished)
    && (up.fin == NotStarted ==> up.finisher == Nobody)
    && (up.monitor != Absent && up.fin !in {NotStarted, Over} ==> Finishing(conn, u, up, up.finisher))
    && (up.fin !in {NotStarted, Begun} && up.monitor != Absent ==> up.finished)
  }

  /** The file holds exactly the acknowledged chunks, unless a write tore it. */
  ghost predicate Recorded(conn: Conn, u: UploadId, up: Upload) {
    && up.file.hashed == Flatten(up.file.acked) && up.file.offset == |up.file.hashed| <= up.size
    && (!up.file.torn ==> up.file.bytes == up.file.hashed)
    && (up.file.torn ==> up.phase == Receiving && (conn.reader == Failing(u) || up.fin == Over))
    && (up.monitor != Absent && up.phase == Receiving && up.fin in {NotStarted, Begun, Marked} ==> up.file.isOpen)
  }

  ghost predicate Vetted(sha: Bytes -> Digest, up: Upload) {
    && (up.committer in {Verified, Attached} ==>
          up.file.offset == up.size && sha(up.file.hashed) == up.digest && !up.file.isOpen)
    && (up.committer in {NoCommitter, Checking, Verified} ==> up.dispatched == [])
    && |up.dispatched| <= 1
    && forall i :: 0 <= i < |up.dispatched| ==>
         && up.dispatched[i] == Flatten(up.file.acked)
         && |up.dispatched[i]| == up.size && sha(up.dispatched[i]) == up.digest
  }

  ghost predicate UploadOk(sha: Bytes -> Digest, conn: Conn, u: UploadId, up: Upload) {
    SettledOnce(up) && Registered(conn, u, up) && Owned(conn, u, up) && Recorded(conn, u, up) && Vetted(sha, up)
  }

  ghost predicate Inv(sha: Bytes -> Digest, s: State) {
    && QuotaOk(s.quota, s.uploads)
    && (forall u: UploadId :: u < |s.uploads| ==> s.uploads[u].conn in s.conns)
    && (forall u: UploadId :: u < |s.uploads| ==> UploadOk(sha, s.conns[s.uploads[u].conn], u, s.uploads[u]))
  }

  // ---------- Every step keeps it ----------

  lemma ActorSettles(sha: Bytes -> Digest, conn: Conn, u: UploadId, up: Upload, a: Action)
    requires UploadOk(sha, conn, u, up) && Enabled(sha, conn, u, up, a)
    ensures SettledOnce(After(conn, u, up, a))
  {}

  lemma ActorRegistered(sha: Bytes -> Digest, conn: Conn, u: UploadId, up: Upload, a: Action)
    requires UploadOk(sha, conn, u, up) && Enabled(sha, conn, u, up, a)
    ensures Registered(ConnAfter(conn, u, up, a), u, After(conn, u, up, a))
  {}

  lemma ActorOwned(sha: Bytes -> Digest, conn: Conn, u: UploadId, up: Upload, a: Action)
    requires UploadOk(sha, conn, u, up) && Enabled(sha, conn, u, up, a)
    ensures Owned(ConnAfter(conn, u, up, a), u, After(conn, u, up, a))
  {}

  predicate TouchesContents(a: Action) { a.Data? || a.TearWrite? }

  /** Which steps write, and which close the file. */
  lemma ContentsFrame(conn: Conn, u: UploadId, up: Upload, a: Action)
    ensures var up' := After(conn, u, up, a);
      && up'.size == up.size && up'.digest == up.digest
      && (!TouchesContents(a) ==> up'.file == up.file.(isOpen := up'.file.isOpen))
  {}

  lemma WriterRecorded(sha: Bytes -> Digest, conn: Conn, u: UploadId, up: Upload, a: Action)
    requires UploadOk(sha, conn, u, up) && Enabled(sha, conn, u, up, a) && TouchesContents(a)
    ensures Recorded(ConnAfter(conn, u, up, a), u, After(conn, u, up, a))
  {
    if a.Data? {
      assert (up.file.acked + [a.data])[..|up.file.acked|] == up.file.acked;
    }
  }

  lemma ActorRecorded(sha: Bytes -> Digest, conn: Conn, u: UploadId, up: Upload, a: Action)
    requires UploadOk(sha, conn, u, up) && Enabled(sha, conn, u, up, a)
    ensures Recorded(ConnAfter(conn, u, up, a), u, After(conn, u, up, a))
  {
    if TouchesContents(a) {
      WriterRecorded(sha, conn, u, up, a);
    } else {
      ContentsFrame(conn, u, up, a);
    }
  }

  lemma WriterVetted(sha: Bytes -> Digest, conn: Conn, u: UploadId, up: Upload, a: Action)
    requires UploadOk(sha, conn, u, up) && Enabled(sha, conn, u, up, a) && TouchesContents(a)
    ensures Vetted(sha, After(conn, u, up, a))
  {
    assert up.committer == NoCommitter && up.dispatched == [];
  }

  predicate MovesCommitter(a: Action) {
    a.Commit? || a.Verify? || a.Dispatch? || a.EndCommit? || a.CommitterReturns?
  }

  lemma CommitterVetted(sha: Bytes -> Digest, conn: Conn, u: UploadId, up: Upload, a: Action)
    requires UploadOk(sha, conn, u, up) && Enabled(sha, conn, u, up, a) && MovesCommitter(a)
    ensures Vetted(sha, After(conn, u, up, a))
  {}

  lemma ActorVetted(sha: Bytes -> Digest, conn: Conn, u: UploadId, up: Upload, a: Action)
    requires UploadOk(sha, conn, u, up) && Enabled(sha, conn, u, up, a)
    ensures Vetted(sha, After(conn, u, up, a))
  {
    if TouchesContents(a) {
      WriterVetted(sha, conn, u, up, a);
    } else if MovesCommitter(a) {
      CommitterVetted(sha, conn, u, up, a);
    } else {
      ContentsFrame(conn, u, up, a);
    }
  }

  lemma OtherOk(sha: Bytes -> Digest, conn: Conn, u: UploadId, up: Upload, a: Action, v: UploadId, other: Upload)
    requires UploadOk(sha, conn, u, up) && Enabled(sha, conn, u, up, a)
    requires u != v && UploadOk(sha, conn, v, other)
    ensures UploadOk(sha, ConnAfter(conn, u, up, a), v, other)
  {}

  lemma ActorOk(sha: Bytes -> Digest, conn: Conn, u: UploadId, up: Upload, a: Action)
    requires UploadOk(sha, conn, u, up) && Enabled(sha, conn, u, up, a)
    ensures UploadOk(sha, ConnAfter(conn, u, up, a), u, After(conn, u, up, a))
  {
    ActorSettles(sha, conn, u, up, a);
    ActorRegistered(sha, conn, u, up, a);
    ActorOwned(sha, conn, u, up, a);
    ActorRecorded(sha, conn, u, up, a);
    ActorVetted(sha, conn, u, up, a);
  }

  /** Only a settlement moves the reservation. */
  lemma ReservationFrame(conn: Conn, u: UploadId, up: Upload, a: Action)
    ensures var up' := After(conn, u, up, a);
      && up'.size == up.size && up'.conn == up.conn
      && (!a.AllocFails? && !a.Settle? ==> up'.reservation == up.reservation)
  {}

  /** The quota and the reservation of the upload move together. */
  lemma ActorMovesQuota(sha: Bytes -> Digest, q: Quota, conn: Conn, u: UploadId, up: Upload, a: Action)
    requires UploadOk(sha, conn, u, up) && Enabled(sha, conn, u, up, a)
    ensures var up' := After(conn, u, up, a);
      var q' := QuotaAfter(q, up, a);
      && up'.size == up.size && up'.conn == up.conn
      && q'.maxUploads == q.maxUploads && q'.maxBytes == q.maxBytes && (q.broken ==> q'.broken)
      && q'.active == q.active - (if Unsettled(up) then 1 else 0) + (if Unsettled(up') then 1 else 0)
      && q'.reserved == q.reserved - (if Unsettled(up) then up.size else 0) + (if Unsettled(up') then up.size else 0)
      && (Unsettled(up') ==> Unsettled(up))
      && (up'.reservation == Stuck ==> up.reservation == Stuck || q'.broken)
  {
    ReservationFrame(conn, u, up, a);
    if a.AllocFails? || a.Settle? {
      assert SettledOnce(up) && up.reservation == Held;
    } else {
      assert QuotaAfter(q, up, a) == q;
    }
  }

  lemma ReservingKeepsQuotaOk(q: Quota, uploads: seq<Upload>, c: ConnId, size: nat, digest: Digest)
    requires QuotaOk(q, uploads) && Admits(q, size)
    ensures QuotaOk(Reserved(q, size), uploads + [NewUpload(c, size, digest)])
  {
    assert (uploads + [NewUpload(c, size, digest)])[..|uploads|] == uploads;
  }

  lemma ActorKeepsQuotaOk(sha: Bytes -> Digest, q: Quota, uploads: seq<Upload>, conn: Conn, u: UploadId, a: Action)
    requires QuotaOk(q, uploads) && u < |uploads|
    requires UploadOk(sha, conn, u, uploads[u]) && Enabled(sha, conn, u, uploads[u], a)
    ensures QuotaOk(QuotaAfter(q, uploads[u], a), uploads[u := After(conn, u, uploads[u], a)])
  {
    var up := uploads[u];
    var up', q' := After(conn, u, up, a), QuotaAfter(q, up, a);
    ActorMovesQuota(sha, q, conn, u, up, a);
    AccountsUpdate(uploads, u, up');
    var after := uploads[u := up'];
    forall v: UploadId | v < |after| && after[v].reservation == Stuck ensures q'.broken {
      assert v != u ==> uploads[v].reservation == Stuck;
    }
  }

  lemma UploadStepKeepsQuotaOk(sha: Bytes -> Digest, s: State, a: Action, s': State)
    requires Inv(sha, s) && !a.Begin? && !a.Leave? && UploadStep(sha, s, a, s')
    ensures QuotaOk(s'.quota, s'.uploads)
  {
    var conn := s.conns[s.uploads[a.u].conn];
    assert UploadOk(sha, conn, a.u, s.uploads[a.u]);
    ActorKeepsQuotaOk(sha, s.quota, s.uploads, conn, a.u, a);
  }

  lemma QuotaStep(sha: Bytes -> Digest, s: State, a: Action, s': State)
    requires Inv(sha, s) && Next(sha, s, a, s')
    ensures QuotaOk(s'.quota, s'.uploads)
  {
    if a.Begin? {
      if Admits(s.quota, a.size) {
        ReservingKeepsQuotaOk(s.quota, s.uploads, a.c, a.size, a.digest);
      }
    } else if !a.Leave? {
      UploadStepKeepsQuotaOk(sha, s, a, s');
    }
  }

  lemma FreshUploadOk(sha: Bytes -> Digest, s: State, a: Action, s': State, v: UploadId)
    requires Inv(sha, s) && a.Begin? && Next(sha, s, a, s') && v < |s'.uploads|
    ensures s'.uploads[v].conn in s'.conns && UploadOk(sha, s'.conns[s'.uploads[v].conn], v, s'.uploads[v])
  {
    if v < |s.uploads| {
      assert UploadOk(sha, s.conns[s.uploads[v].conn], v, s.uploads[v]);
    } else {
      assert Flatten([]) == [];
    }
  }

  lemma UploadStepKeepsOk(sha: Bytes -> Digest, s: State, a: Action, s': State, v: UploadId)
    requires Inv(sha, s) && !a.Begin? && !a.Leave? && UploadStep(sha, s, a, s') && v < |s'.uploads|
    ensures s'.uploads[v].conn in s'.conns && UploadOk(sha, s'.conns[s'.uploads[v].conn], v, s'.uploads[v])
  {
    var up := s.uploads[a.u];
    var conn := s.conns[up.conn];
    assert UploadOk(sha, s.conns[s.uploads[v].conn], v, s.uploads[v]);
    assert UploadOk(sha, conn, a.u, up);
    if v == a.u {
      ActorOk(sha, conn, a.u, up, a);
      ActorMovesQuota(sha, s.quota, conn, a.u, up, a);
    } else if s.uploads[v].conn == up.conn {
      OtherOk(sha, conn, a.u, up, a, v, s.uploads[v]);
    }
  }

  lemma UploadStays(sha: Bytes -> Digest, s: State, a: Action, s': State, v: UploadId)
    requires Inv(sha, s) && Next(sha, s, a, s') && v < |s'.uploads|
    ensures s'.uploads[v].conn in s'.conns && UploadOk(sha, s'.conns[s'.uploads[v].conn], v, s'.uploads[v])
  {
    if a.Begin? {
      FreshUploadOk(sha, s, a, s', v);
    } else if a.Leave? {
      assert UploadOk(sha, s.conns[s.uploads[v].conn], v, s.uploads[v]);
    } else {
      UploadStepKeepsOk(sha, s, a, s', v);
    }
  }

  lemma StepKeepsInv(sha: Bytes -> Digest, s: State, a: Action, s': State)
    requires Inv(sha, s) && Next(sha, s, a, s')
    ensures Inv(sha, s')
  {
    QuotaStep(sha, s, a, s');
    forall u: UploadId | u < |s'.uploads|
      ensures s'.uploads[u].conn in s'.conns && UploadOk(sha, s'.conns[s'.uploads[u].conn], u, s'.uploads[u])
    {
      UploadStays(sha, s, a, s', u);
    }
  }

  lemma {:induction false} InvInEveryRun(sha: Bytes -> Digest, states: seq<State>, actions: seq<Action>, i: nat)
    requires IsRun(sha, states, actions) && i < |states|
    ensures Inv(sha, states[i])
  {
    if i > 0 {
      InvInEveryRun(sha, states, actions, i - 1);
      assert Next(sha, states[i - 1], actions[i - 1], states[i]);
      StepKeepsInv(sha, states[i - 1], actions[i - 1], states[i]);
    }
  }

  // ---------- Main results ----------

  /** The accounts are the reservations not cleanly settled, within both caps. */
  lemma QuotaIsConserved(sha: Bytes -> Digest, states: seq<State>, actions: seq<Action>, i: nat)
    requires IsRun(sha, states, actions) && i < |states|
    ensures var s := states[i];
      && s.quota.active == Outstanding(s.uploads) <= s.quota.maxUploads
      && s.quota.reserved == OutstandingBytes(s.uploads) <= s.quota.maxBytes
  {
    InvInEveryRun(sha, states, actions, i);
  }

  /** A reservation is settled at most once, and exactly once by the end. */
  lemma SettledExactlyOnce(sha: Bytes -> Digest, states: seq<State>, actions: seq<Action>, i: nat, u: UploadId)
    requires IsRun(sha, states, actions) && i < |states| && u < |states[i].uploads|
    ensures var up := states[i].uploads[u];
      && up.settles <= 1 && (up.settles == 0 <==> up.reservation == Held)
      && (up.fin == Over ==> up.settles == 1)
  {
    InvInEveryRun(sha, states, actions, i);
    assert UploadOk(sha, states[i].conns[states[i].uploads[u].conn], u, states[i].uploads[u]);
  }

  lemma BrokenStays(sha: Bytes -> Digest, s: State, a: Action, s': State)
    requires Inv(sha, s) && Next(sha, s, a, s') && s.quota.broken
    ensures s'.quota.broken && |s'.uploads| == |s.uploads|
  {
    if !a.Begin? && !a.Leave? {
      var up := s.uploads[a.u];
      ActorMovesQuota(sha, s.quota, s.conns[up.conn], a.u, up, a);
    }
  }

  /** After one failed cleanup nothing is ever reserved again. */
  lemma {:induction false} NothingAfterAFailedCleanup(sha: Bytes -> Digest, states: seq<State>, actions: seq<Action>,
                                                      i: nat, u: UploadId, j: nat)
    requires IsRun(sha, states, actions) && i <= j < |states|
    requires u < |states[i].uploads| && states[i].uploads[u].reservation == Stuck
    ensures states[j].quota.broken && |states[j].uploads| == |states[i].uploads|
    decreases j
  {
    InvInEveryRun(sha, states, actions, i);
    if i < j {
      NothingAfterAFailedCleanup(sha, states, actions, i, u, j - 1);
      InvInEveryRun(sha, states, actions, j - 1);
      assert Next(sha, states[j - 1], actions[j - 1], states[j]);
      BrokenStays(sha, states[j - 1], actions[j - 1], states[j]);
    }
  }

  /** The goroutine that has still to finish, or is finishing, the upload. */
  predicate Responsible(conn: Conn, u: UploadId, up: Upload, who: Finisher) {
    match who
    case Nobody => false
    case TheReader => conn.reader == Allocating(u) || conn.reader == Failing(u)
    case TheMonitor => up.monitor == Watching || up.monitor == MonitorFinishing
    case TheCommitter => up.committer !in {NoCommitter, CommitterGone}
  }

  /** While a reservation is held, some live goroutine is responsible for it; once
      finishing has begun, the one that began it. */
  lemma HeldMeansResponsible(sha: Bytes -> Digest, states: seq<State>, actions: seq<Action>, i: nat, u: UploadId)
      returns (who: Finisher)
    requires IsRun(sha, states, actions) && i < |states| && u < |states[i].uploads|
    requires states[i].uploads[u].reservation == Held
    ensures states[i].uploads[u].conn in states[i].conns
    ensures Responsible(states[i].conns[states[i].uploads[u].conn], u, states[i].uploads[u], who)
    ensures states[i].uploads[u].fin != NotStarted ==> who == states[i].uploads[u].finisher
  {
    InvInEveryRun(sha, states, actions, i);
    var up := states[i].uploads[u];
    assert UploadOk(sha, states[i].conns[up.conn], u, up);
    who := if up.monitor == Absent then TheReader
           else if up.fin != NotStarted then up.finisher
           else if up.phase == Committing then TheCommitter else TheMonitor;
  }

  /** The reader is gone and so are the goroutines it waits for. */
  ghost predicate ShutDown(s: State, c: ConnId) {
    && c in s.conns && s.conns[c].reader == Left
    && forall u: UploadId :: u < |s.uploads| && s.uploads[u].conn == c ==>
         s.uploads[u].monitor in {Absent, MonitorGone} && s.uploads[u].committer in {NoCommitter, CommitterGone}
  }

  /** A connection that has shut down holds nothing but failed cleanups. */
  lemma ShutDownHoldsNothing(sha: Bytes -> Digest, states: seq<State>, actions: seq<Action>, i: nat, u: UploadId)
    requires IsRun(sha, states, actions) && i < |states| && u < |states[i].uploads|
    requires ShutDown(states[i], states[i].uploads[u].conn)
    ensures states[i].uploads[u].reservation == GivenBack ||
            (states[i].uploads[u].reservation == Stuck && states[i].quota.broken)
  {
    if states[i].uploads[u].reservation == Held {
      var who := HeldMeansResponsible(sha, states, actions, i, u);
    }
    InvInEveryRun(sha, states, actions, i);
  }

  predicate ByCommitter(up: Upload, a: Action) {
    match a
    case Verify(_) => true
    case Dispatch(_) => true
    case EndCommit(_) => true
    case CommitterReturns(_) => true
    case StartFinish(_, who) => who == TheCommitter
    case _ => up.fin !in {NotStarted, Over} && up.finisher == TheCommitter
  }

  /** The file and `finishOnce` of a committing upload are as they were. */
  ghost predicate FileUntouched(up: Upload, up': Upload) {
    && up'.file.isOpen == up.file.isOpen && up'.fin == up.fin && up'.finisher == up.finisher
    && up'.reservation == up.reservation && up'.dispatched == up.dispatched
  }

  lemma ActorRespectsCommitting(sha: Bytes -> Digest, conn: Conn, u: UploadId, up: Upload, a: Action)
    requires UploadOk(sha, conn, u, up) && Enabled(sha, conn, u, up, a) && up.phase == Committing
    ensures var up' := After(conn, u, up, a);
      && up'.phase == Committing && up'.file.bytes == up.file.bytes && up'.file.acked == up.file.acked
      && (!ByCommitter(up, a) ==> FileUntouched(up, up'))
  {}

  /** Once an upload is committing, only its commit worker touches the file or
      finishes it: any other step leaves the file and `finishOnce` alone. */
  lemma CommittingBelongsToItsWorker(
    sha: Bytes -> Digest, states: seq<State>, actions: seq<Action>, i: nat, u: UploadId)
    requires IsRun(sha, states, actions) && i < |actions| && u < |states[i].uploads|
    requires states[i].uploads[u].phase == Committing
    ensures u < |states[i + 1].uploads|
    ensures var up, up' := states[i].uploads[u], states[i + 1].uploads[u];
      && up'.phase == Committing && up'.file.bytes == up.file.bytes && up'.file.acked == up.file.acked
      && (actions[i].Begin? || actions[i].Leave? || actions[i].u != u || !ByCommitter(up, actions[i]) ==>
            FileUntouched(up, up'))
  {
    InvInEveryRun(sha, states, actions, i);
    var s, a := states[i], actions[i];
    assert Next(sha, s, a, states[i + 1]);
    if !a.Begin? && !a.Leave? && a.u == u {
      ActorRespectsCommitting(sha, s.conns[s.uploads[u].conn], u, s.uploads[u], a);
    }
  }

  /** A chunk is written only to an open file, and while the upload receives, the
      file is the acknowledged chunks joined, no longer than the declared size. */
  lemma SpoolIsWhatWasAcknowledged(sha: Bytes -> Digest, states: seq<State>, actions: seq<Action>, i: nat, u: UploadId)
    requires IsRun(sha, states, actions) && i < |states| && u < |states[i].uploads|
    ensures var up := states[i].uploads[u];
      && (!up.file.torn ==> up.file.bytes == Flatten(up.file.acked) && up.file.offset == |up.file.bytes|)
      && up.file.offset <= up.size
      && (up.file.torn ==> up.phase == Receiving)
      && (i < |actions| && actions[i].Data? && actions[i].u == u ==> up.file.isOpen && !up.file.torn)
  {
    InvInEveryRun(sha, states, actions, i);
    var s := states[i];
    assert UploadOk(sha, s.conns[s.uploads[u].conn], u, s.uploads[u]);
    if i < |actions| && actions[i].Data? && actions[i].u == u {
      assert Next(sha, s, actions[i], states[i + 1]);
    }
  }

  /** An accepted upload reaches the gateway at most once, and then as exactly the
      acknowledged bytes, of the declared size and digest. */
  lemma DispatchedAsDeclared(sha: Bytes -> Digest, states: seq<State>, actions: seq<Action>, i: nat, u: UploadId)
    requires IsRun(sha, states, actions) && i < |states| && u < |states[i].uploads|
    ensures var up := states[i].uploads[u];
      && |up.dispatched| <= 1
      && forall file :: file in up.dispatched ==>
           file == Flatten(up.file.acked) && |file| == up.size && sha(file) == up.digest
  {
    InvInEveryRun(sha, states, actions, i);
    assert UploadOk(sha, states[i].conns[states[i].uploads[u].conn], u, states[i].uploads[u]);
  }
}
