/** Attachment uploads: `internal/bridge/blob.go`. */
module BlobUploads {
  import opened ByteStrings
  import opened Options

  type ConnId = nat
  type UploadId = nat
  type Digest = string

  // ---------- The process-wide quota ----------

  /** `broken` stands for a non-nil `initErr`. */
  datatype Quota = Quota(maxUploads: int, maxBytes: int, active: int, reserved: int, cleanupFailures: nat, broken: bool)

  predicate Admits(q: Quota, size: nat) {
    !q.broken && q.active < q.maxUploads && size <= q.maxBytes - q.reserved
  }

  function Reserved(q: Quota, size: nat): Quota
    requires Admits(q, size)
  {
    q.(active := q.active + 1, reserved := q.reserved + size)
  }

  function SettledQuota(q: Quota, size: nat, clean: bool): Quota {
    if clean then q.(active := q.active - 1, reserved := q.reserved - size)
    else q.(cleanupFailures := q.cleanupFailures + 1, broken := true)
  }

  datatype Refusal = Unavailable | TooMany | OverQuota

  class BlobManager {
    const maxUploads: int
    const maxBytes: int
    var active: int
    var reserved: int
    var cleanupFailures: nat
    var broken: bool

    ghost function View(): Quota
      reads this
    {
      Quota(maxUploads, maxBytes, active, reserved, cleanupFailures, broken)
    }

    constructor (maxUploads: int, maxBytes: int, rootReady: bool)
      ensures View() == Quota(maxUploads, maxBytes, 0, 0, 0, !rootReady)
    {
      this.maxUploads, this.maxBytes := maxUploads, maxBytes;
      active, reserved, cleanupFailures, broken := 0, 0, 0, !rootReady;
    }

    method Reserve(size: nat) returns (refusal: Option<Refusal>)
      modifies this
      ensures refusal == None <==> old(Admits(View(), size))
      ensures View() == if old(Admits(View(), size)) then old(Reserved(View(), size)) else old(View())
      ensures refusal == Some(Unavailable) <==> old(broken)
      ensures refusal == Some(TooMany) <==> !old(broken) && old(active) >= maxUploads
      ensures refusal == Some(OverQuota) <==>
        !old(broken) && old(active) < maxUploads && old(reserved) + size > maxBytes
      ensures refusal == None ==> active == old(active) + 1 && reserved == old(reserved) + size
    {
      if broken {
        return Some(Unavailable);
      }
      if active >= maxUploads {
        return Some(TooMany);
      }
      if size > maxBytes - reserved {
        return Some(OverQuota);
      }
      active := active + 1;
      reserved := reserved + size;
      return None;
    }

    method SettleCleanup(size: nat, clean: bool)
      modifies this
      ensures View() == SettledQuota(old(View()), size, clean)
    {
      if !clean {
        cleanupFailures := cleanupFailures + 1;
        broken := true;
        return;
      }
      active := active - 1;
      reserved := reserved - size;
    }
  }

  // ---------- One upload ----------

  datatype Phase = Receiving | Committing

  /** The idle monitor's goroutine; it is absent until the spool file exists. */
  datatype Monitor = Absent | Watching | MonitorFinishing | MonitorGone

  /** The commit worker's goroutine. */
  datatype Committer = NoCommitter | Checking | Verified | Attached | CommitterFinishing | CommitterGone

  /** How far the body of `finishOnce` has come. */
  datatype Finish = NotStarted | Begun | Marked | FileClosed | Swept(clean: bool) | Released | Over

  datatype Finisher = Nobody | TheReader | TheMonitor | TheCommitter

  /** `Stuck` is a reservation whose cleanup failed: it is never given back. */
  datatype Reservation = Held | GivenBack | Stuck

  /** The spool file: `hashed` is what the hasher has seen, `acked` the chunks
      acknowledged, `torn` that a write failed half way. */
  datatype Spool = Spool(isOpen: bool, bytes: Bytes, hashed: Bytes, acked: seq<Bytes>, offset: nat, torn: bool) {
    function Closed(): Spool { this.(isOpen := false) }

    function Appended(data: Bytes): Spool {
      this.(bytes := bytes + data, hashed := hashed + data, acked := acked + [data], offset := offset + |data|)
    }

    function Torn(written: Bytes): Spool { this.(bytes := bytes + written, torn := true) }
  }

  datatype Upload = Upload(
    conn: ConnId, size: nat, digest: Digest,
    phase: Phase, finished: bool, cancelled: bool,
    file: Spool,
    monitor: Monitor, committer: Committer, fin: Finish, finisher: Finisher,
    reservation: Reservation, settles: nat, dispatched: seq<Bytes>)

  /** The goroutine reading a connection's frames. */
  datatype Reader = Idle | Allocating(u: UploadId) | Failing(u: UploadId) | Left

  datatype Conn = Conn(active: Option<UploadId>, reader: Reader)

  function NewUpload(c: ConnId, size: nat, digest: Digest): Upload {
    Upload(c, size, digest, Receiving, false, false, Spool(false, [], [], [], 0, false),
           Absent, NoCommitter, NotStarted, Nobody, Held, 0, [])
  }

  datatype Action =
    | Begin(c: ConnId, size: nat, digest: Digest)
    | Leave(c: ConnId)
    | AllocFails(u: UploadId, clean: bool)
    | AllocDone(u: UploadId)
    | Data(u: UploadId, offset: nat, data: Bytes)
    | TearWrite(u: UploadId, written: Bytes)
    | BadFrame(u: UploadId)
    | Commit(u: UploadId)
    | Cancel(u: UploadId)                    // an abort, a shutdown or the connection's end
    | ReaderReturns(u: UploadId)
    | MonitorClaims(u: UploadId)
    | MonitorLeaves(u: UploadId)
    | MonitorReturns(u: UploadId)
    | Verify(u: UploadId)
    | Dispatch(u: UploadId)
    | EndCommit(u: UploadId)
    | CommitterReturns(u: UploadId)
    | StartFinish(u: UploadId, who: Finisher)
    | Mark(u: UploadId)
    | CloseFile(u: UploadId)
    | Sweep(u: UploadId, clean: bool)
    | Settle(u: UploadId)
    | Detach(u: UploadId)

  /** The upload takes frames: what `handleData`, `handleCommit` and
      `failMatchingUpload` check under the connection's lock. */
  predicate Accepts(conn: Conn, u: UploadId, up: Upload) {
    conn.active == Some(u) && !up.finished && !up.cancelled && up.phase == Receiving
  }

  predicate Fits(up: Upload, offset: nat, data: Bytes) {
    offset == up.file.offset && |data| <= up.size - up.file.offset
  }

  /** What `claimReceivingFinish` checks. */
  predicate Claimable(conn: Conn, u: UploadId, up: Upload) {
    conn.active == Some(u) && up.phase == Receiving && !up.finished
  }

  predicate Finishing(conn: Conn, u: UploadId, up: Upload, who: Finisher) {
    match who
    case Nobody => false
    case TheReader => conn.reader == Failing(u)
    case TheMonitor => up.monitor == MonitorFinishing
    case TheCommitter => up.committer == CommitterFinishing
  }

  predicate Enabled(sha: Bytes -> Digest, conn: Conn, u: UploadId, up: Upload, a: Action) {
    match a
    case Begin(_, _, _) => false
    case Leave(_) => false
    case AllocFails(_, _) => conn.reader == Allocating(u)
    case AllocDone(_) => conn.reader == Allocating(u)
    case Data(_, _, _) => conn.reader == Idle && Accepts(conn, u, up)
    case TearWrite(_, _) => conn.reader == Idle && Accepts(conn, u, up)
    case BadFrame(_) => conn.reader == Idle && Accepts(conn, u, up)
    case Commit(_) => conn.reader == Idle && Accepts(conn, u, up)
    case Cancel(_) => up.monitor != Absent
    case ReaderReturns(_) => conn.reader == Failing(u) && up.fin == Over
    case MonitorClaims(_) => up.monitor == Watching
    case MonitorLeaves(_) => up.monitor == Watching && up.phase == Committing
    case MonitorReturns(_) => up.monitor == MonitorFinishing && up.fin == Over
    case Verify(_) => up.committer == Checking && up.file.offset == up.size && sha(up.file.hashed) == up.digest
    case Dispatch(_) => up.committer == Verified && |up.file.bytes| == up.size
    case EndCommit(_) => up.committer in {Checking, Verified, Attached}
    case CommitterReturns(_) => up.committer == CommitterFinishing && up.fin == Over
    case StartFinish(_, who) => up.fin == NotStarted && Finishing(conn, u, up, who)
    case Mark(_) => up.fin == Begun
    case CloseFile(_) => up.fin == Marked
    case Sweep(_, _) => up.fin == FileClosed
    case Settle(_) => up.fin.Swept?
    case Detach(_) => up.fin == Released
  }

  function Settled(up: Upload, clean: bool): Upload {
    up.(reservation := if clean then GivenBack else Stuck, settles := up.settles + 1)
  }

  function After(conn: Conn, u: UploadId, up: Upload, a: Action): Upload {
    match a
    case AllocFails(_, clean) => Settled(up, clean).(fin := Over)
    case AllocDone(_) => up.(monitor := Watching, file := up.file.(isOpen := true))
    case Data(_, offset, data) => if Fits(up, offset, data) then up.(file := up.file.Appended(data)) else up
    case TearWrite(_, written) => up.(file := up.file.Torn(written))
    case Commit(_) => up.(phase := Committing, committer := Checking)
    case Cancel(_) => up.(cancelled := true)
    case MonitorClaims(_) =>
      if Claimable(conn, u, up) then up.(finished := true, monitor := MonitorFinishing)
      else up.(monitor := MonitorGone)
    case MonitorLeaves(_) => up.(monitor := MonitorGone)
    case MonitorReturns(_) => up.(monitor := MonitorGone)
    case Verify(_) => up.(committer := Verified, file := up.file.Closed())
    case Dispatch(_) => up.(committer := Attached, dispatched := up.dispatched + [up.file.bytes])
    case EndCommit(_) => up.(committer := CommitterFinishing)
    case CommitterReturns(_) => up.(committer := CommitterGone)
    case StartFinish(_, who) => up.(fin := Begun, finisher := who)
    case Mark(_) => up.(fin := Marked, finished := true, cancelled := true)
    case CloseFile(_) => up.(fin := FileClosed, file := up.file.Closed())
    case Sweep(_, clean) => up.(fin := Swept(clean))
    case Settle(_) => if up.fin.Swept? then Settled(up, up.fin.clean).(fin := Released) else up
    case Detach(_) => up.(fin := Over)
    case _ => up
  }

  function ConnAfter(conn: Conn, u: UploadId, up: Upload, a: Action): Conn {
    match a
    case AllocFails(_, _) => conn.(reader := Idle)
    case AllocDone(_) => Conn(Some(u), Idle)
    case Data(_, offset, data) => if Fits(up, offset, data) then conn else conn.(reader := Failing(u))
    case TearWrite(_, _) => conn.(reader := Failing(u))
    case BadFrame(_) => conn.(reader := Failing(u))
    case ReaderReturns(_) => conn.(reader := Idle)
    case Detach(_) => conn.(active := if conn.active == Some(u) then None else conn.active)
    case _ => conn
  }

  /** What one settlement, if the step is one, does to the quota. */
  function QuotaAfter(q: Quota, up: Upload, a: Action): Quota {
    match a
    case AllocFails(_, clean) => SettledQuota(q, up.size, clean)
    case Settle(_) => if up.fin.Swept? then SettledQuota(q, up.size, up.fin.clean) else q
    case _ => q
  }

  datatype Reply = Ack(next: nat) | UnknownUpload | UploadFinished | CommitInProgress | Fail | Quiet | Cached

  /** What opening the spool file comes to; a failure may leave a directory
      behind that could not be removed. */
  datatype Allocation = Created | Failed(clean: bool)

  datatype BeginReply = Ready | Busy | Refused(refusal: Refusal) | NotCreated(clean: bool)

  datatype CommitFault = NoFault | SyncFails | CloseFails | GatewayFails

  predicate Passes(up: Upload, sum: Digest, io: CommitFault) {
    up.file.offset == up.size && sum == up.digest && io != SyncFails && io != CloseFails
  }

  /** An upload whose commit worker has its answer: the gateway got the file
      exactly when size, digest and every step were right. */
  function Sent(up: Upload, sum: Digest, io: CommitFault): Upload {
    up.(committer := CommitterFinishing,
        file := if Passes(up, sum, io) then up.file.Closed() else up.file,
        dispatched := if Passes(up, sum, io) && io != GatewayFails && |up.file.bytes| == up.size
                      then up.dispatched + [up.file.bytes] else up.dispatched)
  }

  /** An upload after `finish`. */
  function Ended(up: Upload, who: Finisher, clean: bool): Upload {
    Settled(up.(finished := true, cancelled := true, file := up.file.Closed(), finisher := who), clean).(fin := Over)
  }

  /** The locked parts of the frame handlers; `Fail` is followed by `finish`. */
  class BlobConnection {
    var active: Option<UploadId>
    var uploads: map<UploadId, Upload>

    ghost predicate Valid()
      reads this
    {
      active.Some? ==> active.value in uploads
    }

    constructor ()
      ensures Valid() && active == None && uploads == map[]
    {
      active, uploads := None, map[];
    }

    /** `written` is how much of the chunk reached the spool file. */
    method HandleData(id: UploadId, offset: nat, data: Bytes, written: nat) returns (reply: Reply)
      requires Valid() && written <= |data|
      modifies this
      ensures Valid() && active == old(active)
      ensures reply == UnknownUpload <==> old(active) != Some(id)
      ensures reply == UploadFinished <==>
        old(active) == Some(id) && (old(uploads)[id].finished || old(uploads)[id].cancelled)
      ensures reply == CommitInProgress <==>
        && old(active) == Some(id) && !old(uploads)[id].finished && !old(uploads)[id].cancelled
        && old(uploads)[id].phase == Committing
      ensures reply.Ack? <==>
        && old(active) == Some(id) && !old(uploads)[id].finished && !old(uploads)[id].cancelled
        && old(uploads)[id].phase == Receiving && offset == old(uploads)[id].file.offset
        && offset + |data| <= old(uploads)[id].size && written == |data|
      ensures reply.Ack? ==>
        var was, file := old(uploads)[id].file, uploads[id].file;
        && reply.next == file.offset == offset + |data|
        && file.bytes == was.bytes + data && file.hashed == was.hashed + data && file.acked == was.acked + [data]
      ensures reply.Ack? || reply == Fail <==>
        id in old(uploads) && Accepts(Conn(old(active), Idle), id, old(uploads)[id])
      ensures reply.Ack? ==>
        && Fits(old(uploads)[id], offset, data) && written == |data|
        && uploads == old(uploads)[id := After(Conn(active, Idle), id, old(uploads)[id], Data(id, offset, data))]
      ensures reply == Fail && Fits(old(uploads)[id], offset, data) ==>
        && written < |data|
        && uploads
             == old(uploads)[id := After(Conn(active, Idle), id, old(uploads)[id], TearWrite(id, data[..written]))]
      ensures !reply.Ack? && !(reply == Fail && Fits(old(uploads)[id], offset, data)) ==> uploads == old(uploads)
    {
      if active != Some(id) {
        return UnknownUpload;
      }
      var upload := uploads[id];
      if upload.finished || upload.cancelled {
        return UploadFinished;
      }
      if upload.phase != Receiving {
        return CommitInProgress;
      }
      if offset != upload.file.offset {
        return Fail;
      }
      if |data| > upload.size - upload.file.offset {
        return Fail;
      }
      var file := upload.file.(bytes := upload.file.bytes + data[..written]);
      if written != |data| {
        uploads := uploads[id := upload.(file := file.(torn := true))];
        return Fail;
      }
      assert data[..written] == data;
      file := file.(hashed := file.hashed + data, acked := file.acked + [data], offset := file.offset + |data|);
      uploads := uploads[id := upload.(file := file)];
      return Ack(file.offset);
    }

    method HandleCommit(id: UploadId) returns (reply: Reply, started: bool)
      requires Valid()
      modifies this
      ensures Valid() && active == old(active)
      ensures started <==> id in old(uploads) && Accepts(Conn(old(active), Idle), id, old(uploads)[id])
      ensures started ==> uploads == old(uploads)[id := After(Conn(active, Idle), id, old(uploads)[id], Commit(id))]
      ensures !started ==> uploads == old(uploads)
      ensures reply == UnknownUpload <==> old(active) != Some(id)
      ensures started <==>
        && old(active) == Some(id) && !old(uploads)[id].finished && !old(uploads)[id].cancelled
        && old(uploads)[id].phase == Receiving
      ensures reply == Cached <==>
        && old(active) == Some(id)
        && (old(uploads)[id].finished || (!old(uploads)[id].cancelled && old(uploads)[id].phase == Committing))
    {
      if active != Some(id) {
        return UnknownUpload, false;         // or the cached result of this id
      }
      var upload := uploads[id];
      if upload.finished {
        return Cached, false;
      }
      if upload.cancelled {
        return Quiet, false;
      }
      if upload.phase == Committing {
        return Cached, false;
      }
      uploads := uploads[id := upload.(phase := Committing, committer := Checking)];
      return Quiet, true;
    }

    method ClaimReceivingFinish(id: UploadId) returns (claimed: bool)
      requires Valid() && id in uploads && uploads[id].monitor == Watching
      modifies this
      ensures Valid() && active == old(active)
      ensures claimed == Claimable(Conn(active, Idle), id, old(uploads)[id])
      ensures claimed <==> active == Some(id) && old(uploads)[id].phase == Receiving && !old(uploads)[id].finished
      ensures uploads == old(uploads)[id := After(Conn(active, Idle), id, old(uploads)[id], MonitorClaims(id))]
    {
      var upload := uploads[id];
      if active != Some(id) || upload.phase != Receiving || upload.finished {
        uploads := uploads[id := upload.(monitor := MonitorGone)];
        return false;
      }
      uploads := uploads[id := upload.(finished := true, monitor := MonitorFinishing)];
      return true;
    }

    /** Allocates a spool file for a new upload, or reports why not.  `id` is fresh. */
    method HandleBegin(m: BlobManager, c: ConnId, id: UploadId, size: nat, digest: Digest, payload: Allocation)
        returns (reply: BeginReply)
      requires Valid() && id !in uploads
      modifies this, m
      ensures Valid()
      ensures reply == Busy <==> old(active).Some?
      ensures reply.Refused? <==> old(active) == None && !old(Admits(m.View(), size))
      ensures reply == Ready <==> old(active) == None && old(Admits(m.View(), size)) && payload == Created
      ensures reply == Ready ==>
        && m.View() == Reserved(old(m.View()), size) && active == Some(id)
        && uploads
             == old(uploads)[id := After(Conn(None, Allocating(id)), id, NewUpload(c, size, digest), AllocDone(id))]
      ensures reply != Ready ==> active == old(active) && uploads == old(uploads)
      ensures reply == NotCreated(false) ==> m.View() == SettledQuota(Reserved(old(m.View()), size), size, false)
      ensures reply != Ready && reply != NotCreated(false) ==> m.View() == old(m.View())
    {
      if active.Some? {
        return Busy;
      }
      var refusal := m.Reserve(size);
      if refusal.Some? {
        return Refused(refusal.value);
      }
      if payload.Failed? {
        m.SettleCleanup(size, payload.clean);
        return NotCreated(payload.clean);
      }
      var upload := NewUpload(c, size, digest);
      uploads := uploads[id := upload.(monitor := Watching, file := upload.file.(isOpen := true))];
      active := Some(id);
      return Ready;
    }

    method HandleAbort(id: UploadId)
      requires Valid()
      modifies this
      ensures Valid() && active == old(active)
      ensures uploads == if active == Some(id)
                         then old(uploads)[id := old(uploads)[id].(cancelled := true)] else old(uploads)
    {
      if active == Some(id) {
        uploads := uploads[id := uploads[id].(cancelled := true)];
      }
    }

    /** Ends the upload, once, whoever calls first. */
    method Finish(m: BlobManager, id: UploadId, who: Finisher, clean: bool)
      requires Valid() && id in uploads
      modifies this, m
      ensures Valid()
      ensures old(uploads)[id].fin != NotStarted ==>
        uploads == old(uploads) && active == old(active) && m.View() == old(m.View())
      ensures old(uploads)[id].fin == NotStarted ==>
        && uploads == old(uploads)[id := Ended(old(uploads)[id], who, clean)]
        && active == (if old(active) == Some(id) then None else old(active))
        && m.View() == SettledQuota(old(m.View()), old(uploads)[id].size, clean)
    {
      var upload := uploads[id];
      if upload.fin != NotStarted {
        return;
      }
      upload := upload.(fin := Begun, finisher := who);
      upload := upload.(finished := true, cancelled := true);
      upload := upload.(file := upload.file.Closed());
      m.SettleCleanup(upload.size, clean);
      uploads := uploads[id := Settled(upload, clean).(fin := Over)];
      if active == Some(id) {
        active := None;
      }
    }

    /** The commit worker up to its answer.  `sum` is what the hasher says, `io`
        which step of flushing the file or reaching the gateway fails. */
    method VetAndSend(id: UploadId, sum: Digest, io: CommitFault)
      requires Valid() && id in uploads && uploads[id].committer == Checking
      modifies this`uploads
      ensures Valid() && uploads == old(uploads)[id := Sent(old(uploads)[id], sum, io)]
      ensures var up, up' := old(uploads)[id], uploads[id];
        && (up.file.offset == up.size && sum == up.digest && io == NoFault && |up.file.bytes| == up.size ==>
              up'.dispatched == up.dispatched + [up.file.bytes])
        && (up.file.offset != up.size || sum != up.digest || io != NoFault || |up.file.bytes| != up.size ==>
              up'.dispatched == up.dispatched)
    {
      var upload := uploads[id];
      uploads := uploads[id := upload.(committer := CommitterFinishing)];
      if upload.file.offset != upload.size || sum != upload.digest {
        return;
      }
      if io == SyncFails || io == CloseFails {
        return;
      }
      upload := upload.(file := upload.file.Closed());
      if io != GatewayFails && |upload.file.bytes| == upload.size {
        upload := upload.(dispatched := upload.dispatched + [upload.file.bytes]);
      }
      uploads := uploads[id := upload.(committer := CommitterFinishing)];
    }

    method CommitUpload(m: BlobManager, id: UploadId, sum: Digest, io: CommitFault, clean: bool)
      requires Valid() && id in uploads && uploads[id].committer == Checking && uploads[id].fin == NotStarted
      modifies this, m
      ensures Valid() && active == (if old(active) == Some(id) then None else old(active))
      ensures m.View() == SettledQuota(old(m.View()), old(uploads)[id].size, clean)
      ensures uploads == old(uploads)[id := Ended(Sent(old(uploads)[id], sum, io), TheCommitter, clean)]
      ensures var up, up' := old(uploads)[id], uploads[id];
        && (up.file.offset == up.size && sum == up.digest && io == NoFault && |up.file.bytes| == up.size ==>
              up'.dispatched == up.dispatched + [up.file.bytes])
        && (up.file.offset != up.size || sum != up.digest || io != NoFault || |up.file.bytes| != up.size ==>
              up'.dispatched == up.dispatched)
    {
      VetAndSend(id, sum, io);
      Finish(m, id, TheCommitter, clean);
    }
  }

  // ---------- Calls are runs of enabled steps ----------

  datatype Spot = Spot(conn: Conn, up: Upload, quota: Quota)

  function Moved(u: UploadId, s: Spot, a: Action): Spot {
    Spot(ConnAfter(s.conn, u, s.up, a), After(s.conn, u, s.up, a), QuotaAfter(s.quota, s.up, a))
  }

  /** The steps are enabled one after the other and lead from `s` to `s'`. */
  predicate Leads(sha: Bytes -> Digest, u: UploadId, s: Spot, actions: seq<Action>, s': Spot)
    decreases |actions|
  {
    if actions == [] then s' == s
    else Enabled(sha, s.conn, u, s.up, actions[0]) && Leads(sha, u, Moved(u, s, actions[0]), actions[1..], s')
  }

  lemma {:induction false} LeadsOn(
    sha: Bytes -> Digest, u: UploadId, s: Spot, first: seq<Action>, mid: Spot, rest: seq<Action>, s': Spot)
    requires Leads(sha, u, s, first, mid) && Leads(sha, u, mid, rest, s')
    ensures Leads(sha, u, s, first + rest, s')
    decreases |first|
  {
    if first == [] {
      assert first + rest == rest;
    } else {
      LeadsOn(sha, u, Moved(u, s, first[0]), first[1..], mid, rest, s');
      assert (first + rest)[1..] == first[1..] + rest;
    }
  }

  lemma StepThen(sha: Bytes -> Digest, u: UploadId, s: Spot, a: Action, rest: seq<Action>, s': Spot)
    requires Enabled(sha, s.conn, u, s.up, a) && Leads(sha, u, Moved(u, s, a), rest, s')
    ensures Leads(sha, u, s, [a] + rest, s')
  {
    assert ([a] + rest)[1..] == rest;
  }

  function FinishSteps(u: UploadId, who: Finisher, clean: bool): seq<Action> {
    [StartFinish(u, who)] + ([Mark(u)] + ([CloseFile(u)] + SettleSteps(u, clean)))
  }

  function SettleSteps(u: UploadId, clean: bool): seq<Action> {
    [Sweep(u, clean)] + ([Settle(u)] + ([Detach(u)] + []))
  }

  /** Where settling and detaching leave them. */
  function Cleaned(u: UploadId, s: Spot, clean: bool): Spot {
    Spot(s.conn.(active := if s.conn.active == Some(u) then None else s.conn.active),
         Settled(s.up, clean).(fin := Over), SettledQuota(s.quota, s.up.size, clean))
  }

  /** Where `finish` leaves an upload, its connection and the quota. */
  function Finished(u: UploadId, s: Spot, who: Finisher, clean: bool): Spot {
    Spot(s.conn.(active := if s.conn.active == Some(u) then None else s.conn.active),
         Ended(s.up, who, clean), SettledQuota(s.quota, s.up.size, clean))
  }

  /** One step whose outcome is known. */
  lemma KnownStep(sha: Bytes -> Digest, u: UploadId, s: Spot, a: Action, mid: Spot, rest: seq<Action>, s': Spot)
    requires Enabled(sha, s.conn, u, s.up, a) && mid == Moved(u, s, a) && Leads(sha, u, mid, rest, s')
    ensures Leads(sha, u, s, [a] + rest, s')
  {
    StepThen(sha, u, s, a, rest, s');
  }

  lemma DetachLeads(sha: Bytes -> Digest, u: UploadId, s: Spot)
    requires s.up.fin == Released
    ensures Leads(sha, u, s, [Detach(u)] + [],
                  s.(conn := s.conn.(active := if s.conn.active == Some(u) then None else s.conn.active),
                     up := s.up.(fin := Over)))
  {
    var over := s.(conn := s.conn.(active := if s.conn.active == Some(u) then None else s.conn.active),
                   up := s.up.(fin := Over));
    KnownStep(sha, u, s, Detach(u), over, [], over);
  }

  lemma SettleLeads(sha: Bytes -> Digest, u: UploadId, s: Spot, clean: bool)
    requires s.up.fin == FileClosed
    ensures Leads(sha, u, s, SettleSteps(u, clean), Cleaned(u, s, clean))
  {
    var over := Cleaned(u, s, clean);
    var swept := s.(up := s.up.(fin := Swept(clean)));
    var settled :=
      s.(up := Settled(s.up, clean).(fin := Released), quota := SettledQuota(s.quota, s.up.size, clean));
    DetachLeads(sha, u, settled);
    KnownStep(sha, u, swept, Settle(u), settled, [Detach(u)] + [], over);
    KnownStep(sha, u, s, Sweep(u, clean), swept, [Settle(u)] + ([Detach(u)] + []), over);
  }

  lemma CloseLeads(sha: Bytes -> Digest, u: UploadId, s: Spot, clean: bool, s': Spot)
    requires s.up.fin == Marked && s' == Cleaned(u, s.(up := s.up.(file := s.up.file.Closed())), clean)
    ensures Leads(sha, u, s, [CloseFile(u)] + SettleSteps(u, clean), s')
  {
    var closed := s.(up := s.up.(fin := FileClosed, file := s.up.file.Closed()));
    SettleLeads(sha, u, closed, clean);
    assert Cleaned(u, closed, clean) == s';
    KnownStep(sha, u, s, CloseFile(u), closed, SettleSteps(u, clean), s');
  }

  lemma MarkLeads(sha: Bytes -> Digest, u: UploadId, s: Spot, who: Finisher, clean: bool)
    requires s.up.fin == Begun && s.up.finisher == who
    ensures Leads(sha, u, s, [Mark(u)] + ([CloseFile(u)] + SettleSteps(u, clean)), Finished(u, s, who, clean))
  {
    var marked := s.(up := s.up.(fin := Marked, finished := true, cancelled := true));
    var over := Finished(u, s, who, clean);
    CloseLeads(sha, u, marked, clean, over);
    KnownStep(sha, u, s, Mark(u), marked, [CloseFile(u)] + SettleSteps(u, clean), over);
  }

  /** `finish` is a run of the steps of `finishOnce`, each enabled in its turn, and
      leaves what its contract says. */
  lemma FinishIsItsSteps(sha: Bytes -> Digest, u: UploadId, s: Spot, who: Finisher, clean: bool)
    requires s.up.fin == NotStarted && Finishing(s.conn, u, s.up, who)
    ensures Leads(sha, u, s, FinishSteps(u, who, clean), Finished(u, s, who, clean))
  {
    var begun := s.(up := s.up.(fin := Begun, finisher := who));
    MarkLeads(sha, u, begun, who, clean);
    assert Finished(u, begun, who, clean) == Finished(u, s, who, clean);
    KnownStep(sha, u, s, StartFinish(u, who), begun, [Mark(u)] + ([CloseFile(u)] + SettleSteps(u, clean)),
              Finished(u, s, who, clean));
  }

  /** Which steps the commit worker takes up to its answer, read off the file and
      the digest alone. */
  function SendSteps(sha: Bytes -> Digest, u: UploadId, up: Upload, io: CommitFault): seq<Action> {
    if up.file.offset != up.size || sha(up.file.hashed) != up.digest || io == SyncFails || io == CloseFails
    then [EndCommit(u)] + []
    else if io == GatewayFails || |up.file.bytes| != up.size then [Verify(u)] + ([EndCommit(u)] + [])
    else [Verify(u)] + ([Dispatch(u)] + ([EndCommit(u)] + []))
  }

  lemma DispatchLeads(sha: Bytes -> Digest, u: UploadId, s: Spot)
    requires s.up.committer == Verified && |s.up.file.bytes| == s.up.size
    ensures var sent :=
        s.(up := s.up.(committer := CommitterFinishing, dispatched := s.up.dispatched + [s.up.file.bytes]));
      Leads(sha, u, s, [Dispatch(u)] + ([EndCommit(u)] + []), sent)
  {
    var attached := s.(up := s.up.(committer := Attached, dispatched := s.up.dispatched + [s.up.file.bytes]));
    var sent := s.(up := attached.up.(committer := CommitterFinishing));
    KnownStep(sha, u, attached, EndCommit(u), sent, [], sent);
    KnownStep(sha, u, s, Dispatch(u), attached, [EndCommit(u)] + [], sent);
  }

  /** Whatever the size, the digest and the faults, the commit worker up to its
      answer is a run of enabled steps: vetting only a file of the declared size
      and digest, dispatching only what was vetted, ending in every case. */
  lemma SendIsItsSteps(sha: Bytes -> Digest, u: UploadId, s: Spot, io: CommitFault)
    requires s.up.committer == Checking
    ensures Leads(sha, u, s, SendSteps(sha, u, s.up, io),
                  Spot(s.conn, Sent(s.up, sha(s.up.file.hashed), io), s.quota))
  {
    var up, sent := s.up, Spot(s.conn, Sent(s.up, sha(s.up.file.hashed), io), s.quota);
    if up.file.offset != up.size || sha(up.file.hashed) != up.digest || io == SyncFails || io == CloseFails {
      KnownStep(sha, u, s, EndCommit(u), sent, [], sent);
    } else {
      var verified := s.(up := up.(committer := Verified, file := up.file.Closed()));
      if io == GatewayFails || |up.file.bytes| != up.size {
        KnownStep(sha, u, verified, EndCommit(u), sent, [], sent);
        KnownStep(sha, u, s, Verify(u), verified, [EndCommit(u)] + [], sent);
      } else {
        DispatchLeads(sha, u, verified);
        KnownStep(sha, u, s, Verify(u), verified, [Dispatch(u)] + ([EndCommit(u)] + []), sent);
      }
    }
  }

  /** So is the whole commit worker: where its contract leaves an upload whose sum
      is that of the bytes hashed is where these steps lead. */
  lemma CommitIsItsSteps(sha: Bytes -> Digest, u: UploadId, s: Spot, io: CommitFault, clean: bool)
    requires s.up.committer == Checking && s.up.fin == NotStarted
    ensures var sent := Spot(s.conn, Sent(s.up, sha(s.up.file.hashed), io), s.quota);
      Leads(sha, u, s, SendSteps(sha, u, s.up, io) + FinishSteps(u, TheCommitter, clean),
            Finished(u, sent, TheCommitter, clean))
  {
    var sent := Spot(s.conn, Sent(s.up, sha(s.up.file.hashed), io), s.quota);
    SendIsItsSteps(sha, u, s, io);
    FinishIsItsSteps(sha, u, sent, TheCommitter, clean);
    LeadsOn(sha, u, s, SendSteps(sha, u, s.up, io), sent, FinishSteps(u, TheCommitter, clean),
            Finished(u, sent, TheCommitter, clean));
  }

  // ---------- An upload that does everything right ----------

  function Flatten(chunks: seq<Bytes>): Bytes {
    if chunks == [] then [] else Flatten(chunks[..|chunks| - 1]) + chunks[|chunks| - 1]
  }

  /** What the file holds after these chunks, written whole. */
  function Spooled(chunks: seq<Bytes>): Spool {
    Spool(true, Flatten(chunks), Flatten(chunks), chunks, |Flatten(chunks)|, false)
  }

  /** An upload that is watched and has been sent these chunks. */
  function Filled(u: UploadId, c: ConnId, size: nat, digest: Digest, chunks: seq<Bytes>, q: Quota): Spot {
    Spot(Conn(Some(u), Idle), NewUpload(c, size, digest).(monitor := Watching, file := Spooled(chunks)), q)
  }

  function DataSteps(u: UploadId, chunks: seq<Bytes>): seq<Action> {
    if chunks == [] then [AllocDone(u)] + []
    else
      var rest := chunks[..|chunks| - 1];
      DataSteps(u, rest) + ([Data(u, |Flatten(rest)|, chunks[|chunks| - 1])] + [])
  }

  lemma ChunkLeads(sha: Bytes -> Digest, u: UploadId, s: Spot, data: Bytes, s': Spot)
    requires s.conn == Conn(Some(u), Idle) && Accepts(s.conn, u, s.up) && s.up.file.offset + |data| <= s.up.size
    requires s' == s.(up := s.up.(file := s.up.file.Appended(data)))
    ensures Leads(sha, u, s, [Data(u, s.up.file.offset, data)] + [], s')
  {
    KnownStep(sha, u, s, Data(u, s.up.file.offset, data), s', [], s');
  }

  lemma {:induction false} ChunksLead(
    sha: Bytes -> Digest, u: UploadId, c: ConnId, size: nat, digest: Digest, chunks: seq<Bytes>, q: Quota)
    requires |Flatten(chunks)| <= size
    ensures Leads(sha, u, Spot(Conn(None, Allocating(u)), NewUpload(c, size, digest), q), DataSteps(u, chunks),
                  Filled(u, c, size, digest, chunks, q))
    decreases |chunks|
  {
    var begun := Spot(Conn(None, Allocating(u)), NewUpload(c, size, digest), q);
    if chunks == [] {
      StepThen(sha, u, begun, AllocDone(u), [], Filled(u, c, size, digest, [], q));
    } else {
      var rest, last := chunks[..|chunks| - 1], chunks[|chunks| - 1];
      ChunksLead(sha, u, c, size, digest, rest, q);
      var before, after := Filled(u, c, size, digest, rest, q), Filled(u, c, size, digest, chunks, q);
      assert rest + [last] == chunks;
      ChunkLeads(sha, u, before, last, after);
      LeadsOn(sha, u, begun, DataSteps(u, rest), before, [Data(u, |Flatten(rest)|, last)] + [], after);
    }
  }

  /** Nothing stands in the way of an upload whose chunks come in order, add up to
      the declared size and have the declared digest: its steps are enabled one
      after the other, the gateway gets exactly those bytes, once, and the
      reservation is given back. */
  lemma GoodUploadArrives(
    sha: Bytes -> Digest, u: UploadId, c: ConnId, size: nat, digest: Digest, chunks: seq<Bytes>, q: Quota)
      returns (actions: seq<Action>, done: Spot)
    requires Admits(q, size) && |Flatten(chunks)| == size && sha(Flatten(chunks)) == digest
    ensures Leads(sha, u, Spot(Conn(None, Allocating(u)), NewUpload(c, size, digest), Reserved(q, size)), actions, done)
    ensures done.up.dispatched == [Flatten(chunks)] && done.up.fin == Over && done.up.reservation == GivenBack
    ensures done.conn == Conn(None, Idle) && done.quota == q
  {
    var begun := Spot(Conn(None, Allocating(u)), NewUpload(c, size, digest), Reserved(q, size));
    var filled := Filled(u, c, size, digest, chunks, Reserved(q, size));
    ChunksLead(sha, u, c, size, digest, chunks, Reserved(q, size));
    var committing := Moved(u, filled, Commit(u));
    CommitIsItsSteps(sha, u, committing, NoFault, true);
    var ending := SendSteps(sha, u, committing.up, NoFault) + FinishSteps(u, TheCommitter, true);
    var sent := Spot(committing.conn, Sent(committing.up, sha(committing.up.file.hashed), NoFault), committing.quota);
    done := Finished(u, sent, TheCommitter, true);
    StepThen(sha, u, filled, Commit(u), ending, done);
    LeadsOn(sha, u, begun, DataSteps(u, chunks), filled, [Commit(u)] + ending, done);
    actions := DataSteps(u, chunks) + ([Commit(u)] + ending);
    ReserveThenSettle(q, size);
  }

  /** Nor in the way of giving one up: an upload that is aborted, or idle for too
      long, while it still receives is ended by its monitor, dispatches nothing
      and gives its reservation back. */
  lemma IdleUploadEnds(sha: Bytes -> Digest, u: UploadId, s: Spot)
    requires s.conn == Conn(Some(u), Idle) && s.up.phase == Receiving && !s.up.finished
    requires s.up.monitor == Watching && s.up.fin == NotStarted
    ensures var claimed := s.(up := s.up.(finished := true, monitor := MonitorFinishing));
      var done := Finished(u, claimed, TheMonitor, true);
      && Leads(sha, u, s, [MonitorClaims(u)] + FinishSteps(u, TheMonitor, true), done)
      && done.up.dispatched == s.up.dispatched && done.up.fin == Over && done.up.reservation == GivenBack
      && done.conn == Conn(None, Idle) && done.quota == SettledQuota(s.quota, s.up.size, true)
  {
    var claimed := s.(up := s.up.(finished := true, monitor := MonitorFinishing));
    FinishIsItsSteps(sha, u, claimed, TheMonitor, true);
    KnownStep(sha, u, s, MonitorClaims(u), claimed, FinishSteps(u, TheMonitor, true),
              Finished(u, claimed, TheMonitor, true));
  }

  /** A reservation that is cleanly settled leaves the quota as it was before it
      was made. */
  lemma ReserveThenSettle(q: Quota, size: nat)
    requires Admits(q, size)
    ensures SettledQuota(Reserved(q, size), size, true) == q
    ensures !Admits(SettledQuota(Reserved(q, size), size, false), 0)
  {}
}
