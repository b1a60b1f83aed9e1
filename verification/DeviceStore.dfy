/** The trusted phones on disk, `internal/state/state.go`: what each operation
    does to devices.json, under any fault along the way. */
module DeviceStore {
  import opened Options

  datatype Device = Device(id: string, name: string, firstSeen: int, lastSeen: int)

  /** devices.json as a reader finds it. */
  datatype File = Absent | Corrupt | Holds(devices: seq<Device>)

  datatype Op =
    | IsTrusted(id: string)
    | AddTrusted(id: string, name: string)
    | Trust(id: string, name: string)
    | Revoke(idOrPrefix: string)

  // ---------- What an operation writes ----------

  datatype Edit = Keep | Refuse(why: Cause) | Write(devices: seq<Device>)

  datatype Cause =
    | LockTimeout | StoreClosed | LockFailed | ReadFailed | CorruptFile
    | NotTrusted | NoMatch | Ambiguous
    | WriteFailed(at: WriteStep) | DirectorySyncFailed | UnlockFailed

  datatype WriteStep = CreateTemp | ChmodTemp | WriteTemp | SyncTemp | CloseTemp | Rename

  predicate Known(ds: seq<Device>, id: string) {
    exists i :: 0 <= i < |ds| && ds[i].id == id
  }

  /** The first device called `id`. */
  function IndexOf(ds: seq<Device>, id: string): (r: Option<nat>)
    ensures r == None <==> !Known(ds, id)
    ensures r.Some? ==> r.value < |ds| && ds[r.value].id == id && forall j :: 0 <= j < r.value ==> ds[j].id != id
  {
    if ds == [] then None
    else
      var n := |ds| - 1;
      var r := IndexOf(ds[..n], id);
      if r.Some? then r else if ds[n].id == id then Some(n) else None
  }

  datatype Match = Nobody | One(index: nat) | Many

  /** The first device from `from` on whose id starts with `p`. */
  function FirstMatch(ds: seq<Device>, p: string, from: nat): (r: Option<nat>)
    requires from <= |ds|
    ensures r == None ==> forall i :: from <= i < |ds| ==> !(p <= ds[i].id)
    ensures r.Some? ==>
              from <= r.value < |ds| && p <= ds[r.value].id && forall i :: from <= i < r.value ==> !(p <= ds[i].id)
    decreases |ds| - from
  {
    if from == |ds| then None
    else if p <= ds[from].id then Some(from)
    else FirstMatch(ds, p, from + 1)
  }

  /** Whom `idOrPrefix` names; an id is a prefix of itself. */
  function Named(ds: seq<Device>, idOrPrefix: string): (r: Match)
    ensures r == Nobody <==> forall i :: 0 <= i < |ds| ==> !(idOrPrefix <= ds[i].id)
    ensures r.One? ==>
              && r.index < |ds| && idOrPrefix <= ds[r.index].id
              && forall i :: 0 <= i < |ds| && i != r.index ==> !(idOrPrefix <= ds[i].id)
    ensures r == Many ==> exists i, j :: 0 <= i < j < |ds| && idOrPrefix <= ds[i].id && idOrPrefix <= ds[j].id
  {
    var i := FirstMatch(ds, idOrPrefix, 0);
    if i == None then Nobody
    else if FirstMatch(ds, idOrPrefix, i.value + 1) == None then One(i.value)
    else Many
  }

  function Stamped(ds: seq<Device>, i: nat, name: string, now: int): seq<Device>
    requires i < |ds|
  {
    ds[i := ds[i].(lastSeen := now, name := if name != "" then name else ds[i].name)]
  }

  /** The edit an operation makes of the devices it reads. */
  function EditOf(op: Op, now: int, ds: seq<Device>): Edit {
    match op
    case IsTrusted(id) =>
      var i := IndexOf(ds, id);
      if i.Some? then Write(Stamped(ds, i.value, "", now)) else Keep
    case AddTrusted(id, name) =>
      var i := IndexOf(ds, id);
      if i.Some? then Write(Stamped(ds, i.value, name, now)) else Write(ds + [Device(id, name, now, now)])
    case Trust(id, name) =>
      var i := IndexOf(ds, id);
      if i.Some? then Write(Stamped(ds, i.value, name, now)) else Refuse(NotTrusted)
    case Revoke(p) =>
      match Named(ds, p)
      case Nobody => Refuse(NoMatch)
      case Many => Refuse(Ambiguous)
      case One(i) => Write(ds[..i] + ds[i + 1..])
  }

  method FindDevice(ds: seq<Device>, id: string) returns (r: Option<nat>)
    ensures r == IndexOf(ds, id)
  {
    for i := 0 to |ds|
      invariant forall j :: 0 <= j < i ==> ds[j].id != id
    {
      if ds[i].id == id {
        return Some(i);
      }
    }
    return None;
  }

  /** One pass over the devices read under the lock. */
  method ComputeEdit(op: Op, now: int, ds: seq<Device>) returns (e: Edit)
    ensures e == EditOf(op, now, ds)
  {
    match op
    case IsTrusted(id) =>
      var i := FindDevice(ds, id);
      e := if i.Some? then Write(Stamped(ds, i.value, "", now)) else Keep;
    case AddTrusted(id, name) =>
      var i := FindDevice(ds, id);
      e := if i.Some? then Write(Stamped(ds, i.value, name, now)) else Write(ds + [Device(id, name, now, now)]);
    case Trust(id, name) =>
      var i := FindDevice(ds, id);
      e := if i.Some? then Write(Stamped(ds, i.value, name, now)) else Refuse(NotTrusted);
    case Revoke(p) =>
      e := ComputeRevoke(p, now, ds);
  }

  method ComputeRevoke(p: string, now: int, ds: seq<Device>) returns (e: Edit)
    ensures e == EditOf(Revoke(p), now, ds)
  {
    var idx := -1;
    for i := 0 to |ds|
      invariant -1 <= idx < i
      invariant idx < 0 ==> forall j :: 0 <= j < i ==> !(p <= ds[j].id)
      invariant idx >= 0 ==> p <= ds[idx].id && forall j :: 0 <= j < i && j != idx ==> !(p <= ds[j].id)
    {
      if ds[i].id == p || p <= ds[i].id {
        if idx >= 0 {
          return Refuse(Ambiguous);
        }
        idx := i;
      }
    }
    if idx < 0 {
      return Refuse(NoMatch);
    }
    e := Write(ds[..idx] + ds[idx + 1..]);
  }

  // ---------- What each operation comes to ----------

  /** `ds[i]` is the only device whose id starts with `p`. */
  ghost predicate OnlyMatch(ds: seq<Device>, p: string, i: nat) {
    && i < |ds| && p <= ds[i].id
    && forall j :: 0 <= j < |ds| && j != i ==> !(p <= ds[j].id)
  }

  /** A prefix revokes if and only if it names one device alone, and then that
      device goes and the others stay as they are, in their order. */
  lemma RevokeExactlyWhen(ds: seq<Device>, p: string, now: int)
    ensures EditOf(Revoke(p), now, ds).Write? <==> exists i: nat :: OnlyMatch(ds, p, i)
    ensures forall i: nat :: OnlyMatch(ds, p, i) ==> EditOf(Revoke(p), now, ds) == Write(ds[..i] + ds[i + 1..])
    ensures EditOf(Revoke(p), now, ds) == Refuse(Ambiguous) <==>
              exists i, j :: 0 <= i < j < |ds| && p <= ds[i].id && p <= ds[j].id
    ensures EditOf(Revoke(p), now, ds) == Refuse(NoMatch) <==> forall i :: 0 <= i < |ds| ==> !(p <= ds[i].id)
  {
    match Named(ds, p)
    case Nobody =>
    case One(i) => assert OnlyMatch(ds, p, i);
    case Many =>
      var i, j :| 0 <= i < j < |ds| && p <= ds[i].id && p <= ds[j].id;
      forall k: nat ensures !OnlyMatch(ds, p, k) {}
  }

  /** `ds'` is `ds` with the first device called `id` seen now, renamed if a name
      is given. */
  ghost predicate OnlyTouched(ds: seq<Device>, ds': seq<Device>, id: string, name: string, now: int) {
    exists i :: 0 <= i < |ds| && TouchedAt(ds, ds', i, id, name, now)
  }

  ghost predicate TouchedAt(ds: seq<Device>, ds': seq<Device>, i: int, id: string, name: string, now: int)
    requires 0 <= i < |ds|
  {
    && ds[i].id == id && (forall j :: 0 <= j < i ==> ds[j].id != id)
    && |ds'| == |ds| && (forall j :: 0 <= j < |ds| && j != i ==> ds'[j] == ds[j])
    && ds'[i].id == id && ds'[i].firstSeen == ds[i].firstSeen && ds'[i].lastSeen == now
    && (name == "" ==> ds'[i].name == ds[i].name) && (name != "" ==> ds'[i].name == name)
  }

  lemma StampTouches(ds: seq<Device>, id: string, name: string, now: int)
    requires Known(ds, id)
    ensures OnlyTouched(ds, Stamped(ds, IndexOf(ds, id).value, name, now), id, name, now)
  {
    var i := IndexOf(ds, id).value;
    assert TouchedAt(ds, Stamped(ds, i, name, now), i, id, name, now);
  }

  /** Asking for or updating a device writes if and only if the device is known;
      adding one always does, at the end of the list if it is new. */
  lemma TouchExactlyWhen(ds: seq<Device>, id: string, name: string, now: int)
    ensures EditOf(IsTrusted(id), now, ds).Write? <==> Known(ds, id)
    ensures Known(ds, id) ==> OnlyTouched(ds, EditOf(IsTrusted(id), now, ds).devices, id, "", now)
    ensures !Known(ds, id) ==> EditOf(IsTrusted(id), now, ds) == Keep
    ensures EditOf(Trust(id, name), now, ds).Write? <==> Known(ds, id)
    ensures Known(ds, id) ==> OnlyTouched(ds, EditOf(Trust(id, name), now, ds).devices, id, name, now)
    ensures !Known(ds, id) ==> EditOf(Trust(id, name), now, ds) == Refuse(NotTrusted)
    ensures EditOf(AddTrusted(id, name), now, ds).Write?
    ensures Known(ds, id) ==> OnlyTouched(ds, EditOf(AddTrusted(id, name), now, ds).devices, id, name, now)
    ensures !Known(ds, id) ==> EditOf(AddTrusted(id, name), now, ds) == Write(ds + [Device(id, name, now, now)])
  {
    if Known(ds, id) {
      StampTouches(ds, id, "", now);
      StampTouches(ds, id, name, now);
    }
  }

  // ---------- The ids ----------

  function Ids(ds: seq<Device>): seq<string> {
    seq(|ds|, i requires 0 <= i < |ds| => ds[i].id)
  }

  ghost predicate Distinct(ds: seq<Device>) {
    forall i, j :: 0 <= i < j < |ds| ==> ds[i].id != ds[j].id
  }

  /** The ids after an edit: only `AddTrusted` of an absent device adds one, only
      `Revoke` removes one, and they stay distinct. */
  lemma EditOfIds(op: Op, now: int, ds: seq<Device>, ds': seq<Device>)
    requires EditOf(op, now, ds) == Write(ds') && Distinct(ds)
    ensures Distinct(ds')
    ensures op.IsTrusted? || op.Trust? || (op.AddTrusted? && Known(ds, op.id)) ==> Ids(ds') == Ids(ds)
    ensures op.AddTrusted? && !Known(ds, op.id) ==> Ids(ds') == Ids(ds) + [op.id]
    ensures op.Revoke? ==>
              && Named(ds, op.idOrPrefix).One?
              && forall id :: Known(ds', id) <==> Known(ds, id) && id != ds[Named(ds, op.idOrPrefix).index].id
  {
    match op
    case Revoke(p) => RevokedIds(ds, Named(ds, p).index);
    case AddTrusted(id, name) =>
      if Known(ds, id) {
        StampedIds(ds, IndexOf(ds, id).value, name, now);
      } else {
        assert forall i :: 0 <= i < |ds| ==> ds[i].id != id;
      }
    case IsTrusted(id) => StampedIds(ds, IndexOf(ds, id).value, "", now);
    case Trust(id, name) => StampedIds(ds, IndexOf(ds, id).value, name, now);
  }

  lemma StampedIds(ds: seq<Device>, i: nat, name: string, now: int)
    requires i < |ds| && Distinct(ds)
    ensures Ids(Stamped(ds, i, name, now)) == Ids(ds) && Distinct(Stamped(ds, i, name, now))
  {
    var ds' := Stamped(ds, i, name, now);
    assert forall j :: 0 <= j < |ds| ==> ds'[j].id == ds[j].id;
  }

  lemma RevokedIds(ds: seq<Device>, i: nat)
    requires i < |ds| && Distinct(ds)
    ensures var ds' := ds[..i] + ds[i + 1..];
      Distinct(ds') && forall id :: Known(ds', id) <==> Known(ds, id) && id != ds[i].id
  {
    var ds' := ds[..i] + ds[i + 1..];
    forall id ensures Known(ds', id) <==> Known(ds, id) && id != ds[i].id {
      if Known(ds, id) && id != ds[i].id {
        var j :| 0 <= j < |ds| && ds[j].id == id;
        assert ds'[if j < i then j else j - 1].id == id;
      }
      if Known(ds', id) {
        var j :| 0 <= j < |ds'| && ds'[j].id == id;
        assert ds[if j < i then j else j + 1].id == id;
      }
    }
  }

  lemma SameIdsSameKnown(ds: seq<Device>, ds': seq<Device>, id: string)
    ensures Ids(ds') == Ids(ds) ==> (Known(ds', id) <==> Known(ds, id))
    ensures forall other :: Ids(ds') == Ids(ds) + [other] ==> (Known(ds', id) <==> Known(ds, id) || id == other)
  {
    assert Known(ds, id) <==> id in Ids(ds) by { KnownInIds(ds, id); }
    assert Known(ds', id) <==> id in Ids(ds') by { KnownInIds(ds', id); }
  }

  lemma KnownInIds(ds: seq<Device>, id: string)
    ensures Known(ds, id) <==> id in Ids(ds)
  {
    if i :| 0 <= i < |ds| && ds[i].id == id {
      assert Ids(ds)[i] == id;
    }
  }

  // ---------- Storing the edit ----------

  /** What may go wrong in one operation; `writeFails` is the first step of
      writing the temporary file that does. */
  datatype Faults = Faults(
    gateTimeout: bool, lockFails: bool, readFails: bool,
    writeFails: Option<WriteStep>, directorySyncFails: bool, unlockFails: bool)

  /** Nothing goes wrong. */
  predicate Smooth(faults: Faults) {
    && !faults.gateTimeout && !faults.lockFails && !faults.readFails
    && faults.writeFails == None && !faults.directorySyncFails && !faults.unlockFails
  }

  /** The errors of one operation: `committed` is `ErrMutationCommitted`. */
  datatype Error = Error(committed: bool, causes: seq<Cause>)

  class Disk {
    var file: File
    var temp: Option<seq<Device>>

    constructor (file: File)
      ensures this.file == file && temp == None
    {
      this.file, temp := file, None;
    }
  }

  class Store {
    const disk: Disk
    var closed: bool

    constructor (disk: Disk)
      ensures this.disk == disk && !closed
    {
      this.disk, closed := disk, false;
    }

    method ReadDevices(faults: Faults) returns (ds: seq<Device>, err: Option<Cause>)
      ensures err == (if faults.readFails && disk.file != Absent then Some(ReadFailed)
                      else if disk.file == Corrupt then Some(CorruptFile) else None)
      ensures err == None ==> ds == Contents(disk.file)
    {
      match disk.file
      case Absent => return [], None;
      case Corrupt => return [], Some(if faults.readFails then ReadFailed else CorruptFile);
      case Holds(devices) =>
        if faults.readFails {
          return [], Some(ReadFailed);
        }
        return devices, None;
    }

    /** Writes a temporary file and renames it over devices.json: the commit
        point.  A temporary file never outlives the call. */
    method WriteFile(ds: seq<Device>, faults: Faults) returns (committed: bool, err: Option<Cause>)
      modifies disk
      ensures disk.temp == None
      ensures committed <==> faults.writeFails == None
      ensures disk.file == if committed then Holds(ds) else old(disk.file)
      ensures err == if !committed then Some(WriteFailed(faults.writeFails.value))
                     else if faults.directorySyncFails then Some(DirectorySyncFailed) else None
    {
      disk.temp := None;
      match faults.writeFails
      case Some(step) =>
        if !step.CreateTemp? {
          disk.temp := Some(if step.ChmodTemp? || step.WriteTemp? then [] else ds);
        }
        disk.temp := None;
        return false, Some(WriteFailed(step));
      case None =>
        disk.temp := Some(ds);
        disk.file, disk.temp := Holds(disk.temp.value), None;
        return true, if faults.directorySyncFails then Some(DirectorySyncFailed) else None;
    }

    /** One operation under the gate and the file lock.  `wrote`: it crossed the
        commit point. */
    method Locked(op: Op, now: int, faults: Faults) returns (err: Option<Error>, wrote: bool, seen: seq<Device>)
      modifies disk
      ensures Outcome(op, now, faults, closed, old(disk.file), disk.file, err)
      ensures wrote <==> Committed(op, now, faults, closed, old(disk.file)).Some?
      ensures wrote ==> seen == Contents(old(disk.file))
      ensures faults.gateTimeout ==> err == Some(Error(false, [LockTimeout]))
      ensures !faults.gateTimeout && closed ==> err == Some(Error(false, [StoreClosed]))
      ensures !faults.gateTimeout && !closed && faults.lockFails ==> err == Some(Error(false, [LockFailed]))
      ensures !faults.gateTimeout && !closed && !faults.lockFails ==>
                var why := WhyFailed(op, now, faults, old(disk.file));
                var causes :=
                  (if why.Some? then [why.value] else []) + if faults.unlockFails then [UnlockFailed] else [];
                if causes == [] then err == None else err.Some? && err.value.causes == causes
    {
      seen := [];
      if faults.gateTimeout {
        return Some(Error(false, [LockTimeout])), false, [];
      }
      if closed {
        return Some(Error(false, [StoreClosed])), false, [];
      }
      if faults.lockFails {
        return Some(Error(false, [LockFailed])), false, [];
      }
      var causes := [];
      wrote := false;
      var ds, readErr := ReadDevices(faults);
      if readErr.Some? {
        causes := [readErr.value];
      } else {
        seen := ds;
        var e := ComputeEdit(op, now, ds);
        match e
        case Keep =>
        case Refuse(why) => causes := [why];
        case Write(ds') =>
          var writeErr;
          wrote, writeErr := WriteFile(ds', faults);
          causes := if writeErr.Some? then [writeErr.value] else [];
      }
      var combined := causes + (if faults.unlockFails then [UnlockFailed] else []);
      err := if combined == [] then None else Some(Error(wrote, combined));
    }

    /** Reports trust and stamps the device; any failure is a refusal. */
    method IsTrustedDevice(id: string, now: int, faults: Faults) returns (trusted: bool)
      modifies disk
      ensures trusted ==> Known(Contents(old(disk.file)), id)
      ensures trusted ==> disk.file.Holds? && Ids(disk.file.devices) == Ids(Contents(old(disk.file)))
      ensures trusted <==>
                && Committed(IsTrusted(id), now, faults, closed, old(disk.file)).Some?
                && !faults.directorySyncFails && !faults.unlockFails
      ensures trusted <==> !closed && Smooth(faults) && Known(Contents(old(disk.file)), id)
    {
      TouchExactlyWhen(Contents(disk.file), id, "", now);
      var err, wrote, _ := Locked(IsTrusted(id), now, faults);
      trusted := err == None && wrote;
    }

    /** Returns the removed device exactly when it is gone from the file, whether
        or not something failed after that. */
    method RevokeDevice(idOrPrefix: string, now: int, faults: Faults)
      returns (removed: Option<Device>, err: Option<Error>)
      modifies disk
      ensures Outcome(Revoke(idOrPrefix), now, faults, closed, old(disk.file), disk.file, err)
      ensures removed.Some? <==> err == None || err.value.committed
      ensures removed.Some? ==>
                && Named(Contents(old(disk.file)), idOrPrefix).One?
                && removed.value == Contents(old(disk.file))[Named(Contents(old(disk.file)), idOrPrefix).index]
      ensures forall i: nat ::
                !closed && Smooth(faults) && OnlyMatch(Contents(old(disk.file)), idOrPrefix, i) ==>
                  && removed == Some(Contents(old(disk.file))[i]) && err == None
                  && disk.file == Holds(Contents(old(disk.file))[..i] + Contents(old(disk.file))[i + 1..])
    {
      RevokeExactlyWhen(Contents(disk.file), idOrPrefix, now);
      var wrote, seen;
      err, wrote, seen := Locked(Revoke(idOrPrefix), now, faults);
      if err.Some? && !err.value.committed {
        return None, err;
      }
      removed := Some(seen[Named(seen, idOrPrefix).index]);
    }

    method CloseStore(gateTimeout: bool) returns (err: Option<Cause>)
      modifies this`closed
      ensures closed == (old(closed) || !gateTimeout)
      ensures err == if gateTimeout then Some(LockTimeout) else None
    {
      if gateTimeout {
        return Some(LockTimeout);
      }
      closed := true;
      return None;
    }
  }

  function Contents(f: File): seq<Device> {
    if f.Holds? then f.devices else []
  }

  /** What goes wrong first between taking the file lock and giving it back. */
  function WhyFailed(op: Op, now: int, faults: Faults, before: File): (why: Option<Cause>)
    ensures why == Some(ReadFailed) <==> faults.readFails && before != Absent
    ensures why == Some(CorruptFile) <==> before == Corrupt && !faults.readFails
  {
    if faults.readFails && before != Absent then Some(ReadFailed)
    else if before == Corrupt then Some(CorruptFile)
    else
      match EditOf(op, now, Contents(before))
      case Keep => None
      case Refuse(cause) => Some(cause)
      case Write(_) =>
        if faults.writeFails.Some? then Some(WriteFailed(faults.writeFails.value))
        else if faults.directorySyncFails then Some(DirectorySyncFailed) else None
  }

  /** The new contents, if the operation gets as far as an edit that writes and
      no step up to the rename fails. */
  function Committed(op: Op, now: int, faults: Faults, closed: bool, before: File): Option<seq<Device>> {
    if faults.gateTimeout || closed || faults.lockFails || before == Corrupt || (faults.readFails && before != Absent)
    then None
    else
      var e := EditOf(op, now, Contents(before));
      if e.Write? && faults.writeFails == None then Some(e.devices) else None
  }

  /** The promise of the store: the file is replaced exactly by a committed edit;
      the error says `committed` exactly when the new contents are visible and
      something failed afterwards; there is no error exactly when nothing failed
      and nothing was refused. */
  ghost predicate Outcome(
    op: Op, now: int, faults: Faults, closed: bool, before: File, after: File, err: Option<Error>)
  {
    var committed := Committed(op, now, faults, closed, before);
    && after == (if committed.Some? then Holds(committed.value) else before)
    && (err.Some? && err.value.committed <==>
          committed.Some? && (faults.directorySyncFails || faults.unlockFails))
    && (err == None <==>
          && !faults.gateTimeout && !closed && !faults.lockFails && !faults.unlockFails
          && before != Corrupt && (faults.readFails ==> before == Absent)
          && match EditOf(op, now, Contents(before))
             case Keep => true
             case Refuse(_) => false
             case Write(_) => faults.writeFails == None && !faults.directorySyncFails)
    && (err.Some? ==> err.value.causes != [])
  }

  /** What a caller may conclude from the error alone. */
  lemma ErrorTellsWhetherCommitted(
    op: Op, now: int, faults: Faults, closed: bool, before: File, after: File, err: Option<Error>)
    requires Outcome(op, now, faults, closed, before, after, err)
    ensures err.Some? && !err.value.committed ==> after == before
    ensures err == None || err.value.committed ==>
              match EditOf(op, now, Contents(before))
              case Keep => after == before
              case Refuse(_) => false
              case Write(ds) => after == Holds(ds)
  {}

  /** A devices.json that cannot be read is never overwritten, and every operation
      on it fails. */
  lemma CorruptStays(op: Op, now: int, faults: Faults, closed: bool, after: File, err: Option<Error>)
    requires Outcome(op, now, faults, closed, Corrupt, after, err)
    ensures after == Corrupt && err.Some? && !err.value.committed
  {}

  /** When nothing goes wrong every operation takes full effect: what it should
      write is in the file, and it fails only if it was refused. */
  lemma SmoothTakesEffect(op: Op, now: int, faults: Faults, before: File, after: File, err: Option<Error>)
    requires Outcome(op, now, faults, false, before, after, err) && Smooth(faults) && before != Corrupt
    ensures EditOf(op, now, Contents(before)).Write? ==> after == Holds(EditOf(op, now, Contents(before)).devices)
    ensures !EditOf(op, now, Contents(before)).Write? ==> after == before
    ensures err.Some? <==> EditOf(op, now, Contents(before)).Refuse?
  {}
}
