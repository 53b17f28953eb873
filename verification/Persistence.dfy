/**
 The JavaScript side of persistence: ordered storage steps around the bridge session. A lock event
 may arrive while any storage step of a save or a phrase change is awaited; `lockAt` numbers that
 step, and 0 means no lock arrives.
 */
module Persistence {
  import opened Wrappers
  import opened Bytes
  import opened Aad
  import opened Model
  import opened Vault
  import opened Device
  import opened Repository
  import opened Bridge

  datatype JsError =
    | BridgeFailure(cause: BridgeError)
    | DeviceFailure(error: VaultError)
    | WriteNotVerified
    | MissingReadback
    | AlreadyExists
    | InvalidTimestamp

  datatype JsStep<T> = JsStep(result: Result<T, JsError>, disk: Disk, bridge: BridgeState)

  datatype DeviceStep<T> = DeviceStep(result: Result<T, JsError>, disk: Disk)

  function LiftBridge<T>(r: Result<T, BridgeError>): Result<T, JsError> {
    match r
    case Ok(v) => Ok(v)
    case Err(e) => Err(BridgeFailure(e))
  }

  // ---- The verifying adapter ----

  /** A write counts as done when a readback shows the value, whatever the write itself reported. */
  function AdapterSet(d: Disk, key: StorageKey, text: Text): (s: DeviceStep<()>)
    ensures s.disk.cells == d.cells.With(key, s.disk.cells.At(key))
    ensures s.disk.cells.At(key) == Landed(d.Next(), d.cells.At(key), Some(text))
    ensures s.result.Ok? ==> s.disk.cells.At(key) == Some(text)
  {
    var read := Get(Set(d, key, text).disk, key);
    DeviceStep(
      match read.result
      case Err(e) => Err(DeviceFailure(e))
      case Ok(stored) => if stored == Some(text) then Ok(()) else Err(WriteNotVerified),
      read.disk)
  }

  function AdapterRemove(d: Disk, key: StorageKey): (s: DeviceStep<()>)
    ensures s.disk.cells == d.cells.With(key, s.disk.cells.At(key))
    ensures s.result.Ok? ==> s.disk.cells.At(key) == None
  {
    var read := Get(Remove(d, key).disk, key);
    DeviceStep(
      match read.result
      case Err(e) => Err(DeviceFailure(e))
      case Ok(stored) => if stored == None then Ok(()) else Err(WriteNotVerified),
      read.disk)
  }

  /** A readback that must find something. */
  function AdapterRead(d: Disk, key: StorageKey): DeviceStep<Text> {
    var read := Get(d, key);
    DeviceStep(
      match read.result
      case Err(e) => Err(DeviceFailure(e))
      case Ok(None) => Err(MissingReadback)
      case Ok(Some(t)) => Ok(t),
      read.disk)
  }

  /** Why a step of the adapter fails: a failed readback, or one that shows something else; never for a report alone. */
  lemma AdapterSaysWhy(d: Disk, key: StorageKey, text: Text)
    ensures var s := AdapterSet(d, key, text);
            s.result == if !Disk(d.cells, d.Rest()).Next().Works? then Err(DeviceFailure(Storage(ReadFailed)))
                        else if Landed(d.Next(), d.cells.At(key), Some(text)) != Some(text) then Err(WriteNotVerified)
                        else s.result
    ensures var s := AdapterRemove(d, key);
            s.result == if !Disk(d.cells, d.Rest()).Next().Works? then Err(DeviceFailure(Storage(ReadFailed)))
                        else if Landed(d.Next(), d.cells.At(key), None) != None then Err(WriteNotVerified)
                        else s.result
    ensures AdapterSet(d, key, text).result.Ok? <==>
      Disk(d.cells, d.Rest()).Next().Works? && Landed(d.Next(), d.cells.At(key), Some(text)) == Some(text)
    ensures AdapterRemove(d, key).result.Ok? <==>
      Disk(d.cells, d.Rest()).Next().Works? && Landed(d.Next(), d.cells.At(key), None) == None
    ensures match AdapterRead(d, key).result
            case Ok(t) => d.Next().Works? && d.cells.At(key) == Some(t)
            case Err(e) =>
              if d.Next().Works? then d.cells.At(key) == None && e == MissingReadback
              else e == DeviceFailure(Storage(ReadFailed))
  {
  }

  // ---- Operations, on values ----

  function Awaited(b: BridgeState, lockAt: nat, step: nat): BridgeState {
    if lockAt == step then LOCKED else b
  }

  /** Writes the prepared slot, reads it back and has the session verify it. */
  function SlotStage(d: Disk, b: BridgeState, bundle: SaveBundle, lockAt: nat): JsStep<()> {
    var w := AdapterSet(d, bundle.slotKey, bundle.slotText);
    var b1 := Awaited(b, lockAt, 1);
    if w.result.Err? then JsStep(w.result, w.disk, b1)
    else
      var r := AdapterRead(w.disk, bundle.slotKey);
      var b2 := Awaited(b1, lockAt, 2);
      match r.result
      case Err(e) => JsStep(Err(e), r.disk, b2)
      case Ok(readback) =>
        var verified := AfterVerifySlot(b2, readback);
        JsStep(LiftBridge(verified.result), r.disk, verified.bridge)
  }

  /** Writes the prepared pointer, reads it back and has the session commit. */
  function PointerStage(d: Disk, b: BridgeState, bundle: SaveBundle, lockAt: nat): JsStep<()> {
    var w := AdapterSet(d, PointerKey, bundle.pointerText);
    var b1 := Awaited(b, lockAt, 3);
    if w.result.Err? then JsStep(w.result, w.disk, b1)
    else
      var r := AdapterRead(w.disk, PointerKey);
      var b2 := Awaited(b1, lockAt, 4);
      match r.result
      case Err(e) => JsStep(Err(e), r.disk, b2)
      case Ok(readback) =>
        var committed := AfterCommitSave(b2, readback);
        JsStep(LiftBridge(committed.result), r.disk, committed.bridge)
  }

  function AfterSaveSession(d: Disk, b: BridgeState, tape: seq<byte>, lockAt: nat): JsStep<()> {
    var prepared := AfterPrepareSave(b, tape);
    match prepared.result
    case Err(e) => JsStep(Err(BridgeFailure(e)), d, b)
    case Ok(bundle) =>
      var first := SlotStage(d, prepared.bridge, bundle, lockAt);
      var last := if first.result.Err? then first else PointerStage(first.disk, first.bridge, bundle, lockAt);
      if last.result.Err? then last.(bridge := AfterCancelSave(last.bridge)) else last
  }

  /** Writes the candidate metadata, reads it back and has the session commit. */
  function MetaStage(d: Disk, b: BridgeState, text: Text, lockAt: nat): JsStep<()> {
    var w := AdapterSet(d, MetaKey, text);
    var b1 := Awaited(b, lockAt, 1);
    if w.result.Err? then JsStep(w.result, w.disk, b1)
    else
      var r := AdapterRead(w.disk, MetaKey);
      var b2 := Awaited(b1, lockAt, 2);
      match r.result
      case Err(e) => JsStep(Err(e), r.disk, b2)
      case Ok(readback) =>
        var committed := AfterCommitChange(b2, readback);
        JsStep(LiftBridge(committed.result), r.disk, committed.bridge)
  }

  function AfterChangePhrase(
    d: Disk, b: BridgeState, current: Phrase, replacement: Phrase, tape: seq<byte>, lockAt: nat): JsStep<()>
  {
    var prepared := AfterPrepareChange(b, current, replacement, tape);
    match prepared.result
    case Err(e) => JsStep(Err(BridgeFailure(e)), d, b)
    case Ok(text) =>
      var last := MetaStage(d, prepared.bridge, text, lockAt);
      if last.result.Err? then last.(bridge := AfterCancelChange(last.bridge)) else last
  }

  /** All four cells, or the first error: one failed read rejects the whole snapshot. */
  function LoadSnapshot(d: Disk): DeviceStep<Cells> {
    var m := Get(d, MetaKey);
    var a := Get(m.disk, SlotKey(A));
    var b := Get(a.disk, SlotKey(B));
    var p := Get(b.disk, PointerKey);
    DeviceStep(
      if m.result.Err? then Err(DeviceFailure(m.result.error))
      else if a.result.Err? then Err(DeviceFailure(a.result.error))
      else if b.result.Err? then Err(DeviceFailure(b.result.error))
      else if p.result.Err? then Err(DeviceFailure(p.result.error))
      else Ok(Cells(m.result.value, a.result.value, b.result.value, p.result.value)),
      p.disk)
  }

  datatype OpenBundle = OpenBundle(session: BridgeState, repairedPointer: Option<Text>)

  /** Opens a snapshot through a repository over memory that never fails. */
  function OpenSnapshot(cells: Cells, phrase: Phrase): Result<OpenBundle, BridgeError> {
    match cells.meta
    case None => Err(MissingMetadata)
    case Some(text) =>
      match Parse(text)
      case Some(MetaDoc(meta)) =>
        var after := AfterOpen(Disk(cells, []), phrase);
        var o :- Lift(after.result);
        Ok(OpenBundle(Unlocked(o.session, meta), if o.repaired then after.disk.cells.pointer else None))
      case _ => Err(VaultFailure(InvalidMetadata))
  }

  function AfterOpenSession(d: Disk, phrase: Phrase): JsStep<()> {
    var snapshot := LoadSnapshot(d);
    match snapshot.result
    case Err(e) => JsStep(Err(e), snapshot.disk, LOCKED)
    case Ok(cells) =>
      match OpenSnapshot(cells, phrase)
      case Err(e) => JsStep(Err(BridgeFailure(e)), snapshot.disk, LOCKED)
      case Ok(bundle) =>
        if bundle.repairedPointer.None? then JsStep(Ok(()), snapshot.disk, bundle.session)
        else
          var w := AdapterSet(snapshot.disk, PointerKey, bundle.repairedPointer.value);
          JsStep(w.result, w.disk, if w.result.Ok? then bundle.session else LOCKED)
  }

  function PersistCreated(d: Disk, created: Created): DeviceStep<()> {
    var s := AdapterSet(d, SlotKey(created.initialSlot.slot), Json(SlotDoc(created.initialSlot)));
    if s.result.Err? then s
    else
      var m := AdapterSet(s.disk, MetaKey, Json(MetaDoc(created.meta)));
      if m.result.Err? then m
      else AdapterSet(m.disk, PointerKey, Json(PointerDoc(created.activeSlot)))
  }

  /** The clock reading arrives as a number; `None` stands for one that is no timestamp. */
  function AfterCreateSession(d: Disk, phrase: Phrase, now: Option<u64>, tape: seq<byte>): JsStep<()> {
    var existing := Get(d, MetaKey);
    match existing.result
    case Err(e) => JsStep(Err(DeviceFailure(e)), existing.disk, LOCKED)
    case Ok(Some(_)) => JsStep(Err(AlreadyExists), existing.disk, LOCKED)
    case Ok(None) =>
      if now.None? then JsStep(Err(InvalidTimestamp), existing.disk, LOCKED)
      else match CreateVault(phrase, DEFAULT_KDF_CONFIG, now.value, tape)
      case Err(e) => JsStep(Err(BridgeFailure(VaultFailure(e))), existing.disk, LOCKED)
      case Ok(created) =>
        var w := PersistCreated(existing.disk, created);
        JsStep(w.result, w.disk, if w.result.Ok? then Unlocked(created.session, created.meta) else LOCKED)
  }

  const DESTROY_ORDER: seq<StorageKey> := [SlotKey(A), SlotKey(B), PointerKey, MetaKey]

  function RemoveAll(d: Disk, keys: seq<StorageKey>): DeviceStep<()>
    decreases keys
  {
    if keys == [] then DeviceStep(Ok(()), d)
    else
      var r := AdapterRemove(d, keys[0]);
      if r.result.Err? then r else RemoveAll(r.disk, keys[1..])
  }

  // ---- The object ----

  class VaultPersistence {
    const device: DeviceStorage

    constructor (device: DeviceStorage)
      ensures this.device == device
    {
      this.device := device;
    }

    method SetVerified(key: StorageKey, text: Text) returns (r: Result<(), JsError>)
      modifies device
      ensures DeviceStep(r, device.Value()) == AdapterSet(old(device.Value()), key, text)
    {
      var reported := device.SetItem(key, text);
      var stored := device.GetItem(key);
      if stored.Err? {
        return Err(DeviceFailure(stored.error));
      }
      return if stored.value == Some(text) then Ok(()) else Err(WriteNotVerified);
    }

    method RemoveVerified(key: StorageKey) returns (r: Result<(), JsError>)
      modifies device
      ensures DeviceStep(r, device.Value()) == AdapterRemove(old(device.Value()), key)
    {
      var reported := device.RemoveItem(key);
      var stored := device.GetItem(key);
      if stored.Err? {
        return Err(DeviceFailure(stored.error));
      }
      return if stored.value == None then Ok(()) else Err(WriteNotVerified);
    }

    method GetExisting(key: StorageKey) returns (r: Result<Text, JsError>)
      modifies device
      ensures DeviceStep(r, device.Value()) == AdapterRead(old(device.Value()), key)
    {
      var stored := device.GetItem(key);
      if stored.Err? {
        return Err(DeviceFailure(stored.error));
      }
      return if stored.value.None? then Err(MissingReadback) else Ok(stored.value.value);
    }

    method DeliverLock(session: VaultBridge, lockAt: nat, step: nat)
      modifies session
      ensures session.Value() == Awaited(old(session.Value()), lockAt, step)
      ensures session.vault == old(session.vault) || session.vault == null
    {
      if lockAt == step {
        session.Lock();
      }
    }

    method WriteSlot(session: VaultBridge, bundle: SaveBundle, lockAt: nat) returns (r: Result<(), JsError>)
      modifies device, session
      ensures JsStep(r, device.Value(), session.Value())
           == SlotStage(old(device.Value()), old(session.Value()), bundle, lockAt)
      ensures session.vault == old(session.vault) || session.vault == null
    {
      hide AdapterSet, AdapterRead, AfterVerifySlot;
      r := SetVerified(bundle.slotKey, bundle.slotText);
      DeliverLock(session, lockAt, 1);
      if r.Err? {
        return;
      }
      var readback := GetExisting(bundle.slotKey);
      DeliverLock(session, lockAt, 2);
      if readback.Err? {
        return Err(readback.error);
      }
      var verified := session.VerifyPendingSlot(readback.value);
      return LiftBridge(verified);
    }

    method WritePointer(session: VaultBridge, bundle: SaveBundle, lockAt: nat) returns (r: Result<(), JsError>)
      modifies device, session, session.vault
      ensures JsStep(r, device.Value(), session.Value())
           == PointerStage(old(device.Value()), old(session.Value()), bundle, lockAt)
      ensures session.vault == old(session.vault) || session.vault == null
    {
      hide AdapterSet, AdapterRead, AfterCommitSave;
      r := SetVerified(PointerKey, bundle.pointerText);
      DeliverLock(session, lockAt, 3);
      if r.Err? {
        return;
      }
      var readback := GetExisting(PointerKey);
      DeliverLock(session, lockAt, 4);
      if readback.Err? {
        return Err(readback.error);
      }
      var committed := session.CommitPendingSave(readback.value);
      return LiftBridge(committed);
    }

    method SaveSession(session: VaultBridge, tape: seq<byte>, lockAt: nat) returns (r: Result<(), JsError>)
      modifies device, session, session.vault
      ensures JsStep(r, device.Value(), session.Value())
           == AfterSaveSession(old(device.Value()), old(session.Value()), tape, lockAt)
      ensures session.vault == old(session.vault) || session.vault == null
    {
      hide SlotStage, PointerStage, AfterPrepareSave;
      ghost var before := session.Value();
      PrepareFailureKeeps(before, tape);
      var bundle := session.PrepareSave(tape);
      if bundle.Err? {
        return Err(BridgeFailure(bundle.error));
      }
      r := WriteSlot(session, bundle.value, lockAt);
      if r.Ok? {
        r := WritePointer(session, bundle.value, lockAt);
      }
      if r.Err? {
        session.CancelPendingSave();
      }
    }

    method WriteMeta(session: VaultBridge, text: Text, lockAt: nat) returns (r: Result<(), JsError>)
      modifies device, session
      ensures JsStep(r, device.Value(), session.Value())
           == MetaStage(old(device.Value()), old(session.Value()), text, lockAt)
      ensures session.vault == old(session.vault) || session.vault == null
    {
      hide AdapterSet, AdapterRead, AfterCommitChange;
      r := SetVerified(MetaKey, text);
      DeliverLock(session, lockAt, 1);
      if r.Err? {
        return;
      }
      var readback := GetExisting(MetaKey);
      DeliverLock(session, lockAt, 2);
      if readback.Err? {
        return Err(readback.error);
      }
      var committed := session.CommitPasswordChange(readback.value);
      return LiftBridge(committed);
    }

    method ChangeMasterPassword(session: VaultBridge, current: Phrase, replacement: Phrase, tape: seq<byte>, lockAt: nat)
      returns (r: Result<(), JsError>)
      modifies device, session
      ensures JsStep(r, device.Value(), session.Value())
           == AfterChangePhrase(old(device.Value()), old(session.Value()), current, replacement, tape, lockAt)
      ensures session.vault == old(session.vault) || session.vault == null
    {
      hide MetaStage, AfterPrepareChange;
      PrepareChangeFailureKeeps(session.Value(), current, replacement, tape);
      var text := session.PreparePasswordChange(current, replacement, tape);
      if text.Err? {
        return Err(BridgeFailure(text.error));
      }
      r := WriteMeta(session, text.value, lockAt);
      if r.Err? {
        session.CancelPasswordChange();
      }
    }

    method LoadAll() returns (r: Result<Cells, JsError>)
      modifies device
      ensures DeviceStep(r, device.Value()) == LoadSnapshot(old(device.Value()))
    {
      var m := device.GetItem(MetaKey);
      var a := device.GetItem(SlotKey(A));
      var b := device.GetItem(SlotKey(B));
      var p := device.GetItem(PointerKey);
      if m.Err? {
        return Err(DeviceFailure(m.error));
      }
      if a.Err? {
        return Err(DeviceFailure(a.error));
      }
      if b.Err? {
        return Err(DeviceFailure(b.error));
      }
      if p.Err? {
        return Err(DeviceFailure(p.error));
      }
      return Ok(Cells(m.value, a.value, b.value, p.value));
    }

    /** Opening in the bridge: a repository over an in-memory copy of the snapshot. */
    method OpenBridge(cells: Cells, phrase: Phrase)
      returns (r: Result<Option<Text>, BridgeError>, session: VaultBridge?)
      ensures match OpenSnapshot(cells, phrase)
              case Err(e) => r == Err(e) && session == null
              case Ok(bundle) =>
                && r == Ok(bundle.repairedPointer)
                && session != null && fresh(session) && session.vault != null && fresh(session.vault)
                && session.Value() == bundle.session
    {
      hide AfterOpen;
      if cells.meta.None? {
        return Err(MissingMetadata), null;
      }
      match Parse(cells.meta.value)
      case Some(MetaDoc(meta)) =>
        var memory := new DeviceStorage(Disk(cells, []));
        var repository := new TwoSlotRepository(memory);
        var repaired, vault := repository.Open(phrase);
        if repaired.Err? {
          return Err(VaultFailure(repaired.error)), null;
        }
        session := new VaultBridge(vault, meta);
        return Ok(if repaired.value then memory.cells.pointer else None), session;
      case _ =>
        return Err(VaultFailure(InvalidMetadata)), null;
    }

    method OpenSession(phrase: Phrase) returns (r: Result<(), JsError>, session: VaultBridge?)
      modifies device
      ensures var after := AfterOpenSession(old(device.Value()), phrase);
              && r == after.result && device.Value() == after.disk
              && (r.Ok? ==> session != null && fresh(session) && session.vault != null && fresh(session.vault)
                            && session.Value() == after.bridge)
              && (r.Err? ==> session == null)
    {
      hide LoadSnapshot, OpenSnapshot, AdapterSet;
      var cells := LoadAll();
      if cells.Err? {
        return Err(cells.error), null;
      }
      var repaired, unlocked := OpenBridge(cells.value, phrase);
      if repaired.Err? {
        return Err(BridgeFailure(repaired.error)), null;
      }
      if repaired.value.Some? {
        var written := SetVerified(PointerKey, repaired.value.value);
        if written.Err? {
          unlocked.Lock();
          return written, null;
        }
        return written, unlocked;
      }
      return Ok(()), unlocked;
    }

    method PersistBundle(created: Created) returns (r: Result<(), JsError>)
      modifies device
      ensures DeviceStep(r, device.Value()) == PersistCreated(old(device.Value()), created)
    {
      hide AdapterSet;
      r := SetVerified(SlotKey(created.initialSlot.slot), Json(SlotDoc(created.initialSlot)));
      if r.Err? {
        return;
      }
      r := SetVerified(MetaKey, Json(MetaDoc(created.meta)));
      if r.Err? {
        return;
      }
      r := SetVerified(PointerKey, Json(PointerDoc(created.activeSlot)));
    }

    method CreateSession(phrase: Phrase, now: Option<u64>, tape: seq<byte>)
      returns (r: Result<(), JsError>, session: VaultBridge?)
      modifies device
      ensures var after := AfterCreateSession(old(device.Value()), phrase, now, tape);
              && r == after.result && device.Value() == after.disk
              && (r.Ok? ==> session != null && fresh(session) && session.vault != null && fresh(session.vault)
                            && session.Value() == after.bridge)
              && (r.Err? ==> session == null)
    {
      hide CreateVault, PersistCreated;
      var existing := device.GetItem(MetaKey);
      if existing.Err? {
        return Err(DeviceFailure(existing.error)), null;
      }
      if existing.value.Some? {
        return Err(AlreadyExists), null;
      }
      if now.None? {
        return Err(InvalidTimestamp), null;
      }
      var created := CreateVault(phrase, DEFAULT_KDF_CONFIG, now.value, tape);
      if created.Err? {
        return Err(BridgeFailure(VaultFailure(created.error))), null;
      }
      var vault := new UnlockedVault(created.value.session);
      session := new VaultBridge(vault, created.value.meta);
      r := PersistBundle(created.value);
      if r.Err? {
        session.Lock();
        session := null;
      }
    }

    method DestroySession(session: VaultBridge?) returns (r: Result<(), JsError>)
      modifies device, session
      ensures DeviceStep(r, device.Value()) == RemoveAll(old(device.Value()), DESTROY_ORDER)
      ensures session != null ==> session.Value() == LOCKED && session.vault == null
    {
      hide AdapterRemove;
      if session != null {
        session.Lock();
      }
      for i := 0 to |DESTROY_ORDER|
        invariant RemoveAll(old(device.Value()), DESTROY_ORDER) == RemoveAll(device.Value(), DESTROY_ORDER[i..])
        invariant session != null ==> session.Value() == LOCKED && session.vault == null
      {
        r := RemoveVerified(DESTROY_ORDER[i]);
        assert DESTROY_ORDER[i..][1..] == DESTROY_ORDER[i + 1..];
        if r.Err? {
          return;
        }
      }
      return Ok(());
    }
  }

  lemma PrepareFailureKeeps(b: BridgeState, tape: seq<byte>)
    ensures AfterPrepareSave(b, tape).result.Err? ==> AfterPrepareSave(b, tape).bridge == b
  {
    hide EncryptForSlot;
  }

  lemma PrepareChangeFailureKeeps(b: BridgeState, current: Phrase, replacement: Phrase, tape: seq<byte>)
    ensures AfterPrepareChange(b, current, replacement, tape).result.Err? ==>
      AfterPrepareChange(b, current, replacement, tape).bridge == b
  {
    hide RewrapVaultKey;
  }
}
