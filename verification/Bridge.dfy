/** The session handed to JavaScript: a vault, its metadata, and at most one pending change. */
module Bridge {
  import opened Wrappers
  import opened Bytes
  import opened Aad
  import opened Model
  import opened Vault
  import opened Device

  datatype BridgeError =
    | VaultFailure(cause: VaultError)
    | Locked
    | SavePending
    | NoSavePending
    | PendingSlotNotVerified
    | ReadbackMismatch
    | MissingMetadata
    | NoPasswordChangePending

  datatype PendingSave = PendingSave(
    slot: Slot, slotText: Text, pointer: Pointer, pointerText: Text, slotVerified: bool)

  datatype PendingChange = PendingChange(meta: Meta, metaText: Text)

  datatype SaveBundle = SaveBundle(slotKey: StorageKey, slotText: Text, pointerText: Text)

  /** The value of a bridge session at one moment. */
  datatype BridgeState = BridgeState(
    vault: Option<Session>, meta: Option<Meta>, pending: Option<PendingSave>, change: Option<PendingChange>)

  datatype Reply<T> = Reply(result: Result<T, BridgeError>, bridge: BridgeState)

  const LOCKED := BridgeState(None, None, None, None)

  function Unlocked(v: Session, meta: Meta): BridgeState {
    BridgeState(Some(v), Some(meta), None, None)
  }

  function Lift<T>(r: Result<T, VaultError>): Result<T, BridgeError> {
    match r
    case Ok(v) => Ok(v)
    case Err(e) => Err(VaultFailure(e))
  }

  /** Edits and new changes need an unlocked session with nothing pending. */
  function EnsureMutable(b: BridgeState): Result<(), BridgeError> {
    if b.pending.Some? || b.change.Some? then Err(SavePending)
    else if b.vault.None? then Err(Locked)
    else Ok(())
  }

  function WithContainer(b: BridgeState, c: Container): BridgeState
    requires b.vault.Some?
  {
    b.(vault := Some(b.vault.value.(container := c)))
  }

  function AfterBridgeAdd(b: BridgeState, input: Fields, now: u64, tape: seq<byte>): Reply<EntryId> {
    match EnsureMutable(b)
    case Err(e) => Reply(Err(e), b)
    case Ok(_) =>
      var edit := AfterAdd(b.vault.value.container, input, now, tape);
      Reply(Lift(edit.result), WithContainer(b, edit.container))
  }

  /** An identifier arrives as text; `None` stands for text that is no identifier. */
  function AfterBridgeUpdate(b: BridgeState, id: Option<EntryId>, input: Fields, now: u64): Reply<()> {
    match EnsureMutable(b)
    case Err(e) => Reply(Err(e), b)
    case Ok(_) =>
      if id.None? then Reply(Err(VaultFailure(InvalidContainer)), b)
      else
        var edit := AfterUpdate(b.vault.value.container, id.value, input, now);
        Reply(Lift(edit.result), WithContainer(b, edit.container))
  }

  function AfterBridgeDelete(b: BridgeState, id: Option<EntryId>, now: u64): Reply<()> {
    match EnsureMutable(b)
    case Err(e) => Reply(Err(e), b)
    case Ok(_) =>
      if id.None? then Reply(Err(VaultFailure(InvalidContainer)), b)
      else
        var edit := AfterDelete(b.vault.value.container, id.value, now);
        Reply(Lift(edit.result), WithContainer(b, edit.container))
  }

  /** The entry a detail request shows. */
  function Lookup(b: BridgeState, id: Option<EntryId>): Result<Entry, BridgeError> {
    if id.None? then Err(VaultFailure(InvalidContainer))
    else if b.vault.None? then Err(Locked)
    else
      match IndexOf(b.vault.value.container.entries, id.value)
      case None => Err(VaultFailure(EntryNotFound))
      case Some(i) => Ok(b.vault.value.container.entries[i])
  }

  function Prepared(slot: Slot): PendingSave {
    var pointer := Pointer(FORMAT_VERSION, slot.slot, slot.generation);
    PendingSave(slot, Json(SlotDoc(slot)), pointer, Json(PointerDoc(pointer)), false)
  }

  function AfterPrepareSave(b: BridgeState, tape: seq<byte>): Reply<SaveBundle> {
    match EnsureMutable(b)
    case Err(e) => Reply(Err(e), b)
    case Ok(_) =>
      match EncryptForSlot(b.vault.value, b.vault.value.slot.Other(), tape)
      case Err(e) => Reply(Err(VaultFailure(e)), b)
      case Ok(slot) =>
        var p := Prepared(slot);
        Reply(Ok(SaveBundle(SlotKey(slot.slot), p.slotText, p.pointerText)), b.(pending := Some(p)))
  }

  function AfterVerifySlot(b: BridgeState, readback: Text): Reply<()> {
    if b.vault.None? then Reply(Err(Locked), b)
    else if b.pending.None? then Reply(Err(NoSavePending), b)
    else
      var p := b.pending.value;
      if readback != p.slotText then Reply(Err(ReadbackMismatch), b)
      else if Parse(readback) != Some(SlotDoc(p.slot)) then Reply(Err(ReadbackMismatch), b)
      else
        match CheckNextSlot(b.vault.value, p.slot)
        case Err(e) => Reply(Err(VaultFailure(e)), b)
        case Ok(_) => Reply(Ok(()), b.(pending := Some(p.(slotVerified := true))))
  }

  function AfterCommitSave(b: BridgeState, readback: Text): Reply<()> {
    if b.pending.None? then Reply(Err(NoSavePending), b)
    else
      var p := b.pending.value;
      if !p.slotVerified then Reply(Err(PendingSlotNotVerified), b)
      else if readback != p.pointerText then Reply(Err(ReadbackMismatch), b)
      else if Parse(readback) != Some(PointerDoc(p.pointer)) then Reply(Err(ReadbackMismatch), b)
      else if b.vault.None? then Reply(Err(Locked), b)
      else
        match CheckNextSlot(b.vault.value, p.slot)
        case Err(e) => Reply(Err(VaultFailure(e)), b)
        case Ok(_) => Reply(Ok(()), b.(vault := Some(Committed(b.vault.value, p.slot)), pending := None))
  }

  function AfterCancelSave(b: BridgeState): BridgeState {
    b.(pending := None)
  }

  function AfterPrepareChange(b: BridgeState, current: Phrase, replacement: Phrase, tape: seq<byte>): Reply<Text> {
    match EnsureMutable(b)
    case Err(e) => Reply(Err(e), b)
    case Ok(_) =>
      if b.meta.None? then Reply(Err(MissingMetadata), b)
      else
        match RewrapVaultKey(current, replacement, b.meta.value, b.vault.value, DEFAULT_KDF_CONFIG, tape)
        case Err(e) => Reply(Err(VaultFailure(e)), b)
        case Ok(m) =>
          Reply(Ok(Json(MetaDoc(m))), b.(change := Some(PendingChange(m, Json(MetaDoc(m))))))
  }

  function AfterCommitChange(b: BridgeState, readback: Text): Reply<()> {
    if b.change.None? then Reply(Err(NoPasswordChangePending), b)
    else if readback != b.change.value.metaText then Reply(Err(ReadbackMismatch), b)
    else if Parse(readback) != Some(MetaDoc(b.change.value.meta)) then Reply(Err(ReadbackMismatch), b)
    else Reply(Ok(()), b.(meta := Some(b.change.value.meta), change := None))
  }

  function AfterCancelChange(b: BridgeState): BridgeState {
    b.(change := None)
  }

  // ---- The object ----

  class VaultBridge {
    var vault: UnlockedVault?
    var metadata: Option<Meta>
    var pending: Option<PendingSave>
    var pendingPasswordChange: Option<PendingChange>

    constructor (v: UnlockedVault, meta: Meta)
      ensures vault == v && Value() == Unlocked(v.Value(), meta)
    {
      vault := v;
      metadata := Some(meta);
      pending := None;
      pendingPasswordChange := None;
    }

    function Value(): BridgeState
      reads this, vault
    {
      BridgeState(if vault == null then None else Some(vault.Value()), metadata, pending, pendingPasswordChange)
    }

    method AddEntry(input: Fields, now: u64, tape: seq<byte>) returns (r: Result<EntryId, BridgeError>)
      modifies this, vault
      ensures Reply(r, Value()) == AfterBridgeAdd(old(Value()), input, now, tape) && vault == old(vault)
    {
      var mutable := EnsureMutable(Value());
      if mutable.Err? {
        return Err(mutable.error);
      }
      var added := vault.AddEntry(input, now, tape);
      return Lift(added);
    }

    method UpdateEntry(id: Option<EntryId>, input: Fields, now: u64) returns (r: Result<(), BridgeError>)
      modifies this, vault
      ensures Reply(r, Value()) == AfterBridgeUpdate(old(Value()), id, input, now) && vault == old(vault)
    {
      var mutable := EnsureMutable(Value());
      if mutable.Err? {
        return mutable;
      }
      if id.None? {
        return Err(VaultFailure(InvalidContainer));
      }
      var updated := vault.UpdateEntry(id.value, input, now);
      return Lift(updated);
    }

    method DeleteEntry(id: Option<EntryId>, now: u64) returns (r: Result<(), BridgeError>)
      modifies this, vault
      ensures Reply(r, Value()) == AfterBridgeDelete(old(Value()), id, now) && vault == old(vault)
    {
      var mutable := EnsureMutable(Value());
      if mutable.Err? {
        return mutable;
      }
      if id.None? {
        return Err(VaultFailure(InvalidContainer));
      }
      var deleted := vault.DeleteEntry(id.value, now);
      return Lift(deleted);
    }

    method PrepareSave(tape: seq<byte>) returns (r: Result<SaveBundle, BridgeError>)
      modifies this
      ensures Reply(r, Value()) == AfterPrepareSave(old(Value()), tape) && vault == old(vault)
    {
      hide EncryptForSlot;
      var mutable := EnsureMutable(Value());
      if mutable.Err? {
        return Err(mutable.error);
      }
      var target := vault.persistedSlot.Other();
      var slot := EncryptForSlot(vault.Value(), target, tape);
      if slot.Err? {
        return Err(VaultFailure(slot.error));
      }
      pending := Some(Prepared(slot.value));
      return Ok(SaveBundle(SlotKey(slot.value.slot), pending.value.slotText, pending.value.pointerText));
    }

    method VerifyPendingSlot(readback: Text) returns (r: Result<(), BridgeError>)
      modifies this
      ensures Reply(r, Value()) == AfterVerifySlot(old(Value()), readback) && vault == old(vault)
    {
      hide CheckNextSlot;
      if vault == null {
        return Err(Locked);
      }
      if pending.None? {
        return Err(NoSavePending);
      }
      if readback != pending.value.slotText {
        return Err(ReadbackMismatch);
      }
      if Parse(readback) != Some(SlotDoc(pending.value.slot)) {
        return Err(ReadbackMismatch);
      }
      var verified := CheckNextSlot(vault.Value(), pending.value.slot);
      if verified.Err? {
        return Err(VaultFailure(verified.error));
      }
      pending := Some(pending.value.(slotVerified := true));
      return Ok(());
    }

    method CommitPendingSave(readback: Text) returns (r: Result<(), BridgeError>)
      modifies this, vault
      ensures Reply(r, Value()) == AfterCommitSave(old(Value()), readback) && vault == old(vault)
    {
      hide CheckNextSlot;
      if pending.None? {
        return Err(NoSavePending);
      }
      if !pending.value.slotVerified {
        return Err(PendingSlotNotVerified);
      }
      if readback != pending.value.pointerText {
        return Err(ReadbackMismatch);
      }
      if Parse(readback) != Some(PointerDoc(pending.value.pointer)) {
        return Err(ReadbackMismatch);
      }
      if vault == null {
        return Err(Locked);
      }
      var committed := vault.CommitVerifiedSlot(pending.value.slot);
      if committed.Err? {
        return Err(VaultFailure(committed.error));
      }
      pending := None;
      return Ok(());
    }

    method CancelPendingSave()
      modifies this
      ensures Value() == AfterCancelSave(old(Value())) && vault == old(vault)
    {
      pending := None;
    }

    method PreparePasswordChange(current: Phrase, replacement: Phrase, tape: seq<byte>)
      returns (r: Result<Text, BridgeError>)
      modifies this
      ensures Reply(r, Value()) == AfterPrepareChange(old(Value()), current, replacement, tape) && vault == old(vault)
    {
      hide RewrapVaultKey;
      var mutable := EnsureMutable(Value());
      if mutable.Err? {
        return Err(mutable.error);
      }
      if metadata.None? {
        return Err(MissingMetadata);
      }
      var candidate := RewrapVaultKey(current, replacement, metadata.value, vault.Value(), DEFAULT_KDF_CONFIG, tape);
      if candidate.Err? {
        return Err(VaultFailure(candidate.error));
      }
      pendingPasswordChange := Some(PendingChange(candidate.value, Json(MetaDoc(candidate.value))));
      return Ok(Json(MetaDoc(candidate.value)));
    }

    method CommitPasswordChange(readback: Text) returns (r: Result<(), BridgeError>)
      modifies this
      ensures Reply(r, Value()) == AfterCommitChange(old(Value()), readback) && vault == old(vault)
    {
      if pendingPasswordChange.None? {
        return Err(NoPasswordChangePending);
      }
      if readback != pendingPasswordChange.value.metaText {
        return Err(ReadbackMismatch);
      }
      if Parse(readback) != Some(MetaDoc(pendingPasswordChange.value.meta)) {
        return Err(ReadbackMismatch);
      }
      metadata := Some(pendingPasswordChange.value.meta);
      pendingPasswordChange := None;
      return Ok(());
    }

    method CancelPasswordChange()
      modifies this
      ensures Value() == AfterCancelChange(old(Value())) && vault == old(vault)
    {
      pendingPasswordChange := None;
    }

    method Lock()
      modifies this
      ensures Value() == LOCKED && vault == null
    {
      pending := None;
      pendingPasswordChange := None;
      metadata := None;
      vault := null;
    }
  }
}
