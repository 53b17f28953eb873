/** What every sequence of bridge calls keeps, and when a pending save is certain to commit. */
module BridgeProperties {
  import opened Wrappers
  import opened Bytes
  import opened Aad
  import opened Model
  import opened Validation
  import opened Vault
  import opened VaultProperties
  import opened Bridge

  datatype Call =
    | CallAdd(input: Fields, now: u64, tape: seq<byte>)
    | CallUpdate(id: Option<EntryId>, input: Fields, now: u64)
    | CallDelete(id: Option<EntryId>, now: u64)
    | CallPrepareSave(tape: seq<byte>)
    | CallVerifySlot(readback: Text)
    | CallCommitSave(readback: Text)
    | CallCancelSave
    | CallPrepareChange(current: Phrase, replacement: Phrase, tape: seq<byte>)
    | CallCommitChange(readback: Text)
    | CallCancelChange
    | CallLock

  function AfterCall(b: BridgeState, call: Call): BridgeState {
    match call
    case CallAdd(input, now, tape) => AfterBridgeAdd(b, input, now, tape).bridge
    case CallUpdate(id, input, now) => AfterBridgeUpdate(b, id, input, now).bridge
    case CallDelete(id, now) => AfterBridgeDelete(b, id, now).bridge
    case CallPrepareSave(tape) => AfterPrepareSave(b, tape).bridge
    case CallVerifySlot(readback) => AfterVerifySlot(b, readback).bridge
    case CallCommitSave(readback) => AfterCommitSave(b, readback).bridge
    case CallCancelSave => AfterCancelSave(b)
    case CallPrepareChange(current, replacement, tape) => AfterPrepareChange(b, current, replacement, tape).bridge
    case CallCommitChange(readback) => AfterCommitChange(b, readback).bridge
    case CallCancelChange => AfterCancelChange(b)
    case CallLock => LOCKED
  }

  function AfterCalls(b: BridgeState, calls: seq<Call>): BridgeState
    decreases calls
  {
    if calls == [] then b else AfterCalls(AfterCall(b, calls[0]), calls[1..])
  }

  /** The phrase that metadata's wrapped key was sealed for, if it was sealed for one. */
  function PhraseOf(meta: Meta): Option<Phrase> {
    if meta.wrappedDek.ciphertext.Sealed? && meta.wrappedDek.ciphertext.key.PhraseKey?
    then Some(meta.wrappedDek.ciphertext.key.phrase)
    else None
  }

  /** The identity of a vault that its metadata, slots and sessions share. */
  datatype Identity = Identity(vaultId: VaultId, createdAt: u64, dek: Dek)

  function IdentityOf(v: Session): Identity {
    Identity(v.container.vaultId, v.container.createdAt, v.dek)
  }

  /** Metadata of a vault whose data key opens with the one phrase it was wrapped for. */
  predicate MetaOf(meta: Meta, id: Identity) {
    && meta.vaultId == id.vaultId && meta.createdAt == id.createdAt
    && PhraseOf(meta).Some? && Unwraps(meta, PhraseOf(meta).value, id.dek)
  }

  /** A pending save is for the inactive slot at the next generation and holds the current contents. */
  predicate PendingFits(p: PendingSave, v: Session) {
    && p == Prepared(p.slot).(slotVerified := p.slotVerified)
    && v.container.generation < U64_MAX
    && p.slot.slot == v.slot.Other() && p.slot.generation == v.container.generation + 1
    && ValidSlot(p.slot, v.container.vaultId)
    && DecryptContainer(v.dek, p.slot) == Ok(NextContainer(v.container))
  }

  predicate BridgeInv(b: BridgeState) {
    && !(b.pending.Some? && b.change.Some?)
    && (b.vault.None? ==> b == LOCKED)
    && (b.vault.Some? ==>
          && Sound(b.vault.value.container)
          && b.meta.Some? && MetaOf(b.meta.value, IdentityOf(b.vault.value)))
    && (b.pending.Some? ==> b.vault.Some? && PendingFits(b.pending.value, b.vault.value))
    && (b.change.Some? ==>
          && b.vault.Some? && MetaOf(b.change.value.meta, IdentityOf(b.vault.value))
          && b.change.value.metaText == Json(MetaDoc(b.change.value.meta)))
  }

  lemma EditKeepsBridge(b: BridgeState, request: Request)
    requires BridgeInv(b) && b.vault.Some? && b.pending.None? && b.change.None?
    ensures BridgeInv(WithContainer(b, AfterEdit(b.vault.value.container, request)))
  {
    hide AfterEdit, Sound, Unwraps;
    EditKeepsSound(b.vault.value.container, request);
  }

  lemma PrepareKeepsBridge(b: BridgeState, tape: seq<byte>)
    requires BridgeInv(b)
    ensures BridgeInv(AfterPrepareSave(b, tape).bridge)
  {
    hide EncryptForSlot, Sound, MetaOf, DecryptContainer, ValidSlot, CheckNextSlot;
    if EnsureMutable(b).Ok? && EncryptForSlot(b.vault.value, b.vault.value.slot.Other(), tape).Ok? {
      EncryptedSlotVerifies(b.vault.value, tape);
    }
  }

  lemma RewrapKeepsBridge(b: BridgeState, current: Phrase, replacement: Phrase, tape: seq<byte>)
    requires BridgeInv(b)
    ensures BridgeInv(AfterPrepareChange(b, current, replacement, tape).bridge)
  {
    hide Sound, PendingFits, WrappedDekAad;
  }

  lemma CommitKeepsBridge(b: BridgeState, readback: Text)
    requires BridgeInv(b)
    ensures BridgeInv(AfterVerifySlot(b, readback).bridge)
    ensures BridgeInv(AfterCommitSave(b, readback).bridge)
    ensures BridgeInv(AfterCommitChange(b, readback).bridge)
  {
    hide DecryptContainer, ValidSlot, Unwraps, CheckNextSlot, ValidMeta, GoodEntries;
  }

  lemma CallKeepsBridge(b: BridgeState, call: Call)
    requires BridgeInv(b)
    ensures BridgeInv(AfterCall(b, call))
  {
    hide BridgeInv, AfterAdd, AfterUpdate, AfterDelete, AfterPrepareSave, AfterVerifySlot, AfterCommitSave,
         AfterPrepareChange, AfterCommitChange;
    BridgeBasics(b);
    match call
    case CallAdd(input, now, tape) =>
      if EnsureMutable(b).Ok? {
        EditKeepsBridge(b, Add(input, now, tape));
      }
    case CallUpdate(id, input, now) =>
      if EnsureMutable(b).Ok? && id.Some? {
        EditKeepsBridge(b, Update(id.value, input, now));
      }
    case CallDelete(id, now) =>
      if EnsureMutable(b).Ok? && id.Some? {
        EditKeepsBridge(b, Delete(id.value, now));
      }
    case CallPrepareSave(tape) => PrepareKeepsBridge(b, tape);
    case CallVerifySlot(readback) => CommitKeepsBridge(b, readback);
    case CallCommitSave(readback) => CommitKeepsBridge(b, readback);
    case CallPrepareChange(current, replacement, tape) => RewrapKeepsBridge(b, current, replacement, tape);
    case CallCommitChange(readback) => CommitKeepsBridge(b, readback);
    case CallCancelSave =>
    case CallCancelChange =>
    case CallLock =>
  }

  /** Cancelling and locking keep the invariant. */
  lemma BridgeBasics(b: BridgeState)
    requires BridgeInv(b)
    ensures BridgeInv(AfterCancelSave(b)) && BridgeInv(AfterCancelChange(b)) && BridgeInv(LOCKED)
  {
    hide Sound, MetaOf, PendingFits;
  }

  /** After any sequence of bridge calls: one pending change at most, none when locked, each one fitting. */
  lemma {:induction false} CallsKeepBridge(b: BridgeState, calls: seq<Call>)
    requires BridgeInv(b)
    ensures BridgeInv(AfterCalls(b, calls))
    decreases calls
  {
    hide BridgeInv, AfterCall;
    if calls != [] {
      CallKeepsBridge(b, calls[0]);
      CallsKeepBridge(AfterCall(b, calls[0]), calls[1..]);
    }
  }

  /** A pending save whose slot is read back exactly, and then its pointer, always commits. */
  lemma PendingSaveCommits(b: BridgeState)
    requires BridgeInv(b) && b.pending.Some?
    ensures var p := b.pending.value;
            var verified := AfterVerifySlot(b, p.slotText);
            var committed := AfterCommitSave(verified.bridge, p.pointerText);
            && verified.result == Ok(()) && committed.result == Ok(())
            && b.vault.Some? && b.vault.value.container.generation < U64_MAX
            && committed.bridge == b.(
                 vault := Some(Session(NextContainer(b.vault.value.container), b.vault.value.dek,
                                       b.vault.value.slot.Other())),
                 pending := None)
  {
    hide DecryptContainer, ValidSlot, MetaOf, Sound;
    VerifiedSlotHoldsSession(b.vault.value, b.pending.value.slot);
  }

  /** Nothing but the exact texts commits, and a refused text changes nothing. */
  lemma OnlyExactReadbackCommits(b: BridgeState, readback: Text)
    requires BridgeInv(b)
    ensures AfterVerifySlot(b, readback).result.Ok? <==> b.pending.Some? && readback == b.pending.value.slotText
    ensures AfterCommitSave(b, readback).result.Ok? <==>
      b.pending.Some? && b.pending.value.slotVerified && readback == b.pending.value.pointerText
    ensures AfterCommitChange(b, readback).result.Ok? <==>
      b.change.Some? && readback == b.change.value.metaText
    ensures AfterVerifySlot(b, readback).result.Err? ==> AfterVerifySlot(b, readback).bridge == b
    ensures AfterCommitSave(b, readback).result.Err? ==> AfterCommitSave(b, readback).bridge == b
    ensures AfterCommitChange(b, readback).result.Err? ==> AfterCommitChange(b, readback).bridge == b
  {
    hide DecryptContainer, ValidSlot, MetaOf, Sound, CheckNextSlot;
    if b.pending.Some? {
      VerifiedSlotHoldsSession(b.vault.value, b.pending.value.slot);
    }
  }

  /**
   What a session refuses, changing nothing: any edit or further change while one is pending or when
   locked, identifiers that do not parse, and every readback out of its order, not exactly what was
   written, or of a slot that does not verify. A cancellation forgets its own pending change alone.
   */
  lemma BridgeRefusals(
    b: BridgeState, input: Fields, id: Option<EntryId>, now: u64, tape: seq<byte>, p: Phrase, q: Phrase, text: Text)
    ensures var busy := b.pending.Some? || b.change.Some?;
            busy || b.vault.None? ==>
              var e := if busy then SavePending else Locked;
              && AfterBridgeAdd(b, input, now, tape) == Reply(Err(e), b)
              && AfterBridgeUpdate(b, id, input, now) == Reply(Err(e), b)
              && AfterBridgeDelete(b, id, now) == Reply(Err(e), b)
              && AfterPrepareSave(b, tape) == Reply(Err(e), b)
              && AfterPrepareChange(b, p, q, tape) == Reply(Err(e), b)
    ensures EnsureMutable(b).Ok? ==>
      && AfterBridgeUpdate(b, None, input, now) == Reply(Err(VaultFailure(InvalidContainer)), b)
      && AfterBridgeDelete(b, None, now) == Reply(Err(VaultFailure(InvalidContainer)), b)
    ensures AfterCancelSave(b) == BridgeState(b.vault, b.meta, None, b.change)
    ensures AfterCancelChange(b) == BridgeState(b.vault, b.meta, b.pending, None)
    ensures b.vault.None? ==> AfterVerifySlot(b, text) == Reply(Err(Locked), b)
    ensures b.vault.Some? && b.pending.None? ==> AfterVerifySlot(b, text) == Reply(Err(NoSavePending), b)
    ensures b.vault.Some? && b.pending.Some? && text != b.pending.value.slotText ==>
      AfterVerifySlot(b, text) == Reply(Err(ReadbackMismatch), b)
    ensures b.pending.None? ==> AfterCommitSave(b, text) == Reply(Err(NoSavePending), b)
    ensures b.pending.Some? && !b.pending.value.slotVerified ==>
      AfterCommitSave(b, text) == Reply(Err(PendingSlotNotVerified), b)
    ensures b.pending.Some? && b.pending.value.slotVerified && text != b.pending.value.pointerText ==>
      AfterCommitSave(b, text) == Reply(Err(ReadbackMismatch), b)
    ensures AfterVerifySlot(b, text).result.Ok? || AfterCommitSave(b, text).result.Ok? ==>
      && b.vault.Some? && b.pending.Some? && CheckNextSlot(b.vault.value, b.pending.value.slot).Ok?
      && (AfterVerifySlot(b, text).result.Ok? ==> Parse(text) == Some(SlotDoc(b.pending.value.slot)))
      && (AfterCommitSave(b, text).result.Ok? ==> Parse(text) == Some(PointerDoc(b.pending.value.pointer)))
    ensures AfterCommitChange(b, text).result.Ok? ==>
      b.change.Some? && Parse(text) == Some(MetaDoc(b.change.value.meta))
    ensures b.change.None? ==> AfterCommitChange(b, text) == Reply(Err(NoPasswordChangePending), b)
    ensures b.change.Some? && text != b.change.value.metaText ==>
      AfterCommitChange(b, text) == Reply(Err(ReadbackMismatch), b)
  {
    hide CheckNextSlot, AfterAdd, AfterUpdate, AfterDelete, RewrapVaultKey, EncryptForSlot;
  }

  /** A pending save becomes verified by nothing but a readback of exactly its slot. */
  lemma VerifiedByReadback(b: BridgeState, call: Call)
    ensures var after := AfterCall(b, call).pending;
            after.Some? && after.value.slotVerified ==>
              b.pending == after || (b.pending.Some? && call == CallVerifySlot(after.value.slotText))
  {
    hide AfterAdd, AfterUpdate, AfterDelete, CheckNextSlot, EncryptForSlot, RewrapVaultKey;
  }

  /** Whatever calls are made from a session with nothing pending: no save commits whose slot was not read back exactly. */
  lemma {:induction false} NoCommitWithoutReadback(b: BridgeState, calls: seq<Call>, readback: Text)
    requires b.pending.None?
    ensures var after := AfterCalls(b, calls);
            AfterCommitSave(after, readback).result.Ok? ==>
              after.pending.Some? && CallVerifySlot(after.pending.value.slotText) in calls
  {
    hide AfterCalls, CheckNextSlot;
    VerifiedInCalls(b, calls);
  }

  lemma {:induction false} VerifiedInCalls(b: BridgeState, calls: seq<Call>)
    ensures var after := AfterCalls(b, calls).pending;
            after.Some? && after.value.slotVerified ==> b.pending == after || CallVerifySlot(after.value.slotText) in calls
    decreases calls
  {
    hide AfterCall;
    if calls != [] {
      VerifiedByReadback(b, calls[0]);
      VerifiedInCalls(AfterCall(b, calls[0]), calls[1..]);
    }
  }

  /** A created session and a session opened from its own metadata start within the invariant. */
  lemma CreatedBridgeStarts(phrase: Phrase, config: KdfConfig, now: u64, tape: seq<byte>)
    requires CreateVault(phrase, config, now, tape).Ok?
    ensures var c := CreateVault(phrase, config, now, tape).value;
            BridgeInv(Unlocked(c.session, c.meta)) && PhraseOf(c.meta) == Some(phrase)
  {
    CreatedVaultUnlocks(phrase, config, now, tape, phrase);
    hide VaultSlotAad, WrappedDekAad, SerializeContainer;
  }
}
