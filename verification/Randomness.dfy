/** What every drawn byte is used for: identifiers, salts, keys and nonces each come from their own stretch of the tape. */
module Randomness {
  import opened Wrappers
  import opened Bytes
  import opened Aad
  import opened Model
  import opened JsonLength
  import opened Vault
  import opened VaultProperties
  import opened Device
  import opened Repository
  import opened SaveProperties
  import opened Bridge
  import opened BridgeProperties
  import opened Persistence
  import opened Refinement
  import opened Creation
  import opened Agreement

  // ---- Creation ----

  /** The vault that 112 random bytes make: sixteen name it, sixteen salt it, 32 are its key, and two nonces follow. */
  predicate MadeFromTape(meta: Meta, v: Session, config: KdfConfig, now: u64, tape: seq<byte>)
    requires |tape| >= 112
  {
    && meta.format == "pocket-vault" && meta.version == 1 && meta.createdAt == now
    && meta.vaultId == tape[..16]
    && meta.kdf == KdfParams(tape[16..32], config.memoryKib, config.iterations, config.parallelism, 32)
    && meta.wrappedDek.nonce == tape[64..88]
    && v.dek == tape[32..64] && v.slot == A
    && v.container == Container("pocket-vault", 1, tape[..16], 0, now, now, [])
  }

  lemma CreatedFromTape(phrase: Phrase, config: KdfConfig, now: u64, tape: seq<byte>)
    requires CreateVault(phrase, config, now, tape).Ok?
    ensures |tape| >= 112
    ensures var c := CreateVault(phrase, config, now, tape).value;
            && MadeFromTape(c.meta, c.session, config, now, tape)
            && c.initialSlot.nonce == tape[88..112]
            && c.initialSlot.format == "pocket-vault" && c.initialSlot.version == 1
            && c.initialSlot.vaultId == tape[..16] && c.initialSlot.slot == A && c.initialSlot.generation == 0
            && c.activeSlot == Pointer(1, A, 0)
  {
    hide ContainerLength, WrappedDekAad, VaultSlotAad;
    CreationSucceedsExactly(phrase, config, now, tape);
    assert tape[16..][..16] == tape[16..32];
    assert tape[16..][16..] == tape[32..];
    assert tape[32..][..32] == tape[32..64];
    assert tape[32..][32..] == tape[64..];
    assert tape[64..][..24] == tape[64..88];
    assert tape[64..][24..] == tape[88..];
    assert tape[88..][..24] == tape[88..112];
  }

  /** The session that a creation from JavaScript leaves is made of the tape, and so are the cells it wrote. */
  lemma CreateSessionFromTape(d: Disk, phrase: Phrase, now: u64, tape: seq<byte>)
    requires AfterCreateSession(d, phrase, Some(now), tape).result.Ok?
    ensures |tape| >= 112
    ensures var j := AfterCreateSession(d, phrase, Some(now), tape);
            && j.bridge.vault.Some? && j.bridge.meta.Some?
            && j.bridge == BridgeState(j.bridge.vault, j.bridge.meta, None, None)
            && MadeFromTape(j.bridge.meta.value, j.bridge.vault.value, KdfConfig(19_456, 2, 1), now, tape)
            && j.disk.cells.meta == Some(Json(MetaDoc(j.bridge.meta.value)))
            && StoredNonce(j.disk.cells.a) == Some(tape[88..112])
  {
    hide CreateVault, PersistCreated, MadeFromTape;
    CreatedFromTape(phrase, DEFAULT_KDF_CONFIG, now, tape);
    var c := CreateVault(phrase, DEFAULT_KDF_CONFIG, now, tape).value;
    PersistCreatedSteps(Get(d, MetaKey).disk, c);
  }

  // ---- Saves ----

  /** The nonce of the slot a cell's text parses as, if it parses as one. */
  function StoredNonce(text: Option<Text>): Option<seq<byte>> {
    match text
    case None => None
    case Some(t) =>
      match Parse(t)
      case Some(SlotDoc(s)) => Some(s.nonce)
      case _ => None
  }

  /** The slot that a save encrypts: its labels in clear, and the first 24 bytes of the tape as its nonce. */
  lemma EncryptsWithTape(v: Session, tape: seq<byte>)
    requires EncryptForSlot(v, v.slot.Other(), tape).Ok?
    ensures |tape| >= 24 && v.container.generation < U64_MAX
    ensures var s := SlotToWrite(v, tape);
            && s.nonce == tape[..24]
            && s.format == "pocket-vault" && s.version == 1 && s.vaultId == v.container.vaultId
            && s.slot != v.slot && s.generation == v.container.generation + 1
            && StoredNonce(Some(SlotText(s))) == Some(tape[..24])
  {
    hide ContainerLength, VaultSlotAad;
  }

  /** After an acknowledged save the inactive cell holds a slot under the nonce just drawn. */
  lemma SaveStoresFreshNonce(d: Disk, v: Session, tape: seq<byte>)
    requires Sound(v.container) && AfterSave(d, v, tape).result.Ok?
    ensures |tape| >= 24
    ensures StoredNonce(AfterSave(d, v, tape).disk.cells.At(SlotKey(v.slot.Other()))) == Some(tape[..24])
  {
    hide AfterSave, EncryptForSlot, SlotLength, Sound, StoredNonce;
    SaveOnDevice(d, v, tape);
    EncryptsWithTape(v, tape);
  }

  /** The same for a split save. */
  lemma SplitSaveStoresFreshNonce(d: Disk, b: BridgeState, tape: seq<byte>, lockAt: nat)
    requires BridgeInv(b) && EnsureMutable(b).Ok? && AfterSaveSession(d, b, tape, lockAt).result.Ok?
    ensures |tape| >= 24
    ensures var j := AfterSaveSession(d, b, tape, lockAt);
            StoredNonce(j.disk.cells.At(SlotKey(b.vault.value.slot.Other()))) == Some(tape[..24])
  {
    hide AfterSaveSession, EncryptForSlot, Sound, MetaOf, StoredNonce, StopOfSplit;
    var v := b.vault.value;
    if EncryptForSlot(v, v.slot.Other(), tape).Err? {
      RefusedAlike(d, b, tape, lockAt);
    } else {
      SplitOutcome(d, b, tape, lockAt);
      EncryptsWithTape(v, tape);
    }
  }

  /** Saves whose tapes differ in the first 24 bytes store different nonces, whatever else they have in common. */
  lemma SavesDifferInNonce(d1: Disk, v1: Session, t1: seq<byte>, d2: Disk, v2: Session, t2: seq<byte>)
    requires Sound(v1.container) && AfterSave(d1, v1, t1).result.Ok?
    requires Sound(v2.container) && AfterSave(d2, v2, t2).result.Ok?
    requires |t1| >= 24 && |t2| >= 24 && t1[..24] != t2[..24]
    ensures StoredNonce(AfterSave(d1, v1, t1).disk.cells.At(SlotKey(v1.slot.Other())))
         != StoredNonce(AfterSave(d2, v2, t2).disk.cells.At(SlotKey(v2.slot.Other())))
  {
    hide AfterSave, Sound, StoredNonce;
    SaveStoresFreshNonce(d1, v1, t1);
    SaveStoresFreshNonce(d2, v2, t2);
  }

  // ---- Phrase changes ----

  /** A change salts the new phrase with sixteen fresh bytes and wraps under 24 more; other metadata stays. */
  lemma RewrapsWithTape(
    current: Phrase, replacement: Phrase, meta: Meta, v: Session, config: KdfConfig, tape: seq<byte>)
    requires RewrapVaultKey(current, replacement, meta, v, config, tape).Ok?
    ensures |tape| >= 40
    ensures var m := RewrapVaultKey(current, replacement, meta, v, config, tape).value;
            && m.kdf == KdfParams(tape[..16], config.memoryKib, config.iterations, config.parallelism, 32)
            && m.wrappedDek.nonce == tape[16..40]
            && m == meta.(kdf := m.kdf, wrappedDek := m.wrappedDek)
  {
    hide WrappedDekAad;
    assert tape[16..][..24] == tape[16..40];
  }

  /** After an acknowledged change the metadata cell holds just that. */
  lemma ChangeStoresFreshSalt(
    d: Disk, b: BridgeState, current: Phrase, replacement: Phrase, tape: seq<byte>, lockAt: nat)
    requires BridgeInv(b) && EnsureMutable(b).Ok?
    requires AfterChangePhrase(d, b, current, replacement, tape, lockAt).result.Ok?
    ensures |tape| >= 40
    ensures var j := AfterChangePhrase(d, b, current, replacement, tape, lockAt);
            && j.bridge.meta.Some? && b.meta.Some?
            && var m := j.bridge.meta.value;
               && j.disk.cells.meta == Some(Json(MetaDoc(m)))
               && m.kdf == KdfParams(tape[..16], 19_456, 2, 1, 32) && m.wrappedDek.nonce == tape[16..40]
               && m.vaultId == b.meta.value.vaultId && m.createdAt == b.meta.value.createdAt
  {
    hide AfterChangePhrase, RewrapVaultKey, MetaOf, Sound;
    ChangeResult(d, b, current, replacement, tape, lockAt);
    RewrapsWithTape(current, replacement, b.meta.value, b.vault.value, DEFAULT_KDF_CONFIG, tape);
  }
}
