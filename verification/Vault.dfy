/** The unlocked vault: creation, unlocking, key rewrapping, entry edits, and encryption for a slot. */
module Vault {
  import opened Wrappers
  import opened Bytes
  import opened Aad
  import opened Model
  import opened JsonLength
  import opened Validation
  import opened Crypto

  /** The value of an unlocked vault at one moment. */
  datatype Session = Session(container: Container, dek: Dek, slot: SlotId)

  datatype Created = Created(meta: Meta, initialSlot: Slot, activeSlot: Pointer, session: Session)

  // ---- Plaintext ----

  function SerializeContainer(c: Container): Result<Plaintext, VaultError> {
    if ContainerLength(c) > MAX_SLOT_JSON_BYTES - TAG_BYTES then Err(VaultTooLarge) else Ok(ContainerJson(c))
  }

  function ParseContainer(p: Plaintext): Option<Container> {
    match p
    case ContainerJson(c) => Some(c)
    case RawBytes(_, parsed) => parsed
  }

  function DecryptContainer(dek: Dek, slot: Slot): (r: Result<Container, VaultError>)
    ensures r.Ok? ==> ValidContainer(r.value, slot.vaultId, slot.generation)
  {
    var plaintext :- DecryptSlotPayload(dek, slot);
    if PlaintextLength(plaintext) > MAX_SLOT_JSON_BYTES then Err(VaultTooLarge)
    else
      match ParseContainer(plaintext)
      case None => Err(InvalidContainer)
      case Some(c) =>
        var _ :- CheckContainer(c, slot.vaultId, slot.generation);
        Ok(c)
  }

  /** A container is decrypted exactly if it was sealed for the slot's key and labels, fits, parses and is valid. */
  lemma DecryptsExactly(dek: Dek, slot: Slot, c: Container)
    ensures DecryptContainer(dek, slot) == Ok(c) <==>
      && |slot.nonce| == NONCE_BYTES && slot.ciphertext.Sealed?
      && slot.ciphertext.key == DataKey(dek) && slot.ciphertext.nonce == slot.nonce
      && slot.ciphertext.aad == VaultSlotAad(slot.vaultId, slot.slot, slot.generation)
      && ParseContainer(slot.ciphertext.plaintext) == Some(c)
      && PlaintextLength(slot.ciphertext.plaintext) <= MAX_SLOT_JSON_BYTES
      && ValidContainer(c, slot.vaultId, slot.generation)
  {
    hide VaultSlotAad, PlaintextLength, ValidContainer;
  }

  // ---- Creation, unlocking and rewrapping ----

  function CheckNewMasterPassword(phrase: Phrase): (r: Result<(), VaultError>)
    ensures r.Ok? <==> phrase.Utf8? && |phrase.chars| >= 16
    ensures r.Err? ==> r.error == InvalidMasterPassword
  {
    if phrase.Utf8? && |phrase.chars| >= MIN_MASTER_PASSWORD_CHARS then Ok(()) else Err(InvalidMasterPassword)
  }

  function KdfFromConfig(salt: seq<byte>, config: KdfConfig): KdfParams {
    KdfParams(salt, config.memoryKib, config.iterations, config.parallelism, 32)
  }

  function EmptyContainer(vaultId: VaultId, now: u64): Container {
    Container(FORMAT, FORMAT_VERSION, vaultId, 0, now, now, [])
  }

  function CreateVault(phrase: Phrase, config: KdfConfig, now: u64, tape: seq<byte>): Result<Created, VaultError> {
    var _ :- CheckNewMasterPassword(phrase);
    var (vaultId, t1) :- RandomArray(tape, ID_BYTES);
    var (salt, t2) :- RandomArray(t1, SALT_BYTES);
    var kdf := KdfFromConfig(salt, config);
    var kek :- DeriveKek(phrase, vaultId, kdf);
    var (dek, t3) :- RandomArray(t2, KEY_BYTES);
    var wrapped :- WrapDek(kek, dek, vaultId, t3);
    var container := EmptyContainer(vaultId, now);
    var plaintext :- SerializeContainer(container);
    var (nonce, _) :- RandomArray(t3[NONCE_BYTES..], NONCE_BYTES);
    Ok(Created(
      Meta(FORMAT, FORMAT_VERSION, vaultId, now, kdf, wrapped),
      SealSlot(dek, vaultId, A, 0, plaintext, nonce),
      Pointer(FORMAT_VERSION, A, 0),
      Session(container, dek, A)))
  }

  function UnlockVault(phrase: Phrase, meta: Meta, slot: Slot): Result<Session, VaultError> {
    var _ :- CheckMeta(meta);
    var _ :- CheckSlot(slot, meta.vaultId);
    var kek :- DeriveKek(phrase, meta.vaultId, meta.kdf);
    var dek :- UnwrapDek(kek, meta.wrappedDek, meta.vaultId);
    var container :- DecryptContainer(dek, slot);
    if container.createdAt != meta.createdAt then Err(InvalidMetadata)
    else Ok(Session(container, dek, slot.slot))
  }

  function RewrapVaultKey(
    current: Phrase, replacement: Phrase, meta: Meta, v: Session, config: KdfConfig, tape: seq<byte>)
    : Result<Meta, VaultError>
  {
    var _ :- CheckMeta(meta);
    if meta.vaultId != v.container.vaultId || meta.createdAt != v.container.createdAt then Err(InvalidMetadata)
    else
      var currentKek :- DeriveKek(current, meta.vaultId, meta.kdf);
      var verified :- UnwrapDek(currentKek, meta.wrappedDek, meta.vaultId);
      if verified != v.dek then Err(WrongPasswordOrCorruptedVault)
      else
        var _ :- CheckNewMasterPassword(replacement);
        var (salt, rest) :- RandomArray(tape, SALT_BYTES);
        var kdf := KdfFromConfig(salt, config);
        var kek :- DeriveKek(replacement, meta.vaultId, kdf);
        var wrapped :- WrapDek(kek, v.dek, meta.vaultId, rest);
        Ok(Meta(meta.format, meta.version, meta.vaultId, meta.createdAt, kdf, wrapped))
  }

  /** Metadata from which a phrase yields the data key. */
  predicate Unwraps(meta: Meta, phrase: Phrase, dek: Dek) {
    && ValidMeta(meta)
    && UnwrapDek(PhraseKey(phrase, meta.vaultId, meta.kdf), meta.wrappedDek, meta.vaultId) == Ok(dek)
  }

  /** At most one phrase yields a data key from given metadata, and it yields one key. */
  lemma UnwrappingPhraseIsUnique(meta: Meta, p: Phrase, d: Dek, q: Phrase, e: Dek)
    requires Unwraps(meta, p, d) && Unwraps(meta, q, e)
    ensures p == q && d == e
  {
  }

  // ---- Entry edits, on values ----

  datatype Edit<T> = Edit(result: Result<T, VaultError>, container: Container)

  function Max(a: u64, b: u64): u64 {
    if a >= b then a else b
  }

  /** The first of at most `attempts` random identifiers that no entry has. */
  function FreshId(entries: seq<Entry>, tape: seq<byte>, attempts: nat): Result<EntryId, VaultError>
    decreases attempts
  {
    if attempts == 0 then Err(RandomGenerationFailed)
    else
      var (id, rest) :- RandomArray(tape, ID_BYTES);
      if forall i :: 0 <= i < |entries| ==> entries[i].id != id then Ok(id)
      else FreshId(entries, rest, attempts - 1)
  }

  /** The position of the first entry with an identifier. */
  function IndexOf(entries: seq<Entry>, id: EntryId): (r: Option<nat>)
    ensures r.Some? ==> r.value < |entries| && entries[r.value].id == id
    ensures r.Some? ==> forall i :: 0 <= i < r.value ==> entries[i].id != id
    ensures r.None? ==> forall i :: 0 <= i < |entries| ==> entries[i].id != id
  {
    if entries == [] then None
    else if entries[0].id == id then Some(0)
    else
      match IndexOf(entries[1..], id)
      case None => None
      case Some(i) => Some(i + 1)
  }

  function AfterAdd(c: Container, input: Fields, now: u64, tape: seq<byte>): Edit<EntryId> {
    if !ValidFields(input) then Edit(Err(InvalidContainer), c)
    else if |c.entries| >= MAX_ENTRIES then Edit(Err(VaultTooLarge), c)
    else
      match FreshId(c.entries, tape, MAX_ID_GENERATION_ATTEMPTS)
      case Err(e) => Edit(Err(e), c)
      case Ok(id) =>
        var timestamp := Max(now, c.updatedAt);
        Edit(Ok(id), c.(entries := c.entries + [Entry(id, input, timestamp, timestamp)], updatedAt := timestamp))
  }

  function AfterUpdate(c: Container, id: EntryId, input: Fields, now: u64): Edit<()> {
    if !ValidFields(input) then Edit(Err(InvalidContainer), c)
    else
      var timestamp := Max(now, c.updatedAt);
      match IndexOf(c.entries, id)
      case None => Edit(Err(EntryNotFound), c)
      case Some(i) =>
        var e := c.entries[i].(fields := input, updatedAt := Max(timestamp, c.entries[i].createdAt));
        Edit(Ok(()), c.(entries := c.entries[i := e], updatedAt := timestamp))
  }

  function AfterDelete(c: Container, id: EntryId, now: u64): Edit<()> {
    match IndexOf(c.entries, id)
    case None => Edit(Err(EntryNotFound), c)
    case Some(i) =>
      Edit(Ok(()), c.(entries := c.entries[..i] + c.entries[i + 1..], updatedAt := Max(now, c.updatedAt)))
  }

  // ---- Encryption for a slot, verification and commit, on values ----

  function EncryptAt(v: Session, slot: SlotId, generation: u64, tape: seq<byte>): Result<Slot, VaultError> {
    var plaintext :- SerializeContainer(v.container.(generation := generation));
    var (nonce, _) :- RandomArray(tape, NONCE_BYTES);
    Ok(SealSlot(v.dek, v.container.vaultId, slot, generation, plaintext, nonce))
  }

  function EncryptForSlot(v: Session, slot: SlotId, tape: seq<byte>): Result<Slot, VaultError> {
    if v.container.generation == U64_MAX then Err(GenerationOverflow)
    else EncryptAt(v, slot, v.container.generation + 1, tape)
  }

  function CheckNextSlot(v: Session, slot: Slot): Result<(), VaultError> {
    if v.container.generation == U64_MAX then Err(GenerationOverflow)
    else if slot.slot != v.slot.Other() || slot.generation != v.container.generation + 1 then
      Err(SlotVerificationFailed)
    else
      var _ :- CheckSlot(slot, v.container.vaultId);
      var verified :- DecryptContainer(v.dek, slot);
      if verified != v.container.(generation := v.container.generation + 1) then Err(SlotVerificationFailed)
      else Ok(())
  }

  function Committed(v: Session, slot: Slot): Session {
    v.(container := v.container.(generation := slot.generation), slot := slot.slot)
  }

  // ---- The object ----

  class UnlockedVault {
    var container: Container
    var dek: Dek
    var persistedSlot: SlotId

    constructor (v: Session)
      ensures Value() == v
    {
      container := v.container;
      dek := v.dek;
      persistedSlot := v.slot;
    }

    function Value(): Session
      reads this
    {
      Session(container, dek, persistedSlot)
    }

    method GenerateUniqueEntryId(tape: seq<byte>) returns (r: Result<EntryId, VaultError>)
      ensures r == FreshId(container.entries, tape, MAX_ID_GENERATION_ATTEMPTS)
    {
      var rest := tape;
      for attempt := 0 to MAX_ID_GENERATION_ATTEMPTS
        invariant FreshId(container.entries, tape, MAX_ID_GENERATION_ATTEMPTS)
               == FreshId(container.entries, rest, MAX_ID_GENERATION_ATTEMPTS - attempt)
      {
        var drawn := RandomArray(rest, ID_BYTES);
        if drawn.Err? {
          return Err(drawn.error);
        }
        var id: EntryId := drawn.value.0;
        if forall i :: 0 <= i < |container.entries| ==> container.entries[i].id != id {
          return Ok(id);
        }
        rest := drawn.value.1;
      }
      return Err(RandomGenerationFailed);
    }

    method AddEntry(input: Fields, now: u64, tape: seq<byte>) returns (r: Result<EntryId, VaultError>)
      modifies this
      ensures Edit(r, container) == AfterAdd(old(container), input, now, tape)
      ensures dek == old(dek) && persistedSlot == old(persistedSlot)
    {
      if !ValidFields(input) {
        return Err(InvalidContainer);
      }
      if |container.entries| >= MAX_ENTRIES {
        return Err(VaultTooLarge);
      }
      var drawnId := GenerateUniqueEntryId(tape);
      if drawnId.Err? {
        return Err(drawnId.error);
      }
      var timestamp := Max(now, container.updatedAt);
      container := container.(entries := container.entries + [Entry(drawnId.value, input, timestamp, timestamp)]);
      container := container.(updatedAt := timestamp);
      return Ok(drawnId.value);
    }

    method UpdateEntry(id: EntryId, input: Fields, now: u64) returns (r: Result<(), VaultError>)
      modifies this
      ensures Edit(r, container) == AfterUpdate(old(container), id, input, now)
      ensures dek == old(dek) && persistedSlot == old(persistedSlot)
    {
      if !ValidFields(input) {
        return Err(InvalidContainer);
      }
      var timestamp := Max(now, container.updatedAt);
      var found := IndexOf(container.entries, id);
      if found.None? {
        return Err(EntryNotFound);
      }
      var entry := container.entries[found.value];
      entry := entry.(fields := input);
      entry := entry.(updatedAt := Max(timestamp, entry.createdAt));
      container := container.(entries := container.entries[found.value := entry]);
      container := container.(updatedAt := timestamp);
      return Ok(());
    }

    method DeleteEntry(id: EntryId, now: u64) returns (r: Result<(), VaultError>)
      modifies this
      ensures Edit(r, container) == AfterDelete(old(container), id, now)
      ensures dek == old(dek) && persistedSlot == old(persistedSlot)
    {
      var found := IndexOf(container.entries, id);
      if found.None? {
        return Err(EntryNotFound);
      }
      container := container.(entries := container.entries[..found.value] + container.entries[found.value + 1..]);
      container := container.(updatedAt := Max(now, container.updatedAt));
      return Ok(());
    }

    method CommitVerifiedSlot(slot: Slot) returns (r: Result<(), VaultError>)
      modifies this
      ensures r == CheckNextSlot(old(Value()), slot)
      ensures Value() == if r.Ok? then Committed(old(Value()), slot) else old(Value())
    {
      r := CheckNextSlot(Value(), slot);
      if r.Ok? {
        container := container.(generation := slot.generation);
        persistedSlot := slot.slot;
      }
    }
  }
}
