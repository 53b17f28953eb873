/** What one save can leave behind, which sizes it refuses, and that what it writes can be opened. */
module SaveProperties {
  import opened Wrappers
  import opened Bytes
  import opened Aad
  import opened Model
  import opened JsonLength
  import opened Validation
  import opened Vault
  import opened VaultProperties
  import opened Device
  import opened Repository
  import opened OpenProperties

  function SlotText(slot: Slot): Text {
    Json(SlotDoc(slot))
  }

  /** The session after a successful save: the same contents, one generation on, in the other slot. */
  function Advanced(v: Session): Session
    requires v.container.generation < U64_MAX
  {
    Session(NextContainer(v.container), v.dek, v.slot.Other())
  }

  lemma EncryptsUnless(v: Session, tape: seq<byte>)
    requires Sound(v.container)
    ensures match EncryptForSlot(v, v.slot.Other(), tape)
            case Ok(slot) =>
              && v.container.generation < U64_MAX && |tape| >= 24
              && ContainerLength(NextContainer(v.container)) <= 5_242_880 - 16
              && CiphertextLength(slot.ciphertext) == ContainerLength(NextContainer(v.container)) + 16
              && ValidSlot(slot, v.container.vaultId)
              && slot.slot == v.slot.Other() && slot.generation == v.container.generation + 1
            case Err(e) =>
              if v.container.generation == U64_MAX then e == GenerationOverflow
              else if ContainerLength(NextContainer(v.container)) > 5_242_880 - 16 then e == VaultTooLarge
              else |tape| < 24 && e == RandomGenerationFailed
  {
    hide ContainerLength, VaultSlotAad, CheckSlot, CheckNextSlot, DecryptContainer, ValidSlot, Sound;
    if EncryptForSlot(v, v.slot.Other(), tape).Ok? {
      EncryptedSlotVerifies(v, tape);
    }
  }

  /** A slot just written reads back as the slot the session may commit. */
  lemma WrittenSlotReadsBack(v: Session, tape: seq<byte>)
    requires Sound(v.container)
    requires EncryptForSlot(v, v.slot.Other(), tape).Ok?
    requires SlotLength(EncryptForSlot(v, v.slot.Other(), tape).value) <= MAX_SLOT_JSON_BYTES
    ensures var slot := EncryptForSlot(v, v.slot.Other(), tape).value;
            && ReadBack(Ok(Some(SlotText(slot))), v) == Ok(slot)
            && UsableSlot(Some(SlotText(slot)), slot.slot, v.container.vaultId) == Some(slot)
            && v.container.generation < U64_MAX
            && Recovered(Some(slot), v.dek, v.container.createdAt) == Some(NextContainer(v.container))
  {
    hide EncryptForSlot, CheckNextSlot, DecryptContainer, SlotLength, Sound, ValidSlot, CheckSlot;
    EncryptedSlotVerifies(v, tape);
    var slot := EncryptForSlot(v, v.slot.Other(), tape).value;
    SlotDocLength(slot);
  }

  /**
   Whatever faults occur, a save changes only the inactive slot and the pointer, and keeps the session
   unless it succeeds. Success means the new slot and its pointer are in place.
   */
  lemma SaveOnDevice(d: Disk, v: Session, tape: seq<byte>)
    requires Sound(v.container)
    ensures var s := AfterSave(d, v, tape);
            var key := SlotKey(v.slot.Other());
            && s.disk.cells == d.cells.With(key, s.disk.cells.At(key)).(pointer := s.disk.cells.pointer)
            && (s.result.Err? ==> s.session == v)
            && match EncryptForSlot(v, v.slot.Other(), tape)
               case Err(e) => s == SaveStep(Err(e), d, v)
               case Ok(slot) =>
                 && (s.disk.cells.At(key) == d.cells.At(key)
                     || s.disk.cells.At(key) == Landed(d.Next(), d.cells.At(key), Some(SlotText(slot))))
                 && (SlotLength(slot) > MAX_SLOT_JSON_BYTES ==> s == SaveStep(Err(VaultTooLarge), d, v))
                 && (s.result.Ok? ==>
                       && SlotLength(slot) <= MAX_SLOT_JSON_BYTES
                       && s.disk.cells.At(key) == Some(SlotText(slot))
                       && s.disk.cells.pointer == Some(PointerText(v.slot.Other(), slot.generation))
                       && v.container.generation < U64_MAX
                       && s.session == Advanced(v))
                 && (d.faults == [] && SlotLength(slot) <= MAX_SLOT_JSON_BYTES ==> s.result.Ok?)
                 && (s.result == Err(VaultTooLarge) ==> SlotLength(slot) > MAX_SLOT_JSON_BYTES)
  {
    hide EncryptForSlot, CheckNextSlot, ReadBack, SlotLength, DocumentLength, Sound, WriteVerified, ValidSlot,
         UsableSlot, Recovered, DecryptContainer, ContainerLength, CiphertextLength;
    EncryptsUnless(v, tape);
    match EncryptForSlot(v, v.slot.Other(), tape)
    case Err(_) =>
    case Ok(slot) =>
      SlotDocLength(slot);
      var pointer := Pointer(FORMAT_VERSION, v.slot.Other(), slot.generation);
      PointerFits(pointer);
      PointerDocLength(pointer);
      EncryptedSlotVerifies(v, tape);
      if SlotLength(slot) <= MAX_SLOT_JSON_BYTES {
        WrittenSlotReadsBack(v, tape);
      }
      WriteRefusals(d, SlotKey(v.slot.Other()), SlotDoc(slot), MAX_SLOT_JSON_BYTES);
      forall e: Disk {
        WriteRefusals(e, PointerKey, PointerDoc(pointer), MAX_ACTIVE_POINTER_BYTES);
      }
      ReadFailureIsReturned(v);
  }

  /** Whatever the session, no pointer is written before its slot has been read back and found to verify. */
  lemma PointerFollowsVerification(d: Disk, v: Session, tape: seq<byte>)
    ensures var s := AfterSave(d, v, tape);
            s.disk.cells.pointer != d.cells.pointer ==>
              && EncryptForSlot(v, v.slot.Other(), tape).Ok?
              && var slot := EncryptForSlot(v, v.slot.Other(), tape).value;
                 CheckNextSlot(v, slot).Ok? && s.disk.cells.At(SlotKey(v.slot.Other())) == Some(SlotText(slot))
  {
    hide EncryptForSlot, CheckNextSlot, DocumentLength, TextLength, CheckSlot;
  }

  lemma ReadFailureIsReturned(v: Session)
    ensures forall e :: ReadBack(Err(e), v) == Err(e)
  {
  }

  lemma SlotDocLength(slot: Slot)
    ensures DocumentLength(SlotDoc(slot)) == SlotLength(slot)
  {
  }

  /** A verified write within its limit never fails for size. */
  lemma WriteRefusals(d: Disk, key: StorageKey, doc: Document, maximum: nat)
    ensures DocumentLength(doc) <= maximum ==> WriteVerified(d, key, doc, maximum).result != Err(VaultTooLarge)
  {
    hide DocumentLength;
  }

  /**
   A save is refused for size, with storage and session untouched, exactly when the plaintext exceeds
   its limit or the slot's JSON would: envelope plus base64url of the plaintext and its tag.
   */
  lemma SaveRefusesExactlyOversize(d: Disk, v: Session, tape: seq<byte>)
    requires Sound(v.container)
    requires v.container.generation < U64_MAX && |tape| >= NONCE_BYTES
    ensures var s := AfterSave(d, v, tape);
            var oversize :=
              || ContainerLength(NextContainer(v.container)) > 5_242_864
              || SavedLength(v.container) > 5_242_880;
            && (s.result == Err(VaultTooLarge) <==> oversize)
            && (oversize ==> s.disk == d && s.session == v)
            && (!oversize && d.faults == [] ==> s.result.Ok?)
  {
    hide AfterSave, EncryptForSlot, ContainerLength, SlotLength, Sound, CiphertextLength, ValidSlot;
    SaveOnDevice(d, v, tape);
    EncryptsUnless(v, tape);
    match EncryptForSlot(v, v.slot.Other(), tape)
    case Err(_) =>
    case Ok(slot) => SlotLengthOf(slot, v.container.vaultId);
  }

  lemma SlotLengthOf(slot: Slot, vaultId: VaultId)
    requires ValidSlot(slot, vaultId)
    ensures SlotLength(slot)
         == 189 + DecimalLength(slot.generation) + Base64UrlLength(CiphertextLength(slot.ciphertext))
  {
    hide ValidSlot, EnvelopeLength, CiphertextLength;
    ValidEnvelope(slot, vaultId);
  }

  /** The length of the slot JSON that saving a container will produce, known before it is encrypted. */
  function SavedLength(c: Container): nat
    requires c.generation < U64_MAX
  {
    189 + DecimalLength(c.generation + 1) + Base64UrlLength(ContainerLength(NextContainer(c)) + TAG_BYTES)
  }

  lemma SavedLengthIsKnown(v: Session, tape: seq<byte>)
    requires Sound(v.container)
    requires EncryptForSlot(v, v.slot.Other(), tape).Ok?
    ensures v.container.generation < U64_MAX
    ensures SlotLength(EncryptForSlot(v, v.slot.Other(), tape).value) == SavedLength(v.container)
  {
    hide EncryptForSlot, ContainerLength, SlotLength, Sound, CiphertextLength, ValidSlot;
    EncryptsUnless(v, tape);
    SlotLengthOf(EncryptForSlot(v, v.slot.Other(), tape).value, v.container.vaultId);
  }

  lemma ValidSlotIsBounded(slot: Slot, vaultId: VaultId)
    requires ValidSlot(slot, vaultId)
    ensures 16 <= CiphertextLength(slot.ciphertext) <= DEVICE_STORAGE_LIMIT_BYTES
  {
  }

  /** Every slot a save leaves in place passes each bound that opening checks. */
  lemma WrittenSlotPassesReadLimits(v: Session, tape: seq<byte>)
    requires Sound(v.container)
    requires EncryptForSlot(v, v.slot.Other(), tape).Ok?
    ensures var slot := EncryptForSlot(v, v.slot.Other(), tape).value;
            && 16 <= CiphertextLength(slot.ciphertext) <= DEVICE_STORAGE_LIMIT_BYTES
            && (SlotLength(slot) <= MAX_SLOT_JSON_BYTES <==>
                  UsableSlot(Some(SlotText(slot)), slot.slot, v.container.vaultId) == Some(slot))
  {
    hide EncryptForSlot, SlotLength, Sound, ValidSlot, CiphertextLength, ContainerLength, ReadBack, Recovered;
    EncryptsUnless(v, tape);
    var slot := EncryptForSlot(v, v.slot.Other(), tape).value;
    ValidSlotIsBounded(slot, v.container.vaultId);
    if SlotLength(slot) <= MAX_SLOT_JSON_BYTES {
      WrittenSlotReadsBack(v, tape);
    } else {
      SlotDocLength(slot);
    }
  }
}
