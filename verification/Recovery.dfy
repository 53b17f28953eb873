/** What the slot cells hold for a data key, and how that decides what a phrase opens. */
module Recovery {
  import opened Wrappers
  import opened Bytes
  import opened Aad
  import opened Model
  import opened JsonLength
  import opened Validation
  import opened Crypto
  import opened Vault
  import opened VaultProperties
  import opened Device
  import opened Repository
  import opened OpenProperties
  import opened SaveProperties
  import opened BridgeProperties

  /** The container that the text under one slot's key yields for a vault, if any. */
  function Held(text: Option<Text>, side: SlotId, id: Identity): (r: Option<Container>)
    ensures r.Some? ==> Sound(r.value) && r.value.vaultId == id.vaultId && r.value.createdAt == id.createdAt
  {
    Recovered(UsableSlot(text, side, id.vaultId), id.dek, id.createdAt)
  }

  /** Text that an opening accepts as metadata of the vault, wrapped for the phrase. */
  predicate Wraps(text: Option<Text>, id: Identity, phrase: Phrase) {
    && UsableMeta(text).Ok?
    && MetaOf(UsableMeta(text).value, id)
    && PhraseOf(UsableMeta(text).value) == Some(phrase)
  }

  /** The stored metadata is the serialized form of metadata belonging to the vault. */
  predicate StoresMeta(text: Option<Text>, meta: Meta, id: Identity) {
    text == Some(Json(MetaDoc(meta))) && MetaOf(meta, id)
  }

  lemma StoredMetaIsUsable(text: Option<Text>, meta: Meta, id: Identity)
    requires StoresMeta(text, meta, id)
    ensures UsableMeta(text) == Ok(meta)
  {
    hide UnwrapDek, PhraseOf, MetaLength, ValidMeta;
    ValidMetaFits(meta);
    MetaDocLength(meta);
  }

  lemma MetaDocLength(meta: Meta)
    ensures DocumentLength(MetaDoc(meta)) == MetaLength(meta)
  {
  }

  /** A phrase opens a vault when it is the wrapping phrase and one slot at least is recovered. */
  lemma SelectByHeld(cells: Cells, phrase: Phrase, meta: Meta, id: Identity)
    requires UsableMeta(cells.meta) == Ok(meta) && MetaOf(meta, id)
    ensures var a := Held(cells.a, A, id);
            var b := Held(cells.b, B, id);
            Select(cells, phrase) ==
              if PhraseOf(meta) != Some(phrase) || (a.None? && b.None?) then Err(WrongPasswordOrCorruptedVault)
              else if b.None? || (a.Some? && Preferred(UsablePointer(cells.pointer), a.value, b.value).A?)
              then Ok(Session(a.value, id.dek, A))
              else Ok(Session(b.value, id.dek, B))
  {
    WrappedForOnePhrase(meta, id, phrase);
    NothingRecovered(meta.createdAt);
    hide UsableMeta, UsablePointer, UsableSlot, UnwrapDek, Recovered, Preferred, Sound, PhraseOf;
  }

  lemma WrappedForOnePhrase(meta: Meta, id: Identity, phrase: Phrase)
    requires MetaOf(meta, id)
    ensures DeriveKek(phrase, meta.vaultId, meta.kdf) == Ok(PhraseKey(phrase, meta.vaultId, meta.kdf))
    ensures UnwrapDek(PhraseKey(phrase, meta.vaultId, meta.kdf), meta.wrappedDek, meta.vaultId)
         == if PhraseOf(meta) == Some(phrase) then Ok(id.dek) else Err(WrongPasswordOrCorruptedVault)
  {
    hide WrappedDekAad;
  }

  /** A session that opening selects belongs to its vault, is sound, and sits in its own slot. */
  lemma SelectedSession(cells: Cells, phrase: Phrase)
    requires Select(cells, phrase).Ok?
    ensures var v := Select(cells, phrase).value;
            && UsableMeta(cells.meta).Ok?
            && (var meta := UsableMeta(cells.meta).value;
                meta.vaultId == v.container.vaultId && meta.createdAt == v.container.createdAt
                && Unwraps(meta, phrase, v.dek))
            && Sound(v.container)
            && Held(cells.At(SlotKey(v.slot)), v.slot, IdentityOf(v)) == Some(v.container)
  {
    hide UsablePointer, UsableSlot, UnwrapDek, Preferred, Recovered, ValidMeta, Sound;
    var meta := UsableMeta(cells.meta).value;
    var dek := Select(cells, phrase).value.dek;
    RecoveredIsSound(UsableSlot(cells.a, A, meta.vaultId), dek, meta.createdAt);
    RecoveredIsSound(UsableSlot(cells.b, B, meta.vaultId), dek, meta.createdAt);
    assert DeriveKek(phrase, meta.vaultId, meta.kdf) == Ok(PhraseKey(phrase, meta.vaultId, meta.kdf));
  }

  lemma UnwrapsIsMetaOf(meta: Meta, phrase: Phrase, v: Session)
    requires Unwraps(meta, phrase, v.dek)
    requires meta.vaultId == v.container.vaultId && meta.createdAt == v.container.createdAt
    ensures MetaOf(meta, IdentityOf(v)) && PhraseOf(meta) == Some(phrase)
  {
    hide WrappedDekAad;
  }

  lemma RecoveredIsSound(slot: Option<Slot>, dek: Dek, createdAt: u64)
    ensures Recovered(slot, dek, createdAt).Some? ==>
      && slot.Some?
      && Sound(Recovered(slot, dek, createdAt).value)
      && Recovered(slot, dek, createdAt).value.createdAt == createdAt
      && Recovered(slot, dek, createdAt).value.vaultId == slot.value.vaultId
  {
  }

  // ---- Text that cannot be a slot of the vault ----

  /** A stored string that parses as a slot sealed under the data key. */
  predicate SealedUnder(text: Text, dek: Dek) {
    match Parse(text)
    case Some(SlotDoc(s)) => s.ciphertext.Sealed? && s.ciphertext.key == DataKey(dek)
    case _ => false
  }

  /** Residue of another vault, or torn text: nothing sealed under the data key. */
  predicate Foreign(text: Option<Text>, dek: Dek) {
    text.Some? ==> !SealedUnder(text.value, dek)
  }

  lemma ForeignHoldsNothing(text: Option<Text>, side: SlotId, id: Identity)
    requires Foreign(text, id.dek)
    ensures Held(text, side, id) == None
  {
    hide VaultSlotAad, TextLength;
  }

  /** A slot a sound session encrypted, if it fits, holds the session's contents one generation on. */
  lemma EncryptedIsHeld(v: Session, tape: seq<byte>)
    requires Sound(v.container)
    requires EncryptForSlot(v, v.slot.Other(), tape).Ok?
    requires SlotLength(EncryptForSlot(v, v.slot.Other(), tape).value) <= MAX_SLOT_JSON_BYTES
    ensures v.container.generation < U64_MAX
    ensures Held(Some(SlotText(EncryptForSlot(v, v.slot.Other(), tape).value)), v.slot.Other(), IdentityOf(v))
         == Some(NextContainer(v.container))
  {
    hide EncryptForSlot, CheckNextSlot, SlotLength, Sound, ValidSlot, UsableSlot, Recovered, ReadBack, DecryptContainer;
    EncryptedSlotVerifies(v, tape);
    WrittenSlotReadsBack(v, tape);
  }

  /** A slot beyond the size limit is there, but opening will not look at it. */
  lemma OversizeHoldsNothing(slot: Slot, side: SlotId, id: Identity)
    requires SlotLength(slot) > MAX_SLOT_JSON_BYTES
    ensures Held(Some(SlotText(slot)), side, id) == None
  {
    hide SlotLength, DecryptContainer;
    SlotDocLength(slot);
  }
}
