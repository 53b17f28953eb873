/** Validators for untrusted persistent values and for decrypted containers. */
module Validation {
  import opened Wrappers
  import opened Bytes
  import opened Aad
  import opened Model
  import opened JsonLength

  // ---- Entries and containers ----

  predicate ValidFields(f: Fields) {
    && 1 <= |f.title| <= MAX_TITLE_CHARS
    && 1 <= Utf8Bytes(f.secret) <= MAX_SECRET_BYTES
    && (f.description.Some? ==> |f.description.value| <= MAX_DESCRIPTION_CHARS)
  }

  predicate ValidEntry(e: Entry) {
    ValidFields(e.fields) && e.createdAt <= e.updatedAt
  }

  predicate InTimeline(c: Container, e: Entry) {
    c.createdAt <= e.createdAt && e.updatedAt <= c.updatedAt
  }

  predicate UniqueIds(entries: seq<Entry>) {
    forall i, j :: 0 <= i < j < |entries| ==> entries[i].id != entries[j].id
  }

  function Ids(entries: seq<Entry>): set<EntryId> {
    set i | 0 <= i < |entries| :: entries[i].id
  }

  predicate GoodEntries(c: Container) {
    && (forall i :: 0 <= i < |c.entries| ==> ValidEntry(c.entries[i]) && InTimeline(c, c.entries[i]))
    && UniqueIds(c.entries)
  }

  /** What a decrypted container has to satisfy to be accepted for a slot. */
  predicate ValidContainer(c: Container, vaultId: VaultId, generation: u64) {
    && c.format == FORMAT
    && c.version == FORMAT_VERSION
    && c.vaultId == vaultId
    && c.generation == generation
    && c.createdAt <= c.updatedAt
    && |c.entries| <= MAX_ENTRIES
    && GoodEntries(c)
  }

  /** The first complaint about entries `k` onwards, given the ids of the entries before. */
  function CheckEntries(c: Container, k: nat): (r: Result<(), VaultError>)
    requires k <= |c.entries|
    ensures r.Ok? <==>
      forall j :: k <= j < |c.entries| ==>
        && ValidEntry(c.entries[j])
        && InTimeline(c, c.entries[j])
        && forall i :: 0 <= i < j ==> c.entries[i].id != c.entries[j].id
    decreases |c.entries| - k
  {
    if k == |c.entries| then Ok(())
    else
      var e := c.entries[k];
      if !ValidEntry(e) || !InTimeline(c, e) then Err(InvalidContainer)
      else if e.id in Ids(c.entries[..k]) then Err(DuplicateEntry)
      else CheckEntries(c, k + 1)
  }

  function CheckContainer(c: Container, vaultId: VaultId, generation: u64): (r: Result<(), VaultError>)
    ensures r.Ok? <==> ValidContainer(c, vaultId, generation)
  {
    if c.format != FORMAT then Err(InvalidContainer)
    else if c.version != FORMAT_VERSION then Err(UnsupportedFormatVersion)
    else if c.vaultId != vaultId || c.generation != generation || c.updatedAt < c.createdAt then
      Err(InvalidContainer)
    else if |c.entries| > MAX_ENTRIES then Err(VaultTooLarge)
    else CheckEntries(c, 0)
  }

  /** The validator itself: one pass over the entries, remembering the ids seen. */
  method ValidateContainer(c: Container, vaultId: VaultId, generation: u64)
    returns (r: Result<(), VaultError>)
    ensures r == CheckContainer(c, vaultId, generation)
    ensures r.Ok? <==> ValidContainer(c, vaultId, generation)
  {
    if c.format != FORMAT {
      return Err(InvalidContainer);
    }
    if c.version != FORMAT_VERSION {
      return Err(UnsupportedFormatVersion);
    }
    if c.vaultId != vaultId {
      return Err(InvalidContainer);
    }
    if c.generation != generation {
      return Err(InvalidContainer);
    }
    if c.updatedAt < c.createdAt {
      return Err(InvalidContainer);
    }
    if |c.entries| > MAX_ENTRIES {
      return Err(VaultTooLarge);
    }
    var ids: set<EntryId> := {};
    for k := 0 to |c.entries|
      invariant ids == Ids(c.entries[..k])
      invariant CheckEntries(c, 0) == CheckEntries(c, k)
    {
      var entry := c.entries[k];
      if !ValidEntry(entry) {
        return Err(InvalidContainer);
      }
      if entry.createdAt < c.createdAt || entry.updatedAt > c.updatedAt {
        return Err(InvalidContainer);
      }
      if entry.id in ids {
        return Err(DuplicateEntry);
      }
      ids := ids + {entry.id};
      IdsAppend(c.entries[..k], entry);
      assert c.entries[..k + 1] == c.entries[..k] + [entry];
    }
    return Ok(());
  }

  lemma IdsAppend(entries: seq<Entry>, e: Entry)
    ensures Ids(entries + [e]) == Ids(entries) + {e.id}
  {
    var more := entries + [e];
    assert more[|entries|] == e;
    forall id | id in Ids(entries) ensures id in Ids(more) {
      var i :| 0 <= i < |entries| && entries[i].id == id;
      assert more[i].id == id;
    }
  }

  // ---- Which complaint ----

  /** The documented bounds on what an entry may hold. */
  predicate WithinBounds(f: Fields) {
    && 1 <= |f.title| <= 200
    && 1 <= Utf8Bytes(f.secret) <= 4096
    && (f.description.Some? ==> |f.description.value| <= 2000)
  }

  predicate EntryFits(c: Container, e: Entry) {
    WithinBounds(e.fields) && c.createdAt <= e.createdAt <= e.updatedAt <= c.updatedAt
  }

  predicate Repeats(entries: seq<Entry>, k: nat)
    requires k < |entries|
  {
    exists i :: 0 <= i < k && entries[i].id == entries[k].id
  }

  /** The first bad entry from `k` on decides: out of bounds or of the timeline, or else a repeated identifier. */
  lemma {:induction false} FirstBadEntryDecides(c: Container, k: nat)
    requires k <= |c.entries|
    ensures match CheckEntries(c, k)
            case Ok(_) => forall j :: k <= j < |c.entries| ==> EntryFits(c, c.entries[j]) && !Repeats(c.entries, j)
            case Err(e) =>
              exists j :: k <= j < |c.entries|
                && (forall i :: k <= i < j ==> EntryFits(c, c.entries[i]) && !Repeats(c.entries, i))
                && if EntryFits(c, c.entries[j]) then Repeats(c.entries, j) && e == DuplicateEntry
                   else e == InvalidContainer
    decreases |c.entries| - k
  {
    hide Utf8Bytes;
    if k < |c.entries| {
      var e := c.entries[k];
      assert e.id in Ids(c.entries[..k]) <==> Repeats(c.entries, k);
      FirstBadEntryDecides(c, k + 1);
    }
  }

  /** A container is refused for its first fault, in the order of the format's documentation. */
  lemma ContainerComplaint(c: Container, vaultId: VaultId, generation: u64)
    ensures match CheckContainer(c, vaultId, generation)
            case Ok(_) =>
              && c.format == "pocket-vault" && c.version == 1 && c.vaultId == vaultId && c.generation == generation
              && c.createdAt <= c.updatedAt && |c.entries| <= 10_000
              && forall j :: 0 <= j < |c.entries| ==> EntryFits(c, c.entries[j]) && !Repeats(c.entries, j)
            case Err(e) =>
              if c.format != "pocket-vault" then e == InvalidContainer
              else if c.version != 1 then e == UnsupportedFormatVersion
              else if c.vaultId != vaultId || c.generation != generation || c.updatedAt < c.createdAt then
                e == InvalidContainer
              else if |c.entries| > 10_000 then e == VaultTooLarge
              else
                exists j :: 0 <= j < |c.entries|
                  && (forall i :: 0 <= i < j ==> EntryFits(c, c.entries[i]) && !Repeats(c.entries, i))
                  && if EntryFits(c, c.entries[j]) then Repeats(c.entries, j) && e == DuplicateEntry
                     else e == InvalidContainer
  {
    hide CheckEntries, EntryFits, Repeats;
    FirstBadEntryDecides(c, 0);
  }

  // ---- Persistent envelopes ----

  predicate ValidKdf(k: KdfParams) {
    && 19_456 <= k.memoryKib <= 262_144
    && 1 <= k.iterations <= 10
    && 1 <= k.parallelism <= 4
    && 16 <= |k.salt| <= 64
    && k.outputBytes == 32
  }

  predicate ValidMeta(m: Meta) {
    && m.format == FORMAT
    && m.version == FORMAT_VERSION
    && ValidKdf(m.kdf)
    && |m.wrappedDek.nonce| == 24
    && CiphertextLength(m.wrappedDek.ciphertext) == 48
  }

  function CheckMeta(m: Meta): (r: Result<(), VaultError>)
    ensures r.Ok? <==> ValidMeta(m)
  {
    if m.format != FORMAT then Err(InvalidMetadata)
    else if m.version != FORMAT_VERSION then Err(UnsupportedFormatVersion)
    else if !ValidKdf(m.kdf) then Err(InvalidKdfParameters)
    else if |m.wrappedDek.nonce| != 24 then Err(InvalidMetadata)
    else if CiphertextLength(m.wrappedDek.ciphertext) != 48 then Err(InvalidMetadata)
    else Ok(())
  }

  predicate ValidSlot(s: Slot, vaultId: VaultId) {
    && s.format == FORMAT
    && s.version == FORMAT_VERSION
    && s.vaultId == vaultId
    && |s.nonce| == 24
    && 16 <= CiphertextLength(s.ciphertext) <= DEVICE_STORAGE_LIMIT_BYTES
  }

  function CheckSlot(s: Slot, vaultId: VaultId): (r: Result<(), VaultError>)
    ensures r.Ok? <==> ValidSlot(s, vaultId)
  {
    if s.format != FORMAT then Err(InvalidSlot)
    else if s.version != FORMAT_VERSION then Err(UnsupportedFormatVersion)
    else if s.vaultId != vaultId then Err(InvalidSlot)
    else if |s.nonce| != 24 then Err(InvalidSlot)
    else if !(16 <= CiphertextLength(s.ciphertext) <= DEVICE_STORAGE_LIMIT_BYTES) then Err(InvalidSlot)
    else Ok(())
  }

  predicate ValidPointer(p: Pointer) {
    p.version == FORMAT_VERSION
  }

  function CheckPointer(p: Pointer): Result<(), VaultError> {
    if ValidPointer(p) then Ok(()) else Err(UnsupportedFormatVersion)
  }

  /** Which metadata and which slots are refused, and with what complaint. */
  lemma EnvelopeComplaints(m: Meta, s: Slot, vaultId: VaultId)
    ensures match CheckMeta(m)
            case Ok(_) =>
              && m.format == "pocket-vault" && m.version == 1
              && 19_456 <= m.kdf.memoryKib <= 262_144 && 1 <= m.kdf.iterations <= 10 && 1 <= m.kdf.parallelism <= 4
              && 16 <= |m.kdf.salt| <= 64 && m.kdf.outputBytes == 32
              && |m.wrappedDek.nonce| == 24 && CiphertextLength(m.wrappedDek.ciphertext) == 48
            case Err(e) =>
              if m.format != "pocket-vault" then e == InvalidMetadata
              else if m.version != 1 then e == UnsupportedFormatVersion
              else if !ValidKdf(m.kdf) then e == InvalidKdfParameters
              else e == InvalidMetadata && (|m.wrappedDek.nonce| != 24 || CiphertextLength(m.wrappedDek.ciphertext) != 48)
    ensures match CheckSlot(s, vaultId)
            case Ok(_) =>
              && s.format == "pocket-vault" && s.version == 1 && s.vaultId == vaultId
              && |s.nonce| == 24 && 16 <= CiphertextLength(s.ciphertext) <= 5_242_880
            case Err(e) =>
              if s.format == "pocket-vault" && s.version != 1 then e == UnsupportedFormatVersion
              else
                && e == InvalidSlot
                && (s.format != "pocket-vault" || s.vaultId != vaultId || |s.nonce| != 24
                    || !(16 <= CiphertextLength(s.ciphertext) <= 5_242_880))
  {
    hide CiphertextLength;
  }

  /** Metadata that passes its own checks is never refused for its size. */
  lemma ValidMetaFits(m: Meta)
    requires ValidMeta(m)
    ensures MetaLength(m) <= MAX_METADATA_JSON_BYTES
  {
    FormatLength();
    U64Digits(m.version);
    U64Digits(m.createdAt);
    U64Digits(m.kdf.memoryKib);
    U64Digits(m.kdf.iterations);
    U64Digits(m.kdf.parallelism);
    U64Digits(m.kdf.outputBytes);
  }

  /** The envelope of a slot the vault writes is small and depends on the generation's digits alone. */
  lemma ValidEnvelope(s: Slot, vaultId: VaultId)
    requires ValidSlot(s, vaultId)
    ensures EnvelopeLength(s) == 189 + DecimalLength(s.generation)
    ensures EnvelopeLength(s) <= 209
  {
    FormatLength();
    U64Digits(s.generation);
  }
}
