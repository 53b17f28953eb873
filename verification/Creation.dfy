/** Creation over arbitrary residue: every crash leaves a store to create in, or the new empty vault. */
module Creation {
  import opened Wrappers
  import opened Bytes
  import opened Aad
  import opened Model
  import opened JsonLength
  import opened Validation
  import opened Crypto
  import opened Vault
  import opened VaultProperties
  import opened Device
  import opened Repository
  import opened OpenProperties
  import opened SaveProperties
  import opened Bridge
  import opened BridgeProperties
  import opened Persistence
  import opened Refinement
  import opened Recovery
  import opened Runs

  function FreshLedger(created: Created, phrase: Phrase): Ledger {
    Ledger(created.session.container, {}, phrase, {})
  }

  lemma EmptyContainerIsSmall(vaultId: VaultId, now: u64, generation: u64)
    ensures ContainerLength(EmptyContainer(vaultId, now).(generation := generation)) <= 220
  {
    FormatLength();
    U64Digits(now);
    U64Digits(generation);
  }

  lemma IsFirst(vaultId: VaultId, now: u64)
    ensures EmptyContainer(vaultId, now).generation == 0
    ensures EmptyContainer(vaultId, now).(generation := 0) == EmptyContainer(vaultId, now)
  {
  }

  /** A new vault's metadata, first slot and pointer name the session they were made with. */
  lemma CreatedShape(phrase: Phrase, config: KdfConfig, now: u64, tape: seq<byte>)
    requires CreateVault(phrase, config, now, tape).Ok?
    ensures var c := CreateVault(phrase, config, now, tape).value;
            && c.initialSlot.slot == A && c.initialSlot.generation == 0
            && c.session.slot == A && c.activeSlot == PointerTo(c.session)
            && c.meta.vaultId == c.session.container.vaultId && c.meta.createdAt == c.session.container.createdAt
            && c.session.container == EmptyContainer(c.meta.vaultId, now)
            && CiphertextLength(c.initialSlot.ciphertext) == ContainerLength(c.session.container) + TAG_BYTES
            && PhraseOf(c.meta) == Some(phrase)
            && ValidPointer(c.activeSlot)
  {
    hide VaultSlotAad, WrappedDekAad, ContainerLength, SerializeContainer;
    SerializesAsItself(EmptyContainer(CreateVault(phrase, config, now, tape).value.meta.vaultId, now));
  }

  lemma SerializesAsItself(c: Container)
    ensures SerializeContainer(c).Ok? ==> SerializeContainer(c) == Ok(ContainerJson(c))
  {
    hide ContainerLength;
  }

  /** Unlocking says that a slot is valid and what it decrypts to. */
  lemma UnlockingDecrypts(phrase: Phrase, meta: Meta, slot: Slot, v: Session)
    requires UnlockVault(phrase, meta, slot) == Ok(v)
    ensures ValidMeta(meta) && ValidSlot(slot, meta.vaultId)
    ensures DecryptContainer(v.dek, slot) == Ok(v.container) && v.container.createdAt == meta.createdAt
  {
    hide DecryptContainer, UnwrapDek, ValidMeta, ValidSlot;
  }

  lemma CreatedSlotIsSmall(slot: Slot, vaultId: VaultId, now: u64)
    requires ValidSlot(slot, vaultId) && slot.generation == 0
    requires CiphertextLength(slot.ciphertext) == ContainerLength(EmptyContainer(vaultId, now)) + TAG_BYTES
    ensures DocumentLength(SlotDoc(slot)) <= MAX_SLOT_JSON_BYTES
  {
    hide ValidSlot, CiphertextLength, ContainerLength, SlotLength, EmptyContainer;
    EmptyContainerIsSmall(vaultId, now, 0);
    IsFirst(vaultId, now);
    SlotLengthOf(slot, vaultId);
    U64Digits(0);
    SlotDocLength(slot);
  }

  /** A slot that decrypts, within the size limit, is what its cell holds. */
  lemma DecryptingSlotIsHeld(slot: Slot, id: Identity, c: Container)
    requires ValidSlot(slot, id.vaultId) && DecryptContainer(id.dek, slot) == Ok(c) && c.createdAt == id.createdAt
    requires DocumentLength(SlotDoc(slot)) <= MAX_SLOT_JSON_BYTES
    ensures Held(Some(SlotText(slot)), slot.slot, id) == Some(c)
  {
    hide DecryptContainer, ValidSlot, DocumentLength, Sound;
  }

  /** The documents of a new vault fit their limits, validate, and hold the empty container. */
  lemma CreatedDocuments(phrase: Phrase, config: KdfConfig, now: u64, tape: seq<byte>)
    requires CreateVault(phrase, config, now, tape).Ok?
    ensures var c := CreateVault(phrase, config, now, tape).value;
            var id := IdentityOf(c.session);
            && CheckCreated(c) == Ok(())
            && c.initialSlot.slot == A
            && DocumentLength(SlotDoc(c.initialSlot)) <= MAX_SLOT_JSON_BYTES
            && DocumentLength(MetaDoc(c.meta)) <= MAX_METADATA_JSON_BYTES
            && DocumentLength(PointerDoc(c.activeSlot)) <= MAX_ACTIVE_POINTER_BYTES
            && PhraseOf(c.meta) == Some(phrase)
            && StoresMeta(Some(Json(MetaDoc(c.meta))), c.meta, id)
            && UsableMeta(Some(Json(MetaDoc(c.meta)))) == Ok(c.meta)
            && Held(Some(SlotText(c.initialSlot)), A, id) == Some(c.session.container)
            && c.session.container == EmptyContainer(c.meta.vaultId, now)
            && c.session.slot == A && Sound(c.session.container)
            && c.activeSlot == PointerTo(c.session)
  {
    hide CreateVault, UnlockVault, Unwraps, ContainerLength, DocumentLength, DecryptContainer, Sound, PhraseOf, Held,
         CiphertextLength, ValidMeta, ValidSlot, UsableMeta, ValidPointer, EmptyContainer;
    var c := CreateVault(phrase, config, now, tape).value;
    var id := IdentityOf(c.session);
    CreatedShape(phrase, config, now, tape);
    CreatedVaultUnlocks(phrase, config, now, tape, phrase);
    UnlockingDecrypts(phrase, c.meta, c.initialSlot, c.session);
    CreatedSlotIsSmall(c.initialSlot, c.meta.vaultId, now);
    DecryptingSlotIsHeld(c.initialSlot, id, c.session.container);
    ValidMetaFits(c.meta);
    MetaDocLength(c.meta);
    PointerFits(c.activeSlot);
    PointerDocLength(c.activeSlot);
    StoredMetaIsUsable(Some(Json(MetaDoc(c.meta))), c.meta, id);
  }

  /** Metadata, the first slot and foreign residue elsewhere make a store in order. */
  lemma NewStoreIsInOrder(cells: Cells, phrase: Phrase, config: KdfConfig, now: u64, tape: seq<byte>)
    requires CreateVault(phrase, config, now, tape).Ok?
    requires var c := CreateVault(phrase, config, now, tape).value;
             && cells.a == Some(SlotText(c.initialSlot)) && cells.meta == Some(Json(MetaDoc(c.meta)))
             && Foreign(cells.b, c.session.dek)
    ensures var c := CreateVault(phrase, config, now, tape).value;
            && Inv(World(cells, None), FreshLedger(c, phrase), IdentityOf(c.session))
            && Inv(World(cells, Some(Live(c.session, c.meta))), FreshLedger(c, phrase), IdentityOf(c.session))
  {
    hide CreateVault, Held, UsableMeta, PhraseOf, Sound, Foreign, Unwraps, CheckCreated, DocumentLength;
    var c := CreateVault(phrase, config, now, tape).value;
    CreatedDocuments(phrase, config, now, tape);
    ForeignHoldsNothing(cells.b, B, IdentityOf(c.session));
  }

  /** A creation is refused over metadata, over a failed read and for documents that do not belong together. */
  lemma CreationRefusals(d: Disk, created: Created, phrase: Phrase, now: Option<u64>, tape: seq<byte>)
    ensures var s, m, i, p := AfterInitialize(d, created), created.meta, created.initialSlot, created.activeSlot;
            var coherent := ValidMeta(m) && ValidSlot(i, m.vaultId) && p.version == 1
                            && i.slot == p.slot && i.generation == p.generation;
            && (!coherent ==> s.result.Err? && s.disk == d)
            && (coherent && !d.Next().Works? ==> s.result == Err(Storage(ReadFailed)) && s.disk.cells == d.cells)
            && (coherent && d.Next().Works? && d.cells.meta.Some? ==>
                  s.result == Err(AlreadyInitialized) && s.disk.cells == d.cells)
    ensures var j, created := AfterCreateSession(d, phrase, now, tape),
                              CreateVault(phrase, DEFAULT_KDF_CONFIG, if now.Some? then now.value else 0, tape);
            var refusal :=
              if !d.Next().Works? then Some(DeviceFailure(Storage(ReadFailed)))
              else if d.cells.meta.Some? then Some(AlreadyExists)
              else if now.None? then Some(InvalidTimestamp)
              else if created.Err? then Some(BridgeFailure(VaultFailure(created.error)))
              else None;
            refusal.Some? ==> j.result == Err(refusal.value) && j.disk.cells == d.cells && j.bridge == LOCKED
  {
    hide CreateVault, PersistCreated, WriteVerified, ValidMeta, ValidSlot;
  }

  /**
   From any store without metadata, whatever slots and pointer an earlier vault left, a creation that
   fails or crashes anywhere leaves no metadata, or a store in order for the new vault; the one other
   outcome is a torn metadata cell. A completed creation leaves its session in agreement.
   */
  lemma InitializeIsRecoverable(d: Disk, phrase: Phrase, config: KdfConfig, now: u64, tape: seq<byte>)
    requires CreateVault(phrase, config, now, tape).Ok?
    requires d.cells.meta == None && Foreign(d.cells.b, CreateVault(phrase, config, now, tape).value.session.dek)
    ensures var c := CreateVault(phrase, config, now, tape).value;
            var s := AfterInitialize(d, c);
            && s.disk.cells.b == d.cells.b
            && (s.disk.cells.meta in {None, Some(Json(MetaDoc(c.meta)))}
                || (FaultAt(d, 3).Tears? && s.disk.cells.meta == FaultAt(d, 3).residue))
            && (s.disk.cells.meta == Some(Json(MetaDoc(c.meta))) ==>
                  Inv(World(s.disk.cells, None), FreshLedger(c, phrase), IdentityOf(c.session)))
            && (s.result.Ok? ==>
                  && Inv(World(s.disk.cells, Some(Live(c.session, c.meta))), FreshLedger(c, phrase), IdentityOf(c.session))
                  && s.disk.cells.pointer == Some(Json(PointerDoc(c.activeSlot))))
            && (d.faults == [] ==> s.result.Ok?)
  {
    hide CreateVault, WriteVerified, DocumentLength, CheckCreated, Inv, Foreign, Held, StoresMeta, MetaOf, PhraseOf,
         UsableMeta, Sound, FaultAt;
    var c := CreateVault(phrase, config, now, tape).value;
    CreatedDocuments(phrase, config, now, tape);
    var existing := Get(d, MetaKey);
    var slot := WriteVerified(existing.disk, SlotKey(A), SlotDoc(c.initialSlot), MAX_SLOT_JSON_BYTES);
    FaultOfThirdWrite(d, SlotDoc(c.initialSlot), MAX_SLOT_JSON_BYTES);
    var s := AfterInitialize(d, c);
    if s.disk.cells.meta == Some(Json(MetaDoc(c.meta))) {
      assert s.disk.cells.a == Some(SlotText(c.initialSlot));
      assert s.disk.cells.b == d.cells.b;
      NewStoreIsInOrder(s.disk.cells, phrase, config, now, tape);
    }
  }

  /** After one read and one verified write that succeeds, the next fault is the fourth. */
  lemma FaultOfThirdWrite(d: Disk, doc: Document, maximum: nat)
    ensures var w := WriteVerified(Get(d, MetaKey).disk, SlotKey(A), doc, maximum);
            w.result.Ok? ==> w.disk.Next() == FaultAt(d, 3)
    ensures var w := AdapterSet(Get(d, MetaKey).disk, SlotKey(A), Json(doc));
            w.disk.Next() == FaultAt(d, 3)
  {
    hide DocumentLength;
  }

  /** The same for creation driven from JavaScript. */
  lemma CreateSessionIsRecoverable(d: Disk, phrase: Phrase, now: u64, tape: seq<byte>)
    requires CreateVault(phrase, DEFAULT_KDF_CONFIG, now, tape).Ok?
    requires d.cells.meta == None
    requires Foreign(d.cells.b, CreateVault(phrase, DEFAULT_KDF_CONFIG, now, tape).value.session.dek)
    ensures var c := CreateVault(phrase, DEFAULT_KDF_CONFIG, now, tape).value;
            var j := AfterCreateSession(d, phrase, Some(now), tape);
            && j.disk.cells.b == d.cells.b
            && (j.disk.cells.meta in {None, Some(Json(MetaDoc(c.meta)))}
                || (FaultAt(d, 3).Tears? && j.disk.cells.meta == FaultAt(d, 3).residue))
            && (j.disk.cells.meta == Some(Json(MetaDoc(c.meta))) ==>
                  Inv(World(j.disk.cells, None), FreshLedger(c, phrase), IdentityOf(c.session)))
            && (j.result.Ok? ==>
                  && Inv(World(j.disk.cells, LiveOf(j.bridge)), FreshLedger(c, phrase), IdentityOf(c.session))
                  && j.bridge == Unlocked(c.session, c.meta))
            && (j.result.Err? ==> j.bridge == LOCKED)
            && (d.faults == [] ==> j.result.Ok?)
  {
    hide CreateVault, PersistCreated, Inv, Foreign, Held, StoresMeta, PhraseOf, UsableMeta, Sound, FaultAt,
         CheckCreated, DocumentLength, EmptyContainer, AdapterSet;
    var c := CreateVault(phrase, DEFAULT_KDF_CONFIG, now, tape).value;
    CreatedDocuments(phrase, DEFAULT_KDF_CONFIG, now, tape);
    FaultOfThirdWrite(d, SlotDoc(c.initialSlot), MAX_SLOT_JSON_BYTES);
    var j := AfterCreateSession(d, phrase, Some(now), tape);
    PersistCreatedSteps(Get(d, MetaKey).disk, c);
    if j.disk.cells.meta == Some(Json(MetaDoc(c.meta))) {
      assert j.disk.cells.a == Some(SlotText(c.initialSlot));
      assert j.disk.cells.b == d.cells.b;
      NewStoreIsInOrder(j.disk.cells, phrase, DEFAULT_KDF_CONFIG, now, tape);
    }
  }

  /** The three writes of a creation: which cells they leave, whether or not they are reported done. */
  lemma PersistCreatedSteps(d: Disk, c: Created)
    requires c.initialSlot.slot == A
    ensures var w := PersistCreated(d, c);
            var first := AdapterSet(d, SlotKey(A), Json(SlotDoc(c.initialSlot)));
            && w.disk.cells.b == d.cells.b
            && (w.disk.cells.meta != d.cells.meta ==> w.disk.cells.a == Some(SlotText(c.initialSlot)))
            && w.disk.cells.meta in {d.cells.meta, Landed(first.disk.Next(), d.cells.meta, Some(Json(MetaDoc(c.meta))))}
            && (w.result.Ok? ==>
                  && w.disk.cells.a == Some(SlotText(c.initialSlot))
                  && w.disk.cells.meta == Some(Json(MetaDoc(c.meta)))
                  && w.disk.cells.pointer == Some(Json(PointerDoc(c.activeSlot))))
            && (d.faults == [] ==> w.result.Ok?)
  {
    hide AdapterSet;
    var first := AdapterSet(d, SlotKey(A), Json(SlotDoc(c.initialSlot)));
    var second := AdapterSet(first.disk, MetaKey, Json(MetaDoc(c.meta)));
    if d.faults == [] {
      QuietAdapterSet(d, SlotKey(A), Json(SlotDoc(c.initialSlot)));
      QuietAdapterSet(first.disk, MetaKey, Json(MetaDoc(c.meta)));
      QuietAdapterSet(second.disk, PointerKey, Json(PointerDoc(c.activeSlot)));
    }
  }

  lemma QuietAdapterSet(e: Disk, key: StorageKey, text: Text)
    requires e.faults == []
    ensures AdapterSet(e, key, text).result.Ok? && AdapterSet(e, key, text).disk.faults == []
  {
  }

  // ---- Creation on an empty device ----

  const EMPTY := Cells(None, None, None, None)

  /** What creation needs, in the order it is asked for: an acceptable phrase, KDF bounds that hold, 112 random bytes. */
  lemma CreationSucceedsExactly(phrase: Phrase, config: KdfConfig, now: u64, tape: seq<byte>)
    ensures var acceptable := phrase.Utf8? && |phrase.chars| >= 16;
            var bounded :=
              19_456 <= config.memoryKib <= 262_144 && 1 <= config.iterations <= 10 && 1 <= config.parallelism <= 4;
            match CreateVault(phrase, config, now, tape)
            case Ok(_) => acceptable && bounded && |tape| >= 112
            case Err(e) =>
              if !acceptable then e == InvalidMasterPassword
              else if |tape| >= 32 && !bounded then e == InvalidKdfParameters
              else |tape| < 112 && e == RandomGenerationFailed
  {
    hide ContainerLength, EmptyContainer, WrappedDekAad, VaultSlotAad;
    if |tape| >= 16 {
      EmptyContainerIsSmall(tape[..16], now, 0);
      IsFirst(tape[..16], now);
      if |tape| >= 32 {
        assert tape[16..][..16] == tape[16..32];
      }
    }
  }

  /** On an empty device that works, creation succeeds, and the store it leaves is in order and opens. */
  lemma FreshStoreIsInOrder(phrase: Phrase, now: u64, tape: seq<byte>)
    requires CheckNewMasterPassword(phrase).Ok? && |tape| >= 112
    ensures CreateVault(phrase, DEFAULT_KDF_CONFIG, now, tape).Ok?
    ensures var c := CreateVault(phrase, DEFAULT_KDF_CONFIG, now, tape).value;
            var j := AfterCreateSession(Disk(EMPTY, []), phrase, Some(now), tape);
            && j.result.Ok? && j.bridge == Unlocked(c.session, c.meta)
            && Inv(World(j.disk.cells, Some(Live(c.session, c.meta))), FreshLedger(c, phrase), IdentityOf(c.session))
            && Select(j.disk.cells, phrase) == Ok(c.session)
  {
    hide CreateVault, AfterCreateSession, Inv, Select, CheckNewMasterPassword, EmptyContainer;
    CreationSucceedsExactly(phrase, DEFAULT_KDF_CONFIG, now, tape);
    CreateSessionIsRecoverable(Disk(EMPTY, []), phrase, now, tape);
    var c := CreateVault(phrase, DEFAULT_KDF_CONFIG, now, tape).value;
    CreatedShape(phrase, DEFAULT_KDF_CONFIG, now, tape);
    var cells := AfterCreateSession(Disk(EMPTY, []), phrase, Some(now), tape).disk.cells;
    InvOpensOnly(World(cells, LiveOf(Unlocked(c.session, c.meta))), FreshLedger(c, phrase), IdentityOf(c.session));
    assert cells.(pointer := cells.pointer) == cells;
    IsFirst(c.meta.vaultId, now);
  }

  // ---- Creation and everything after it ----

  /** Where a run starts after a creation by the repository: with its session, if it succeeded. */
  function StartOfInitialize(d: Disk, c: Created): World {
    var s := AfterInitialize(d, c);
    World(s.disk.cells, if s.result.Ok? then Some(Live(c.session, c.meta)) else None)
  }

  /** The same after a creation from JavaScript. */
  function StartOfCreateSession(d: Disk, phrase: Phrase, now: u64, tape: seq<byte>): World {
    var j := AfterCreateSession(d, phrase, Some(now), tape);
    World(j.disk.cells, LiveOf(j.bridge))
  }

  /** What crash atomicity promises of the end of a run, from the ledger of the run. */
  ghost predicate OpensCommitted(cells: Cells, l: Ledger, dek: Dek) {
    exists p, v ::
      && OpensOnly(cells, p, v)
      && p in {l.phrase} + l.phraseAttempts
      && v.container in {l.durable} + l.attempts
      && v.dek == dek
  }

  lemma OrderThenAnyRun(w: World, l: Ledger, id: Identity, events: seq<Event>)
    requires Inv(w, l, id) && AdmissibleRun(w, events, id.dek)
    ensures OpensCommitted(AfterRun(w, events).cells, NotedRun(l, w, events), id.dek)
  {
    hide Inv, AdmissibleRun, NotedRun, AfterRun, OpensOnly;
    CrashAtomicity(w, l, id, events);
  }

  /**
   However a creation by the repository ends, if its metadata is in place then after any admissible run
   the store opens with one phrase only, whatever the pointer cell holds, to committed contents or
   contents attempted since.
   */
  lemma CreationThenAnyRun(
    d: Disk, phrase: Phrase, config: KdfConfig, now: u64, tape: seq<byte>, events: seq<Event>)
    requires CreateVault(phrase, config, now, tape).Ok?
    requires d.cells.meta == None && Foreign(d.cells.b, CreateVault(phrase, config, now, tape).value.session.dek)
    requires var c := CreateVault(phrase, config, now, tape).value;
             var w := StartOfInitialize(d, c);
             w.cells.meta == Some(Json(MetaDoc(c.meta))) && AdmissibleRun(w, events, c.session.dek)
    ensures var c := CreateVault(phrase, config, now, tape).value;
            var w := StartOfInitialize(d, c);
            && Inv(w, FreshLedger(c, phrase), IdentityOf(c.session))
            && OpensCommitted(AfterRun(w, events).cells, NotedRun(FreshLedger(c, phrase), w, events), c.session.dek)
  {
    hide CreateVault, AfterInitialize, Inv, Foreign, FaultAt, AdmissibleRun, NotedRun, AfterRun, OpensCommitted;
    var c := CreateVault(phrase, config, now, tape).value;
    InitializeIsRecoverable(d, phrase, config, now, tape);
    OrderThenAnyRun(StartOfInitialize(d, c), FreshLedger(c, phrase), IdentityOf(c.session), events);
  }

  /** The same for the path the application takes, with its session live if the creation succeeded. */
  lemma CreateSessionThenAnyRun(d: Disk, phrase: Phrase, now: u64, tape: seq<byte>, events: seq<Event>)
    requires CreateVault(phrase, DEFAULT_KDF_CONFIG, now, tape).Ok?
    requires d.cells.meta == None
    requires Foreign(d.cells.b, CreateVault(phrase, DEFAULT_KDF_CONFIG, now, tape).value.session.dek)
    requires var c := CreateVault(phrase, DEFAULT_KDF_CONFIG, now, tape).value;
             var w := StartOfCreateSession(d, phrase, now, tape);
             w.cells.meta == Some(Json(MetaDoc(c.meta))) && AdmissibleRun(w, events, c.session.dek)
    ensures var c := CreateVault(phrase, DEFAULT_KDF_CONFIG, now, tape).value;
            var w := StartOfCreateSession(d, phrase, now, tape);
            && Inv(w, FreshLedger(c, phrase), IdentityOf(c.session))
            && OpensCommitted(AfterRun(w, events).cells, NotedRun(FreshLedger(c, phrase), w, events), c.session.dek)
  {
    hide CreateVault, AfterCreateSession, Inv, Foreign, FaultAt, AdmissibleRun, NotedRun, AfterRun, OpensCommitted;
    var c := CreateVault(phrase, DEFAULT_KDF_CONFIG, now, tape).value;
    CreateSessionIsRecoverable(d, phrase, now, tape);
    OrderThenAnyRun(StartOfCreateSession(d, phrase, now, tape), FreshLedger(c, phrase), IdentityOf(c.session), events);
  }

  // ---- What a torn metadata cell does to a creation ----

  /** Whether the faults of a creation let its slot write be done, and then tear the metadata write. */
  predicate TearsMetadata(d: Disk, c: Created) {
    && FaultAt(d, 0).Works?
    && WriteDone(d, 1, d.cells.a, SlotText(c.initialSlot))
    && FaultAt(d, 3).Tears? && FaultAt(d, 3).residue.Some?
  }

  /** A creation that can be run again, or a store that opens to the new vault. */
  predicate Recoverable(cells: Cells, c: Created, phrase: Phrase) {
    cells.meta == None || Select(cells, phrase) == Ok(c.session)
  }

  /** With the first slot in place and nothing beside it, the store opens exactly if its metadata wraps the key. */
  lemma NewSlotOpensExactlyIfWrapped(cells: Cells, c: Created, phrase: Phrase)
    requires c.session.slot == A
    requires Held(cells.a, A, IdentityOf(c.session)) == Some(c.session.container)
    requires Held(cells.b, B, IdentityOf(c.session)) == None
    ensures Select(cells, phrase) == Ok(c.session) <==> Wraps(cells.meta, IdentityOf(c.session), phrase)
  {
    hide Select, Held, MetaOf, UsableMeta, PhraseOf, Sound, Unwraps, UsablePointer, Preferred;
    var id := IdentityOf(c.session);
    if Wraps(cells.meta, id, phrase) {
      SelectByHeld(cells, phrase, UsableMeta(cells.meta).value, id);
    }
    if Select(cells, phrase) == Ok(c.session) {
      SelectedSession(cells, phrase);
      UnwrapsIsMetaOf(UsableMeta(cells.meta).value, phrase, c.session);
    }
  }

  /** What a creation leaves, once it is known whether its metadata write was reached, decides what opens. */
  lemma ReachedMetadataDecides(d: Disk, c: Created, after: Cells, phrase: Phrase, reached: bool, p: Phrase)
    requires c.session.slot == A && Foreign(d.cells.b, c.session.dek)
    requires Held(Some(SlotText(c.initialSlot)), A, IdentityOf(c.session)) == Some(c.session.container)
    requires StoresMeta(Some(Json(MetaDoc(c.meta))), c.meta, IdentityOf(c.session)) && PhraseOf(c.meta) == Some(phrase)
    requires after.meta == if reached then Landed(FaultAt(d, 3), None, Some(Json(MetaDoc(c.meta)))) else None
    requires after.meta.Some? ==> after.a == Some(SlotText(c.initialSlot)) && after.b == d.cells.b
    ensures var torn := FaultAt(d, 3);
            && (Recoverable(after, c, phrase) <==>
                  reached && torn.Tears? && torn.residue.Some? ==> Wraps(torn.residue, IdentityOf(c.session), phrase))
            && (!Recoverable(after, c, phrase) ==> after.meta.Some?)
            && (UsableMeta(after.meta).Err? ==> Select(after, p).Err?)
  {
    hide UsableMeta, FaultAt, Select, Held, MetaOf, PhraseOf, Foreign;
    UnusableMetaOpensNothing(after, p);
    ForeignHoldsNothing(d.cells.b, B, IdentityOf(c.session));
    StoredMetaIsUsable(Some(Json(MetaDoc(c.meta))), c.meta, IdentityOf(c.session));
    if after.meta.Some? {
      NewSlotOpensExactlyIfWrapped(after, c, phrase);
    }
  }

  /**
   From any store without metadata, a creation that stops anywhere leaves something recoverable if and
   only if it is not the case that its slot write was done without complaint and its metadata write tore
   leaving residue, unless that residue wraps the new key for the same phrase. Otherwise creation refuses
   to run again, and with residue that is no usable metadata nothing opens.
   */
  lemma InitializeStrandsWhenTorn(d: Disk, phrase: Phrase, config: KdfConfig, now: u64, tape: seq<byte>, p: Phrase)
    requires CreateVault(phrase, config, now, tape).Ok?
    requires d.cells.meta == None && Foreign(d.cells.b, CreateVault(phrase, config, now, tape).value.session.dek)
    ensures var c := CreateVault(phrase, config, now, tape).value;
            var after := AfterInitialize(d, c).disk.cells;
            && (Recoverable(after, c, phrase) <==>
                  TearsMetadata(d, c) && !Reports(FaultAt(d, 1)) ==>
                    Wraps(FaultAt(d, 3).residue, IdentityOf(c.session), phrase))
            && (!Recoverable(after, c, phrase) ==> after.meta.Some?)
            && (UsableMeta(after.meta).Err? ==> Select(after, p).Err?)
  {
    hide CreateVault, AfterInitialize, Foreign, UsableMeta, WriteDone, FaultAt, DocumentLength, Select, Recoverable, Wraps,
         Held, StoresMeta, PhraseOf, EmptyContainer;
    var c := CreateVault(phrase, config, now, tape).value;
    CreatedDocuments(phrase, config, now, tape);
    InitializeReachesMetadata(d, c);
    var reached := FaultAt(d, 0).Works? && !Reports(FaultAt(d, 1)) && WriteDone(d, 1, d.cells.a, SlotText(c.initialSlot));
    ReachedMetadataDecides(d, c, AfterInitialize(d, c).disk.cells, phrase, reached, p);
  }

  /** A creation gets to its metadata write exactly if its slot write is done without complaint. */
  lemma InitializeReachesMetadata(d: Disk, c: Created)
    requires d.cells.meta == None && CheckCreated(c) == Ok(()) && c.initialSlot.slot == A
    requires DocumentLength(SlotDoc(c.initialSlot)) <= MAX_SLOT_JSON_BYTES
    requires DocumentLength(MetaDoc(c.meta)) <= MAX_METADATA_JSON_BYTES
    ensures var after := AfterInitialize(d, c).disk.cells;
            && after.meta
               == (if FaultAt(d, 0).Works? && !Reports(FaultAt(d, 1)) && WriteDone(d, 1, d.cells.a, SlotText(c.initialSlot))
                   then Landed(FaultAt(d, 3), None, Some(Json(MetaDoc(c.meta)))) else None)
            && after.a in {d.cells.a, Landed(FaultAt(d, 1), d.cells.a, Some(SlotText(c.initialSlot)))}
            && after.b == d.cells.b
            && (after.meta.Some? ==> after.a == Some(SlotText(c.initialSlot)))
  {
    hide WriteVerified, DocumentLength, CheckCreated, WriteDone, FaultAt, Landed;
    var g := Get(d, MetaKey);
    FirstFault(d);
    VerifiedWriteOutcome(g.disk, SlotKey(A), SlotDoc(c.initialSlot), MAX_SLOT_JSON_BYTES);
    FaultOfThirdWrite(d, SlotDoc(c.initialSlot), MAX_SLOT_JSON_BYTES);
    DoneAfterRead(d, d.cells.a, SlotText(c.initialSlot));
  }

  lemma FirstFault(d: Disk)
    ensures d.Next() == FaultAt(d, 0)
    ensures FaultAt(Get(d, MetaKey).disk, 0) == FaultAt(d, 1) && Get(d, MetaKey).disk.Next() == FaultAt(d, 1)
  {
  }

  lemma DoneAfterRead(d: Disk, before: Option<Text>, text: Text)
    ensures WriteDone(Get(d, MetaKey).disk, 0, before, text) == WriteDone(d, 1, before, text)
  {
  }

  /** The same for creation driven from JavaScript, whose slot write may even have been reported failed. */
  lemma CreateSessionStrandsWhenTorn(d: Disk, phrase: Phrase, now: u64, tape: seq<byte>, p: Phrase)
    requires CreateVault(phrase, DEFAULT_KDF_CONFIG, now, tape).Ok?
    requires d.cells.meta == None
    requires Foreign(d.cells.b, CreateVault(phrase, DEFAULT_KDF_CONFIG, now, tape).value.session.dek)
    ensures var c := CreateVault(phrase, DEFAULT_KDF_CONFIG, now, tape).value;
            var after := AfterCreateSession(d, phrase, Some(now), tape).disk.cells;
            && (Recoverable(after, c, phrase) <==>
                  TearsMetadata(d, c) ==> Wraps(FaultAt(d, 3).residue, IdentityOf(c.session), phrase))
            && (!Recoverable(after, c, phrase) ==> after.meta.Some?)
            && (UsableMeta(after.meta).Err? ==> Select(after, p).Err?)
  {
    hide CreateVault, AfterCreateSession, Foreign, UsableMeta, WriteDone, FaultAt, DocumentLength, Select, Recoverable,
         Wraps, Held, StoresMeta, PhraseOf, EmptyContainer;
    var c := CreateVault(phrase, DEFAULT_KDF_CONFIG, now, tape).value;
    CreatedDocuments(phrase, DEFAULT_KDF_CONFIG, now, tape);
    CreateSessionReachesMetadata(d, phrase, now, tape);
    var reached := FaultAt(d, 0).Works? && WriteDone(d, 1, d.cells.a, SlotText(c.initialSlot));
    ReachedMetadataDecides(d, c, AfterCreateSession(d, phrase, Some(now), tape).disk.cells, phrase, reached, p);
  }

  lemma CreateSessionReachesMetadata(d: Disk, phrase: Phrase, now: u64, tape: seq<byte>)
    requires CreateVault(phrase, DEFAULT_KDF_CONFIG, now, tape).Ok? && d.cells.meta == None
    requires CreateVault(phrase, DEFAULT_KDF_CONFIG, now, tape).value.initialSlot.slot == A
    ensures var c := CreateVault(phrase, DEFAULT_KDF_CONFIG, now, tape).value;
            var after := AfterCreateSession(d, phrase, Some(now), tape).disk.cells;
            && after.meta
               == (if FaultAt(d, 0).Works? && WriteDone(d, 1, d.cells.a, SlotText(c.initialSlot))
                   then Landed(FaultAt(d, 3), None, Some(Json(MetaDoc(c.meta)))) else None)
            && after.a in {d.cells.a, Landed(FaultAt(d, 1), d.cells.a, Some(SlotText(c.initialSlot)))}
            && after.b == d.cells.b
            && (after.meta.Some? ==> after.a == Some(SlotText(c.initialSlot)))
  {
    hide CreateVault, AdapterSet, WriteDone, FaultAt, Landed;
    var c := CreateVault(phrase, DEFAULT_KDF_CONFIG, now, tape).value;
    var g := Get(d, MetaKey);
    FirstFault(d);
    AdapterWriteOutcome(g.disk, SlotKey(A), SlotText(c.initialSlot));
    FaultOfThirdWrite(d, SlotDoc(c.initialSlot), MAX_SLOT_JSON_BYTES);
    DoneAfterRead(d, d.cells.a, SlotText(c.initialSlot));
  }

  /** Text that is no document at all. */
  const GARBAGE: Text := Other(0, None, 0)

  /** On an empty device, a creation whose metadata write tears leaves just that, by either path, and is stuck. */
  lemma TornCreationStrands(phrase: Phrase, now: u64, tape: seq<byte>, p: Phrase)
    requires CheckNewMasterPassword(phrase).Ok? && |tape| >= 112
    ensures CreateVault(phrase, DEFAULT_KDF_CONFIG, now, tape).Ok?
    ensures var c := CreateVault(phrase, DEFAULT_KDF_CONFIG, now, tape).value;
            var d := Disk(EMPTY, [Works, Works, Works, Tears(Some(GARBAGE), false)]);
            var s := AfterInitialize(d, c);
            var j := AfterCreateSession(d, phrase, Some(now), tape);
            && s.disk.cells.meta == Some(GARBAGE) && j.disk.cells.meta == Some(GARBAGE)
            && AfterOpen(s.disk, p).result.Err? && AfterInitialize(s.disk, c).result.Err?
            && AfterOpenSession(j.disk, p).result.Err? && AfterCreateSession(j.disk, p, Some(now), tape).result.Err?
  {
    hide CreateVault, AfterInitialize, AfterCreateSession, AfterOpen, AfterOpenSession, CheckNewMasterPassword,
         DocumentLength, CheckCreated, UsableMeta, EmptyContainer;
    CreationSucceedsExactly(phrase, DEFAULT_KDF_CONFIG, now, tape);
    var c := CreateVault(phrase, DEFAULT_KDF_CONFIG, now, tape).value;
    var d := Disk(EMPTY, [Works, Works, Works, Tears(Some(GARBAGE), false)]);
    CreatedDocuments(phrase, DEFAULT_KDF_CONFIG, now, tape);
    InitializeReachesMetadata(d, c);
    CreateSessionReachesMetadata(d, phrase, now, tape);
    GarbageIsUnusable();
    var s := AfterInitialize(d, c).disk;
    var j := AfterCreateSession(d, phrase, Some(now), tape).disk;
    UnusableMetadataStrands(s, p, c, Some(now), tape);
    UnusableMetadataStrands(j, p, c, Some(now), tape);
  }

  lemma GarbageIsUnusable()
    ensures UsableMeta(Some(GARBAGE)).Err?
  {
  }

  /** Metadata that is present but unusable strands the store by either path: nothing opens, creates or changes it. */
  lemma UnusableMetadataStrands(d: Disk, phrase: Phrase, created: Created, now: Option<u64>, tape: seq<byte>)
    requires d.cells.meta.Some? && UsableMeta(d.cells.meta).Err?
    ensures AfterOpen(d, phrase).result.Err? && AfterInitialize(d, created).result.Err?
    ensures AfterOpen(d, phrase).disk.cells == d.cells && AfterInitialize(d, created).disk.cells == d.cells
    ensures AfterOpenSession(d, phrase).result.Err? && AfterCreateSession(d, phrase, now, tape).result.Err?
    ensures AfterOpenSession(d, phrase).disk.cells == d.cells
    ensures AfterCreateSession(d, phrase, now, tape).disk.cells == d.cells
  {
    hide UsableMeta, CheckCreated, WriteVerified, Choose, CreateVault, PersistCreated, LoadSnapshot, AdapterSet,
         AfterOpenSession;
    OpenSessionSelects(d, phrase);
    UnusableMetaOpensNothing(d.cells, phrase);
    FailedSnapshotKeeps(d, phrase);
  }

  lemma FailedSnapshotKeeps(d: Disk, phrase: Phrase)
    requires Select(d.cells, phrase).Err?
    ensures AfterOpenSession(d, phrase).disk.cells == d.cells
  {
    hide Select, AfterOpen, LoadSnapshot, AdapterSet;
    SnapshotIsCells(d);
    OpenOnDevice(Disk(d.cells, []), phrase);
  }
}
