/**
 Removing a vault. The repository removes the metadata first, the JavaScript side removes it last:
 interrupted, the one leaves the store as it was or one to create in, the other may also leave one that
 opens to older contents, or one that neither opens nor lets creation run.
 */
module Destruction {
  import opened Wrappers
  import opened Bytes
  import opened Aad
  import opened Model
  import opened JsonLength
  import opened Vault
  import opened Device
  import opened Repository
  import opened OpenProperties
  import opened SaveProperties
  import opened VaultProperties
  import opened Bridge
  import opened BridgeProperties
  import opened Persistence
  import opened Refinement
  import opened Recovery
  import opened Runs
  import opened Creation
  import opened Rotation
  import opened Oversize

  /**
   Wherever a repository clearing stops, metadata is gone or nothing but the metadata cell has changed;
   replaced as a whole, that cell then still opens what it opened. Success means every cell is empty.
   */
  lemma ClearingIsAtomic(d: Disk, phrase: Phrase)
    ensures var s := ClearAll(d, CLEAR_ORDER);
            && s.disk.cells.meta == Landed(FaultAt(d, 0), d.cells.meta, None)
            && (s.disk.cells.meta == None || s.disk.cells == d.cells.(meta := s.disk.cells.meta))
            && (s.disk.cells.meta != None && !FaultAt(d, 0).Tears? ==>
                  Select(s.disk.cells, phrase) == Select(d.cells, phrase))
            && (s.result.Ok? ==> s.disk.cells == Cells(None, None, None, None))
            && (d.faults == [] ==> s.result.Ok?)
  {
    hide RemoveChecked, Select;
    var first := RemoveChecked(d, MetaKey);
    var second := RemoveChecked(first.disk, SlotKey(A));
    var third := RemoveChecked(second.disk, SlotKey(B));
    ClearSteps(d);
    ClearingMetadataFirst(first.disk);
    if d.faults == [] {
      QuietRemoval(d, MetaKey);
      QuietRemoval(first.disk, SlotKey(A));
      QuietRemoval(second.disk, SlotKey(B));
      QuietRemoval(third.disk, PointerKey);
    }
    assert d.cells.(meta := d.cells.meta) == d.cells;
  }

  /**
   A clearing keeps that promise to whoever could open the store exactly if its first removal does not
   tear and leave residue, or leaves metadata that wraps the same key for the same phrase. Where it does
   not, the metadata cell is not empty, so creation refuses to run.
   */
  lemma ClearingStrandsWhenTorn(d: Disk, phrase: Phrase, v: Session)
    requires Select(d.cells, phrase) == Ok(v)
    ensures var after := ClearAll(d, CLEAR_ORDER).disk.cells;
            var torn := FaultAt(d, 0);
            && (after.meta == None || Select(after, phrase) == Ok(v)
                <==> (torn.Tears? && torn.residue.Some? ==> Wraps(torn.residue, IdentityOf(v), phrase)))
            && (UsableMeta(after.meta).Err? ==> Select(after, phrase).Err?)
  {
    hide RemoveChecked, Select, ClearAll, UsableMeta, Wraps;
    ClearingIsAtomic(d, phrase);
    ClearSteps(d);
    TornRemovalFails(d, MetaKey);
    var after := ClearAll(d, CLEAR_ORDER).disk.cells;
    UnusableMetaOpensNothing(after, phrase);
    OpensExactlyIfWrapped(d.cells, phrase, v, after.meta, phrase);
  }

  /** On an empty device: a vault is created, and a clearing tears its first removal. Nothing opens or creates. */
  lemma TornClearingStrands(phrase: Phrase, now: u64, tape: seq<byte>, p: Phrase, created: Created)
    requires CheckNewMasterPassword(phrase).Ok? && |tape| >= 112
    ensures var before := AfterCreateSession(Disk(EMPTY, []), phrase, Some(now), tape).disk.cells;
            var s := ClearAll(Disk(before, [Tears(Some(GARBAGE), false)]), CLEAR_ORDER);
            && Select(before, phrase).Ok? && s.result.Err? && s.disk.cells == before.(meta := Some(GARBAGE))
            && AfterOpen(s.disk, p).result.Err? && AfterInitialize(s.disk, created).result.Err?
            && AfterOpenSession(s.disk, p).result.Err? && AfterCreateSession(s.disk, p, Some(now), tape).result.Err?
  {
    hide CreateVault, AfterCreateSession, AfterInitialize, AfterOpen, AfterOpenSession, Select, RemoveChecked, ClearAll,
         UsableMeta, Inv, CheckNewMasterPassword;
    FreshStoreIsInOrder(phrase, now, tape);
    var before := AfterCreateSession(Disk(EMPTY, []), phrase, Some(now), tape).disk.cells;
    var d := Disk(before, [Tears(Some(GARBAGE), false)]);
    ClearingIsAtomic(d, phrase);
    ClearSteps(d);
    TornRemovalFails(d, MetaKey);
    GarbageIsUnusable();
    UnusableMetadataStrands(ClearAll(d, CLEAR_ORDER).disk, p, created, Some(now), tape);
  }

  lemma TornRemovalFails(d: Disk, key: StorageKey)
    ensures FaultAt(d, 0).Tears? && FaultAt(d, 0).residue.Some? ==>
      RemoveChecked(d, key).result.Err? && RemoveChecked(d, key).disk.cells.At(key) == FaultAt(d, 0).residue
  {
  }

  lemma ClearSteps(d: Disk)
    ensures var first := RemoveChecked(d, MetaKey);
            ClearAll(d, CLEAR_ORDER)
            == if first.result.Err? then first else ClearAll(first.disk, [SlotKey(A), SlotKey(B), PointerKey])
  {
    hide RemoveChecked;
    ClearFirst(d, MetaKey, [SlotKey(A), SlotKey(B), PointerKey]);
    assert CLEAR_ORDER == [MetaKey] + [SlotKey(A), SlotKey(B), PointerKey];
  }

  lemma ClearFirst(d: Disk, key: StorageKey, rest: seq<StorageKey>)
    ensures var r := RemoveChecked(d, key);
            && ClearAll(d, [key] + rest) == (if r.result.Err? then r else ClearAll(r.disk, rest))
            && ClearAll(r.disk, []) == Step(Ok(()), r.disk)
  {
    hide RemoveChecked;
    assert ([key] + rest)[1..] == rest;
  }

  lemma ClearingMetadataFirst(d: Disk)
    ensures var s := ClearAll(d, [SlotKey(A), SlotKey(B), PointerKey]);
            var a := RemoveChecked(d, SlotKey(A));
            var b := RemoveChecked(a.disk, SlotKey(B));
            var p := RemoveChecked(b.disk, PointerKey);
            && s.disk == (if a.result.Err? then a else if b.result.Err? then b else p).disk
            && (s.result.Ok? <==> a.result.Ok? && b.result.Ok? && p.result.Ok?)
            && s.disk.cells.meta == d.cells.meta
            && (s.result.Ok? ==> s.disk.cells == Cells(d.cells.meta, None, None, None))
  {
    hide RemoveChecked;
    var a := RemoveChecked(d, SlotKey(A));
    var b := RemoveChecked(a.disk, SlotKey(B));
    var p := RemoveChecked(b.disk, PointerKey);
    ClearFirst(b.disk, PointerKey, []);
    ClearFirst(a.disk, SlotKey(B), [PointerKey]);
    ClearFirst(d, SlotKey(A), [SlotKey(B), PointerKey]);
    assert [SlotKey(A), SlotKey(B), PointerKey] == [SlotKey(A)] + [SlotKey(B), PointerKey];
    assert [SlotKey(B), PointerKey] == [SlotKey(B)] + [PointerKey];
    assert [PointerKey] == [PointerKey] + [];
  }

  lemma QuietRemoval(d: Disk, key: StorageKey)
    requires d.faults == []
    ensures RemoveChecked(d, key).result.Ok? && RemoveChecked(d, key).disk.faults == []
  {
  }

  // ---- From JavaScript ----

  lemma RemoveFirst(d: Disk, key: StorageKey, rest: seq<StorageKey>)
    ensures var r := AdapterRemove(d, key);
            && RemoveAll(d, [key] + rest) == (if r.result.Err? then r else RemoveAll(r.disk, rest))
            && RemoveAll(r.disk, []) == DeviceStep(Ok(()), r.disk)
  {
    hide AdapterRemove;
    assert ([key] + rest)[1..] == rest;
  }

  lemma RemovalSteps(d: Disk)
    ensures var a := AdapterRemove(d, SlotKey(A));
            var b := AdapterRemove(a.disk, SlotKey(B));
            var p := AdapterRemove(b.disk, PointerKey);
            var m := AdapterRemove(p.disk, MetaKey);
            var s := RemoveAll(d, DESTROY_ORDER);
            && s.disk == (if a.result.Err? then a else if b.result.Err? then b else if p.result.Err? then p else m).disk
            && (s.result.Ok? <==> a.result.Ok? && b.result.Ok? && p.result.Ok? && m.result.Ok?)
  {
    hide AdapterRemove;
    var a := AdapterRemove(d, SlotKey(A));
    var b := AdapterRemove(a.disk, SlotKey(B));
    var p := AdapterRemove(b.disk, PointerKey);
    var m := AdapterRemove(p.disk, MetaKey);
    RemoveFirst(p.disk, MetaKey, []);
    RemoveFirst(b.disk, PointerKey, [MetaKey]);
    RemoveFirst(a.disk, SlotKey(B), [PointerKey, MetaKey]);
    RemoveFirst(d, SlotKey(A), [SlotKey(B), PointerKey, MetaKey]);
    assert DESTROY_ORDER == [SlotKey(A)] + [SlotKey(B), PointerKey, MetaKey];
    assert [SlotKey(B), PointerKey, MetaKey] == [SlotKey(B)] + [PointerKey, MetaKey];
    assert [PointerKey, MetaKey] == [PointerKey] + [MetaKey];
    assert [MetaKey] == [MetaKey] + [];
  }

  /** A removal is done when it leaves the cell empty and its readback works. */
  predicate RemovalDone(d: Disk, n: nat, before: Option<Text>) {
    Landed(FaultAt(d, n), before, None) == None && FaultAt(d, n + 1).Works?
  }

  lemma RemovalOutcome(d: Disk, e: Disk, n: nat, key: StorageKey)
    requires e == Later(d, e.cells, n)
    ensures var r := AdapterRemove(e, key);
            && (r.result.Ok? <==> RemovalDone(d, n, e.cells.At(key)))
            && r.disk == Later(d, r.disk.cells, n + 2)
            && r.disk.cells == e.cells.With(key, Landed(FaultAt(d, n), e.cells.At(key), None))
  {
    FaultsLater(d, e.cells, n, 0);
    FaultsLater(d, e.cells, n, 1);
  }

  /** The cells a destruction leaves, by the first removal that is not done. */
  function DestroyedCells(d: Disk): Cells {
    var c := d.cells;
    if !RemovalDone(d, 0, c.a) then c.(a := Landed(FaultAt(d, 0), c.a, None))
    else if !RemovalDone(d, 2, c.b) then c.(a := None, b := Landed(FaultAt(d, 2), c.b, None))
    else if !RemovalDone(d, 4, c.pointer) then Cells(c.meta, None, None, Landed(FaultAt(d, 4), c.pointer, None))
    else Cells(Landed(FaultAt(d, 6), c.meta, None), None, None, None)
  }

  lemma DestructionOutcome(d: Disk)
    ensures RemoveAll(d, DESTROY_ORDER).disk.cells == DestroyedCells(d)
    ensures RemoveAll(d, DESTROY_ORDER).result.Ok? <==>
      && RemovalDone(d, 0, d.cells.a) && RemovalDone(d, 2, d.cells.b)
      && RemovalDone(d, 4, d.cells.pointer) && RemovalDone(d, 6, d.cells.meta)
  {
    hide AdapterRemove, RemoveAll, RemovalDone, FaultAt, Landed, Later;
    RemovalSteps(d);
    NoneLater(d);
    var a := AdapterRemove(d, SlotKey(A)).disk;
    var b := AdapterRemove(a, SlotKey(B)).disk;
    var p := AdapterRemove(b, PointerKey).disk;
    RemovalOutcome(d, d, 0, SlotKey(A));
    RemovalOutcome(d, a, 2, SlotKey(B));
    RemovalOutcome(d, b, 4, PointerKey);
    RemovalOutcome(d, p, 6, MetaKey);
    DoneIsEmpty(d, 0, d.cells.a);
    DoneIsEmpty(d, 2, d.cells.b);
    DoneIsEmpty(d, 4, d.cells.pointer);
  }

  lemma NoneLater(d: Disk)
    ensures d == Later(d, d.cells, 0)
  {
  }

  lemma DoneIsEmpty(d: Disk, n: nat, before: Option<Text>)
    ensures RemovalDone(d, n, before) ==> Landed(FaultAt(d, n), before, None) == None
  {
  }

  /**
   A destruction touches the metadata only once every other cell is empty, so a store that an
   interrupted one leaves without metadata is empty. Success means every cell is empty, and without
   faults it succeeds, whatever an earlier one left.
   */
  lemma DestructionEndsWithMetadata(d: Disk)
    ensures var s := RemoveAll(d, DESTROY_ORDER);
            && (s.disk.cells.meta != d.cells.meta ==> s.disk.cells == Cells(s.disk.cells.meta, None, None, None))
            && (s.result.Ok? ==> s.disk.cells == EMPTY)
            && (d.faults == [] ==> s.result.Ok?)
  {
    hide RemoveAll;
    DestructionOutcome(d);
  }

  /** Whether the faults of a destruction make it stop before it has emptied one slot's cell. */
  predicate KeepsSlot(d: Disk, side: SlotId) {
    match side
    case A => FaultAt(d, 0).Refuses?
    case B => !RemovalDone(d, 0, d.cells.a) || FaultAt(d, 2).Refuses?
  }

  /** Whether the faults of a destruction let it get as far as emptying the metadata cell. */
  predicate RemovesMeta(d: Disk) {
    && RemovalDone(d, 0, d.cells.a) && RemovalDone(d, 2, d.cells.b) && RemovalDone(d, 4, d.cells.pointer)
    && Landed(FaultAt(d, 6), d.cells.meta, None) == None
  }

  /** What a destruction does to each cell, fault by fault. */
  lemma DestroyedShape(d: Disk)
    ensures var after := DestroyedCells(d);
            && after.a == Landed(FaultAt(d, 0), d.cells.a, None)
            && after.b == (if RemovalDone(d, 0, d.cells.a) then Landed(FaultAt(d, 2), d.cells.b, None) else d.cells.b)
            && (d.cells.meta.Some? ==> (after.meta == None <==> RemovesMeta(d)))
            && (after.meta != d.cells.meta ==>
                  && RemovalDone(d, 0, d.cells.a) && RemovalDone(d, 2, d.cells.b)
                  && after == Cells(after.meta, None, None, None))
  {
    hide FaultAt;
  }

  /** A slot is worth what it was if its cell is spared, and nothing otherwise. */
  lemma SparedSlots(d: Disk, id: Identity)
    requires Benign(d.faults, id.dek)
    ensures var after := DestroyedCells(d);
            && Held(after.a, A, id) == (if KeepsSlot(d, A) then Held(d.cells.a, A, id) else None)
            && Held(after.b, B, id) == (if KeepsSlot(d, B) then Held(d.cells.b, B, id) else None)
  {
    hide Held, DestroyedCells, RemovesMeta, Foreign;
    DestroyedShape(d);
    HeldNothing(A, id);
    HeldNothing(B, id);
    RemovalLeavesForeign(d, 0, A, id);
    RemovalLeavesForeign(d, 2, B, id);
  }

  lemma RemovalLeavesForeign(d: Disk, n: nat, side: SlotId, id: Identity)
    requires Benign(d.faults, id.dek)
    ensures FaultAt(d, n).Tears? ==> Held(FaultAt(d, n).residue, side, id) == None
  {
    hide Held, Foreign;
    if FaultAt(d, n).Tears? {
      ForeignHoldsNothing(FaultAt(d, n).residue, side, id);
    }
  }

  function NewestSide(cells: Cells, l: Ledger, id: Identity): SlotId {
    SideOf(Newest(cells, l, id).generation)
  }

  /** The newest contents are in their slot, and whatever the other slot holds is older. */
  lemma NewestIsHeld(cells: Cells, l: Ledger, id: Identity)
    requires SlotsInv(cells, l, id)
    ensures var newest := Newest(cells, l, id);
            var side := NewestSide(cells, l, id);
            var other := Held(cells.At(SlotKey(side.Other())), side.Other(), id);
            && Held(cells.At(SlotKey(side)), side, id) == Some(newest)
            && cells.At(SlotKey(side)).Some?
            && (other.Some? ==> other.value.generation < newest.generation)
  {
    hide Held;
    HeldNothing(A, id);
    HeldNothing(B, id);
  }

  /** With the metadata untouched, the slots spared decide what opens. */
  lemma SparedSlotsOpen(d: Disk, l: Ledger, id: Identity, phrase: Phrase)
    requires SlotsInv(d.cells, l, id) && MetaInv(d.cells.meta, l, id) && Benign(d.faults, id.dek)
    requires PhraseOf(UsableMeta(d.cells.meta).value) == Some(phrase)
    requires DestroyedCells(d).meta == d.cells.meta
    ensures var after := DestroyedCells(d);
            var newest := Newest(d.cells, l, id);
            var side := NewestSide(d.cells, l, id);
            var other := Held(d.cells.At(SlotKey(side.Other())), side.Other(), id);
            Select(after, phrase)
            == if KeepsSlot(d, side) then Ok(Session(newest, id.dek, side))
               else if KeepsSlot(d, side.Other()) && other.Some? then Ok(Session(other.value, id.dek, side.Other()))
               else Err(WrongPasswordOrCorruptedVault)
  {
    hide Select, UsableMeta, UsablePointer, Held, MetaOf, PhraseOf, KeepsSlot, DestroyedCells, SlotsInv, Newest, Benign,
         Preferred;
    var after := DestroyedCells(d);
    NewestIsHeld(d.cells, l, id);
    SparedSlots(d, id);
    SelectByHeld(after, phrase, UsableMeta(d.cells.meta).value, id);
    NewerIsPreferred(UsablePointer(after.pointer), after, id);
  }

  /** Once the metadata has been touched, or slot A emptied before slot B is lost, the faults have spared nothing. */
  lemma NothingSpared(d: Disk, l: Ledger, id: Identity)
    requires SlotsInv(d.cells, l, id)
    ensures var side := NewestSide(d.cells, l, id);
            var other := Held(d.cells.At(SlotKey(side.Other())), side.Other(), id);
            && (RemovalDone(d, 0, d.cells.a) && RemovalDone(d, 2, d.cells.b) ==>
                  !KeepsSlot(d, side) && !(KeepsSlot(d, side.Other()) && other.Some?))
            && (side.B? && !KeepsSlot(d, B) ==> !(KeepsSlot(d, A) && other.Some?))
  {
    hide Held, SlotsInv, Newest;
    NewestIsHeld(d.cells, l, id);
    HeldNothing(A, id);
    HeldNothing(B, id);
  }

  /**
   From any reachable state, an interrupted destruction leaves a store that opens as before, or no
   metadata, if and only if its faults spare the slot of the newest contents or reach the metadata.
   Otherwise the store opens to the older contents in slot B if the faults spare those, and to nothing,
   with the metadata still there, if they do not.
   */
  lemma InterruptedDestruction(w: World, l: Ledger, id: Identity, phrase: Phrase, faults: seq<Fault>)
    requires Inv(w, l, id) && Benign(faults, id.dek)
    requires PhraseOf(UsableMeta(w.cells.meta).value) == Some(phrase)
    ensures var d := Disk(w.cells, faults);
            var after := RemoveAll(d, DESTROY_ORDER).disk.cells;
            var side := NewestSide(w.cells, l, id);
            var older := Held(w.cells.b, B, id);
            && (after.meta == None <==> RemovesMeta(d))
            && (after.meta == None ==> after == EMPTY)
            && (after.meta == None || Select(after, phrase) == Select(w.cells, phrase)
                <==> RemovesMeta(d) || KeepsSlot(d, side))
            && (!RemovesMeta(d) && !KeepsSlot(d, side) ==>
                  if side.A? && KeepsSlot(d, B) && older.Some? then
                    && Select(after, phrase) == Ok(Session(older.value, id.dek, B))
                    && older.value.generation < Newest(w.cells, l, id).generation
                  else after.meta.Some? && Select(after, phrase).Err?)
  {
    hide RemoveAll, SlotsInv, LiveInv, MetaInv, Select, RemovalDone, DestroyedCells, Newest, Held, KeepsSlot, RemovesMeta,
         Benign, UsableMeta, PhraseOf;
    var d := Disk(w.cells, faults);
    var after := DestroyedCells(d);
    DestructionOutcome(d);
    DestroyedShape(d);
    StoredMetaReads(w.cells.meta, l, id);
    NewestIsHeld(w.cells, l, id);
    NothingSpared(d, l, id);
    OpensNewest(w.cells, l, id, w.cells.pointer, phrase);
    assert w.cells.(pointer := w.cells.pointer) == w.cells;
    if after.meta == w.cells.meta {
      SparedSlotsOpen(d, l, id, phrase);
    } else if after.meta.Some? {
      NothingOpensWithoutSlots(after, phrase);
    }
  }

  lemma NothingOpensWithoutSlots(cells: Cells, phrase: Phrase)
    requires cells.a == None && cells.b == None
    ensures Select(cells, phrase).Err?
  {
    hide UsableMeta, UsablePointer;
  }

  /** Once both slots are empty and metadata is still there, no phrase opens the store and none creates in it. */
  lemma InterruptedDestructionStrands(d: Disk, phrase: Phrase, now: Option<u64>, tape: seq<byte>)
    requires d.cells.meta.Some? && d.faults == [Works, Works, Works, Works, Refuses, Refuses]
    ensures var s := RemoveAll(d, DESTROY_ORDER);
            && s.result.Err? && s.disk.cells == Cells(d.cells.meta, None, None, d.cells.pointer)
            && Select(s.disk.cells, phrase).Err?
            && AfterOpenSession(s.disk, phrase).result.Err?
            && AfterCreateSession(s.disk, phrase, now, tape).result == Err(AlreadyExists)
  {
    hide Select, AfterOpen, CreateVault, PersistCreated, AdapterSet;
    RemovalSteps(d);
    var s := RemoveAll(d, DESTROY_ORDER);
    NothingOpensWithoutSlots(s.disk.cells, phrase);
    OpenOnDevice(Disk(s.disk.cells, []), phrase);
  }

  // ---- A silent rollback ----

  lemma SmallVaultFits(v: Session, vaultId: VaultId, now: u64, generation: u64, tape: seq<byte>)
    requires v.container == EmptyContainer(vaultId, now).(generation := generation) && generation < U64_MAX
    requires Sound(v.container) && |tape| >= NONCE_BYTES
    ensures EncryptForSlot(v, v.slot.Other(), tape).Ok?
    ensures SlotLength(SlotToWrite(v, tape)) <= MAX_SLOT_JSON_BYTES
  {
    hide EncryptForSlot, SlotLength, Sound, ContainerLength, EmptyContainer;
    EmptyContainerIsSmall(vaultId, now, generation + 1);
    EncryptsUnless(v, tape);
    SavedLengthIsKnown(v, tape);
    U64Digits(generation + 1);
  }

  /** A vault created on an empty device, as a bridge session over cells that open to it. */
  lemma CreatedAnew(phrase: Phrase, now: u64, tape: seq<byte>)
    requires CheckNewMasterPassword(phrase).Ok? && |tape| >= 112
    ensures var created := AfterCreateSession(Disk(EMPTY, []), phrase, Some(now), tape);
            var b := created.bridge;
            && created.result.Ok? && BridgeInv(b) && EnsureMutable(b).Ok?
            && Select(created.disk.cells, phrase) == Ok(b.vault.value) && b.vault.value.slot == A
            && b.vault.value.container == EmptyContainer(b.vault.value.container.vaultId, now)
  {
    hide CreateVault, Select, BridgeInv, CheckNewMasterPassword, AfterCreateSession, Inv, EmptyContainer, PhraseOf;
    FreshStoreIsInOrder(phrase, now, tape);
    CreatedBridgeStarts(phrase, DEFAULT_KDF_CONFIG, now, tape);
    CreatedShape(phrase, DEFAULT_KDF_CONFIG, now, tape);
  }

  /** A save without faults of an agreeing session, within the limit, leaves cells that open to it. */
  lemma QuietSaveOpens(cells: Cells, b: BridgeState, phrase: Phrase, tape: seq<byte>)
    requires BridgeInv(b) && EnsureMutable(b).Ok? && Select(cells, phrase) == Ok(b.vault.value)
    requires EncryptForSlot(b.vault.value, b.vault.value.slot.Other(), tape).Ok?
    requires SlotLength(SlotToWrite(b.vault.value, tape)) <= MAX_SLOT_JSON_BYTES
    ensures var v := b.vault.value;
            var j := AfterSaveSession(Disk(cells, []), b, tape, 0);
            && v.container.generation < U64_MAX && j.result.Ok? && j.bridge == b.(vault := Some(Advanced(v)))
            && BridgeInv(j.bridge) && EnsureMutable(j.bridge).Ok? && Select(j.disk.cells, phrase) == Ok(Advanced(v))
            && j.disk.cells.At(SlotKey(v.slot)) == cells.At(SlotKey(v.slot)) && j.disk.cells.meta == cells.meta
            && j.disk.cells.At(SlotKey(v.slot.Other())) == Some(SlotText(SlotToWrite(v, tape)))
  {
    hide AfterSaveSession, EncryptForSlot, SlotLength, Select, MetaOf, Sound, UsableMeta;
    QuietSplitSaveSucceeds(Disk(cells, []), b, tape);
    var j := AfterSaveSession(Disk(cells, []), b, tape, 0);
    AdvancedBridge(b);
    SavedSlotSelects(cells, j.disk.cells, b.vault.value, b.vault.value, phrase, tape);
  }

  /** Without slot A, a store opens to what slot B holds. */
  lemma WithoutSlotA(cells: Cells, phrase: Phrase, v: Session, older: Container)
    requires Select(cells, phrase) == Ok(v) && Held(cells.b, B, IdentityOf(v)) == Some(older)
    ensures Select(cells.(a := None), phrase) == Ok(Session(older, v.dek, B))
  {
    hide Select, Held, MetaOf, UsableMeta, UsablePointer, PhraseOf, Sound, Unwraps, Preferred;
    SelectedSession(cells, phrase);
    var meta := UsableMeta(cells.meta).value;
    UnwrapsIsMetaOf(meta, phrase, v);
    HeldNothing(A, IdentityOf(v));
    SelectByHeld(cells.(a := None), phrase, meta, IdentityOf(v));
  }

  lemma StoppedAfterSlotA(cells: Cells)
    requires cells.b.Some?
    ensures var r := RemoveAll(Disk(cells, [Works, Works, Refuses]), DESTROY_ORDER);
            r.result.Err? && r.disk.cells == cells.(a := None)
  {
    hide RemoveAll;
    DestructionOutcome(Disk(cells, [Works, Works, Refuses]));
  }

  /**
   On an empty device a vault is created and saved twice without faults. A destruction that then stops
   after slot A reports failure, and the store opens, to the contents before the last save.
   */
  lemma InterruptedDestructionRollsBack(phrase: Phrase, now: u64, tape: seq<byte>, n1: seq<byte>, n2: seq<byte>)
    requires CheckNewMasterPassword(phrase).Ok? && |tape| >= 112 && |n1| >= NONCE_BYTES && |n2| >= NONCE_BYTES
    ensures var created := AfterCreateSession(Disk(EMPTY, []), phrase, Some(now), tape);
            var first := AfterSaveSession(Disk(created.disk.cells, []), created.bridge, n1, 0);
            var second := AfterSaveSession(Disk(first.disk.cells, []), first.bridge, n2, 0);
            var destroyed := RemoveAll(Disk(second.disk.cells, [Works, Works, Refuses]), DESTROY_ORDER);
            && created.result.Ok? && first.result.Ok? && second.result.Ok? && destroyed.result.Err?
            && first.bridge.vault.Some? && second.bridge.vault.Some?
            && Select(second.disk.cells, phrase) == Ok(second.bridge.vault.value)
            && Select(destroyed.disk.cells, phrase) == Ok(first.bridge.vault.value)
            && first.bridge.vault.value.container.generation < second.bridge.vault.value.container.generation
  {
    hide Select, BridgeInv, CheckNewMasterPassword, AfterCreateSession, AfterSaveSession, RemoveAll,
         EncryptForSlot, SlotLength, Sound, EmptyContainer, Held;
    CreatedAnew(phrase, now, tape);
    var created := AfterCreateSession(Disk(EMPTY, []), phrase, Some(now), tape);
    var v0 := created.bridge.vault.value;
    var vaultId := v0.container.vaultId;
    IsFirst(vaultId, now);
    SoundVault(created.bridge);
    SmallVaultFits(v0, vaultId, now, 0, n1);
    QuietSaveOpens(created.disk.cells, created.bridge, phrase, n1);
    EncryptedIsHeld(v0, n1);
    var first := AfterSaveSession(Disk(created.disk.cells, []), created.bridge, n1, 0);
    var v1 := first.bridge.vault.value;
    SoundVault(first.bridge);
    SmallVaultFits(v1, vaultId, now, 1, n2);
    QuietSaveOpens(first.disk.cells, first.bridge, phrase, n2);
    var second := AfterSaveSession(Disk(first.disk.cells, []), first.bridge, n2, 0);
    StoppedAfterSlotA(second.disk.cells);
    WithoutSlotA(second.disk.cells, phrase, second.bridge.vault.value, v1.container);
  }
}
