/**
 The split save (prepare, verify, commit, driven from JavaScript) against the repository's save: for
 slots within the size limit they have the same outcomes, fault for fault, in both directions.
 */
module Refinement {
  import opened Wrappers
  import opened Bytes
  import opened Aad
  import opened Model
  import opened JsonLength
  import opened Validation
  import opened Vault
  import opened VaultProperties
  import opened Device
  import opened Repository
  import opened OpenProperties
  import opened SaveProperties
  import opened Bridge
  import opened BridgeProperties
  import opened Persistence

  /** The adapter's write of a text is done: the text is in place and its first readback works. */
  predicate WriteDone(d: Disk, n: nat, before: Option<Text>, text: Text) {
    Landed(FaultAt(d, n), before, Some(text)) == Some(text) && FaultAt(d, n + 1).Works?
  }

  function SlotToWrite(v: Session, tape: seq<byte>): Slot
    requires EncryptForSlot(v, v.slot.Other(), tape).Ok?
  {
    EncryptForSlot(v, v.slot.Other(), tape).value
  }

  function PointerToWrite(slot: Slot): Text {
    PointerText(slot.slot, slot.generation)
  }

  /** Faults that take the repository's save where these faults and this lock take the split save. */
  function MonolithicFaults(d: Disk, slot: Slot, lockAt: nat): seq<Fault> {
    if !WriteDone(d, 0, d.cells.At(SlotKey(slot.slot)), SlotText(slot)) then [FaultAt(d, 0), Refuses]
    else if lockAt == 1 || lockAt == 2 || !FaultAt(d, 2).Works? then [Works, Refuses]
    else if !WriteDone(d, 3, d.cells.pointer, PointerToWrite(slot)) then [Works, Works, Works, FaultAt(d, 3), Refuses]
    else if lockAt == 3 || lockAt == 4 || !FaultAt(d, 5).Works? then [Works, Works, Works, Works, Refuses]
    else []
  }

  /** Faults that take the split save where these faults, or the size limit, take the repository's save. */
  function SplitFaults(d: Disk, slot: Slot): seq<Fault> {
    if SlotLength(slot) > MAX_SLOT_JSON_BYTES then [Refuses, Refuses]
    else if Reports(FaultAt(d, 0)) || !WriteDone(d, 0, d.cells.At(SlotKey(slot.slot)), SlotText(slot)) then
      [FaultAt(d, 0), Refuses]
    else if !FaultAt(d, 2).Works? then [Works, Works, Refuses]
    else if Reports(FaultAt(d, 3)) || !WriteDone(d, 3, d.cells.pointer, PointerToWrite(slot)) then
      [Works, Works, Works, FaultAt(d, 3), Refuses]
    else []
  }

  /** Where a save stops: in its slot write, before its pointer write, in it, after it, or not at all. */
  datatype Stop = AtSlot | AfterSlot | AtPointer | AfterPointer | Never

  function StopOfSplit(d: Disk, slot: Slot, lockAt: nat): Stop {
    if !WriteDone(d, 0, d.cells.At(SlotKey(slot.slot)), SlotText(slot)) then AtSlot
    else if lockAt == 1 || lockAt == 2 || !FaultAt(d, 2).Works? then AfterSlot
    else if !WriteDone(d, 3, d.cells.pointer, PointerToWrite(slot)) then AtPointer
    else if lockAt == 3 || lockAt == 4 || !FaultAt(d, 5).Works? then AfterPointer
    else Never
  }

  function StopOfMonolithic(d: Disk, slot: Slot): Stop {
    if Reports(FaultAt(d, 0)) || !WriteDone(d, 0, d.cells.At(SlotKey(slot.slot)), SlotText(slot)) then AtSlot
    else if !FaultAt(d, 2).Works? then AfterSlot
    else if Reports(FaultAt(d, 3)) || !WriteDone(d, 3, d.cells.pointer, PointerToWrite(slot)) then AtPointer
    else Never
  }

  /** The cells a save leaves, by where it stopped. */
  function CellsAt(d: Disk, slot: Slot, stop: Stop): Cells {
    var key := SlotKey(slot.slot);
    match stop
    case AtSlot => d.cells.With(key, Landed(FaultAt(d, 0), d.cells.At(key), Some(SlotText(slot))))
    case AfterSlot => d.cells.With(key, Some(SlotText(slot)))
    case AtPointer =>
      d.cells.With(key, Some(SlotText(slot))).(
        pointer := Landed(FaultAt(d, 3), d.cells.pointer, Some(PointerToWrite(slot))))
    case AfterPointer => d.cells.With(key, Some(SlotText(slot))).(pointer := Some(PointerToWrite(slot)))
    case Never => d.cells.With(key, Some(SlotText(slot))).(pointer := Some(PointerToWrite(slot)))
  }

  /** The disk once its next `n` operations are over. */
  function Later(d: Disk, cells: Cells, n: nat): Disk {
    Disk(cells, if n <= |d.faults| then d.faults[n..] else [])
  }

  lemma FaultsLater(d: Disk, cells: Cells, n: nat, m: nat)
    ensures FaultAt(Later(d, cells, n), m) == FaultAt(d, n + m)
  {
  }

  lemma VerifiedWriteOutcome(d: Disk, key: StorageKey, doc: Document, maximum: nat)
    requires DocumentLength(doc) <= maximum
    ensures var s := WriteVerified(d, key, doc, maximum);
            && (s.result.Ok? <==> !Reports(FaultAt(d, 0)) && WriteDone(d, 0, d.cells.At(key), Json(doc)))
            && (s.result.Ok? ==> s.disk == Later(d, s.disk.cells, 2))
  {
    hide DocumentLength;
  }

  lemma AdapterWriteOutcome(d: Disk, key: StorageKey, text: Text)
    ensures var s := AdapterSet(d, key, text);
            && (s.result.Ok? <==> WriteDone(d, 0, d.cells.At(key), text))
            && s.disk == Later(d, s.disk.cells, 2)
  {
  }

  lemma MonolithicOutcome(d: Disk, v: Session, tape: seq<byte>)
    requires Sound(v.container)
    requires EncryptForSlot(v, v.slot.Other(), tape).Ok?
    ensures var slot := SlotToWrite(v, tape);
            var s := AfterSave(d, v, tape);
            var stop := StopOfMonolithic(d, slot);
            && slot.slot == v.slot.Other() && v.container.generation < U64_MAX
            && if SlotLength(slot) > MAX_SLOT_JSON_BYTES then s == SaveStep(Err(VaultTooLarge), d, v)
               else
                 && s.disk.cells == CellsAt(d, slot, stop)
                 && (s.result.Ok? <==> stop.Never?)
                 && s.session == (if stop.Never? then Advanced(v) else v)
  {
    hide EncryptForSlot, CheckNextSlot, ReadBack, SlotLength, DocumentLength, Sound, ValidSlot, UsableSlot, Recovered,
         DecryptContainer, WriteVerified, WriteDone;
    var slot := SlotToWrite(v, tape);
    SlotDocLength(slot);
    var pointer := Pointer(FORMAT_VERSION, v.slot.Other(), slot.generation);
    PointerFits(pointer);
    PointerDocLength(pointer);
    EncryptedSlotVerifies(v, tape);
    ReadFailureIsReturned(v);
    var key := SlotKey(slot.slot);
    var w := WriteVerified(d, key, SlotDoc(slot), MAX_SLOT_JSON_BYTES);
    if SlotLength(slot) <= MAX_SLOT_JSON_BYTES {
      WrittenSlotReadsBack(v, tape);
      VerifiedWriteOutcome(d, key, SlotDoc(slot), MAX_SLOT_JSON_BYTES);
      if w.result.Ok? {
        var g := Get(w.disk, key);
        assert g.disk == Later(d, w.disk.cells, 3);
        FaultsLater(d, w.disk.cells, 2, 0);
        PointerWriteLater(d, g.disk, pointer);
      }
    }
  }

  /** The pointer write of a save meets the save's fourth and fifth faults. */
  lemma PointerWriteLater(d: Disk, g: Disk, pointer: Pointer)
    requires g == Later(d, g.cells, 3) && g.cells.pointer == d.cells.pointer
    requires DocumentLength(PointerDoc(pointer)) <= MAX_ACTIVE_POINTER_BYTES
    ensures var w := WriteVerified(g, PointerKey, PointerDoc(pointer), MAX_ACTIVE_POINTER_BYTES);
            && (w.result.Ok? <==>
                  !Reports(FaultAt(d, 3)) && WriteDone(d, 3, d.cells.pointer, Json(PointerDoc(pointer))))
            && g.Next() == FaultAt(d, 3)
  {
    hide DocumentLength, WriteVerified;
    VerifiedWriteOutcome(g, PointerKey, PointerDoc(pointer), MAX_ACTIVE_POINTER_BYTES);
    FaultsLater(d, g.cells, 3, 0);
    FaultsLater(d, g.cells, 3, 1);
  }

  /** A bridge session with a save prepared for a slot. */
  function WithPending(b: BridgeState, slot: Slot): BridgeState {
    b.(pending := Some(Prepared(slot)))
  }

  function BundleFor(slot: Slot): SaveBundle {
    SaveBundle(SlotKey(slot.slot), Prepared(slot).slotText, Prepared(slot).pointerText)
  }

  lemma SlotStageOutcome(d: Disk, b: BridgeState, slot: Slot, lockAt: nat)
    requires b.vault.Some? && CheckNextSlot(b.vault.value, slot).Ok?
    ensures var s := SlotStage(d, WithPending(b, slot), BundleFor(slot), lockAt);
            var stop := StopOfSplit(d, slot, lockAt);
            && (s.result.Ok? <==> !stop.AtSlot? && !stop.AfterSlot?)
            && (s.result.Err? ==>
                  s.disk.cells == CellsAt(d, slot, stop) && AfterCancelSave(s.bridge) in {b.(pending := None), LOCKED})
            && (s.result.Ok? ==>
                  && s.bridge == b.(pending := Some(Prepared(slot).(slotVerified := true)))
                  && s.disk == Later(d, d.cells.With(SlotKey(slot.slot), Some(SlotText(slot))), 3))
  {
    hide CheckNextSlot, AdapterSet, WriteDone;
    var w := AdapterSet(d, SlotKey(slot.slot), SlotText(slot));
    AdapterWriteOutcome(d, SlotKey(slot.slot), SlotText(slot));
    FaultsLater(d, w.disk.cells, 2, 0);
  }

  lemma PointerStageOutcome(d: Disk, e: Disk, b: BridgeState, slot: Slot, lockAt: nat)
    requires b.vault.Some? && CheckNextSlot(b.vault.value, slot).Ok?
    requires e == Later(d, d.cells.With(SlotKey(slot.slot), Some(SlotText(slot))), 3)
    requires var stop := StopOfSplit(d, slot, lockAt); !stop.AtSlot? && !stop.AfterSlot?
    ensures var s := PointerStage(e, b.(pending := Some(Prepared(slot).(slotVerified := true))), BundleFor(slot), lockAt);
            var stop := StopOfSplit(d, slot, lockAt);
            && (s.result.Ok? <==> stop.Never?)
            && s.disk.cells == CellsAt(d, slot, stop)
            && (s.result.Err? ==> AfterCancelSave(s.bridge) in {b.(pending := None), LOCKED})
            && (s.result.Ok? ==> s.bridge == b.(vault := Some(Committed(b.vault.value, slot)), pending := None))
  {
    hide CheckNextSlot, AdapterSet, WriteDone;
    var text := PointerToWrite(slot);
    AdapterWriteOutcome(e, PointerKey, text);
    FaultsLater(d, e.cells, 3, 0);
    FaultsLater(d, e.cells, 3, 1);
    var w := AdapterSet(e, PointerKey, text);
    assert WriteDone(e, 0, e.cells.pointer, text) == WriteDone(d, 3, d.cells.pointer, text) by {
      DoneLater(d, e, text);
    }
    assert w.disk == Later(e, w.disk.cells, 2);
    FaultsLater(e, w.disk.cells, 2, 0);
    FaultsLater(d, e.cells, 3, 2);
  }

  lemma DoneLater(d: Disk, e: Disk, text: Text)
    requires e == Later(d, e.cells, 3) && e.cells.pointer == d.cells.pointer
    ensures WriteDone(e, 0, e.cells.pointer, text) == WriteDone(d, 3, d.cells.pointer, text)
  {
    FaultsLater(d, e.cells, 3, 0);
    FaultsLater(d, e.cells, 3, 1);
  }

  lemma SplitOutcome(d: Disk, b: BridgeState, tape: seq<byte>, lockAt: nat)
    requires BridgeInv(b) && EnsureMutable(b).Ok?
    requires EncryptForSlot(b.vault.value, b.vault.value.slot.Other(), tape).Ok?
    ensures var v := b.vault.value;
            var slot := SlotToWrite(v, tape);
            var j := AfterSaveSession(d, b, tape, lockAt);
            var stop := StopOfSplit(d, slot, lockAt);
            && slot.slot == v.slot.Other() && v.container.generation < U64_MAX
            && j.disk.cells == CellsAt(d, slot, stop)
            && (j.result.Ok? <==> stop.Never?)
            && (stop.Never? ==> j.bridge == b.(vault := Some(Advanced(v))))
            && (!stop.Never? ==> j.bridge == b || j.bridge == LOCKED)
  {
    hide EncryptForSlot, CheckNextSlot, Sound, MetaOf, ValidSlot, DecryptContainer, SlotStage, PointerStage, StopOfSplit,
         CellsAt, Prepared;
    var v := b.vault.value;
    EncryptedSlotVerifies(v, tape);
    var slot := SlotToWrite(v, tape);
    SlotStageOutcome(d, b, slot, lockAt);
    var first := SlotStage(d, WithPending(b, slot), BundleFor(slot), lockAt);
    if first.result.Ok? {
      PointerStageOutcome(d, first.disk, b, slot, lockAt);
    }
  }

  lemma MonolithicFaultsStopAlike(d: Disk, slot: Slot, lockAt: nat)
    ensures var e := Disk(d.cells, MonolithicFaults(d, slot, lockAt));
            && CellsAt(e, slot, StopOfMonolithic(e, slot)) == CellsAt(d, slot, StopOfSplit(d, slot, lockAt))
            && (StopOfMonolithic(e, slot).Never? <==> StopOfSplit(d, slot, lockAt).Never?)
    ensures forall f :: f in MonolithicFaults(d, slot, lockAt) && f.Tears? ==> f in d.faults
  {
  }

  lemma SplitFaultsStopAlike(d: Disk, slot: Slot)
    ensures var e := Disk(d.cells, SplitFaults(d, slot));
            if SlotLength(slot) > MAX_SLOT_JSON_BYTES then
              CellsAt(e, slot, StopOfSplit(e, slot, 0)) == d.cells && !StopOfSplit(e, slot, 0).Never?
            else
              && CellsAt(e, slot, StopOfSplit(e, slot, 0)) == CellsAt(d, slot, StopOfMonolithic(d, slot))
              && (StopOfSplit(e, slot, 0).Never? <==> StopOfMonolithic(d, slot).Never?)
    ensures forall f :: f in SplitFaults(d, slot) && f.Tears? ==> f in d.faults
  {
    hide SlotLength;
  }

  /**
   Whatever faults and lock meet a split save of a slot within the limit, the repository's save under
   corresponding faults ends with the same storage and the same verdict, and on success with the same
   session. No fault is worse than those met. Beyond the limit the repository's save changes nothing.
   */
  lemma SplitRefinesMonolithic(d: Disk, b: BridgeState, tape: seq<byte>, lockAt: nat)
    requires BridgeInv(b) && EnsureMutable(b).Ok?
    requires EncryptForSlot(b.vault.value, b.vault.value.slot.Other(), tape).Ok?
    ensures var v := b.vault.value;
            var j := AfterSaveSession(d, b, tape, lockAt);
            var faults := MonolithicFaults(d, SlotToWrite(v, tape), lockAt);
            var e := Disk(d.cells, faults);
            var s := AfterSave(e, v, tape);
            if SlotLength(SlotToWrite(v, tape)) > MAX_SLOT_JSON_BYTES then s == SaveStep(Err(VaultTooLarge), e, v)
            else
              && (forall f :: f in faults && f.Tears? ==> f in d.faults)
              && s.disk.cells == j.disk.cells
              && (s.result.Ok? <==> j.result.Ok?)
              && (j.result.Ok? ==> j.bridge == b.(vault := Some(s.session)))
              && (j.result.Err? ==> s.session == v && (j.bridge == b || j.bridge == LOCKED))
  {
    hide AfterSaveSession, AfterSave, EncryptForSlot, SlotLength, StopOfSplit, StopOfMonolithic, CellsAt, MonolithicFaults,
         MetaOf, Sound;
    var v := b.vault.value;
    var slot := SlotToWrite(v, tape);
    SplitOutcome(d, b, tape, lockAt);
    MonolithicFaultsStopAlike(d, slot, lockAt);
    MonolithicOutcome(Disk(d.cells, MonolithicFaults(d, slot, lockAt)), v, tape);
  }

  /** A split save that no fault or lock meets succeeds whenever its contents can be encrypted. */
  lemma QuietSplitSaveSucceeds(d: Disk, b: BridgeState, tape: seq<byte>)
    requires BridgeInv(b) && EnsureMutable(b).Ok? && d.faults == []
    requires EncryptForSlot(b.vault.value, b.vault.value.slot.Other(), tape).Ok?
    ensures var v := b.vault.value;
            var slot := SlotToWrite(v, tape);
            var j := AfterSaveSession(d, b, tape, 0);
            && v.container.generation < U64_MAX && slot.slot == v.slot.Other()
            && j.result.Ok? && j.bridge == b.(vault := Some(Advanced(v)))
            && j.disk.cells
               == d.cells.With(SlotKey(slot.slot), Some(SlotText(slot))).(pointer := Some(PointerToWrite(slot)))
  {
    hide AfterSaveSession, EncryptForSlot, MetaOf, Sound;
    SplitOutcome(d, b, tape, 0);
  }

  /** Some faults bring the repository's save where a split save without faults ends exactly if the slot fits. */
  lemma SplitRefinesExactlyWhenItFits(d: Disk, b: BridgeState, tape: seq<byte>)
    requires BridgeInv(b) && EnsureMutable(b).Ok? && d.faults == []
    requires EncryptForSlot(b.vault.value, b.vault.value.slot.Other(), tape).Ok?
    ensures var j := AfterSaveSession(d, b, tape, 0);
            (exists faults :: SavesAs(AfterSave(Disk(d.cells, faults), b.vault.value, tape), j))
            <==> SlotLength(SlotToWrite(b.vault.value, tape)) <= MAX_SLOT_JSON_BYTES
  {
    hide AfterSaveSession, AfterSave, EncryptForSlot, MetaOf, Sound, SlotLength, MonolithicFaults, CellsAt;
    var v := b.vault.value;
    var j := AfterSaveSession(d, b, tape, 0);
    QuietSplitSaveSucceeds(d, b, tape);
    SplitRefinesMonolithic(d, b, tape, 0);
    var matching := MonolithicFaults(d, SlotToWrite(v, tape), 0);
    if SlotLength(SlotToWrite(v, tape)) <= MAX_SLOT_JSON_BYTES {
      assert SavesAs(AfterSave(Disk(d.cells, matching), v, tape), j);
    } else {
      forall faults ensures !SavesAs(AfterSave(Disk(d.cells, faults), v, tape), j) {
        MonolithicOutcome(Disk(d.cells, faults), v, tape);
      }
    }
  }

  /** The same storage and the same verdict. */
  predicate SavesAs(s: SaveStep, j: JsStep<()>) {
    s.disk.cells == j.disk.cells && (s.result.Ok? <==> j.result.Ok?)
  }

  /** And every outcome of the repository's save, its refusal for size included, is an outcome of the split save. */
  lemma MonolithicRefinesSplit(d: Disk, b: BridgeState, tape: seq<byte>)
    requires BridgeInv(b) && EnsureMutable(b).Ok?
    requires EncryptForSlot(b.vault.value, b.vault.value.slot.Other(), tape).Ok?
    ensures var v := b.vault.value;
            var s := AfterSave(d, v, tape);
            var faults := SplitFaults(d, SlotToWrite(v, tape));
            var j := AfterSaveSession(Disk(d.cells, faults), b, tape, 0);
            && (forall f :: f in faults && f.Tears? ==> f in d.faults)
            && s.disk.cells == j.disk.cells
            && (s.result.Ok? <==> j.result.Ok?)
            && (j.bridge == b.(vault := Some(s.session)) || (j.result.Err? && j.bridge == LOCKED))
  {
    hide AfterSaveSession, AfterSave, EncryptForSlot, SlotLength, StopOfSplit, StopOfMonolithic, CellsAt, SplitFaults,
         MetaOf, Sound;
    var v := b.vault.value;
    var slot := SlotToWrite(v, tape);
    SplitFaultsStopAlike(d, slot);
    SplitOutcome(Disk(d.cells, SplitFaults(d, slot)), b, tape, 0);
    MonolithicOutcome(d, v, tape);
  }

  /** What cannot be encrypted is refused alike, with nothing changed. */
  lemma RefusedAlike(d: Disk, b: BridgeState, tape: seq<byte>, lockAt: nat)
    requires EnsureMutable(b).Ok?
    requires EncryptForSlot(b.vault.value, b.vault.value.slot.Other(), tape).Err?
    ensures var e := EncryptForSlot(b.vault.value, b.vault.value.slot.Other(), tape).error;
            && AfterSave(d, b.vault.value, tape) == SaveStep(Err(e), d, b.vault.value)
            && AfterSaveSession(d, b, tape, lockAt) == JsStep(Err(BridgeFailure(VaultFailure(e))), d, b)
  {
    hide EncryptForSlot;
  }
}
