/** Slot A goes with even generations and slot B with odd ones: in sessions, in slots and in pointers. */
module Parity {
  import opened Wrappers
  import opened Bytes
  import opened Aad
  import opened Model
  import opened JsonLength
  import opened Vault
  import opened VaultProperties
  import opened Device
  import opened Repository
  import opened OpenProperties
  import opened SaveProperties
  import opened Bridge
  import opened BridgeProperties
  import opened Persistence
  import opened Refinement
  import opened Recovery
  import opened Runs
  import opened Creation
  import opened Provenance

  /** A pointer cell that names no slot, or names one at a generation of its parity. */
  predicate PairedPointer(text: Option<Text>) {
    match UsablePointer(text)
    case None => true
    case Some(p) => p.slot == SideOf(p.generation)
  }

  predicate PairedSlot(text: Option<Text>, side: SlotId, id: Identity) {
    match Held(text, side, id)
    case None => true
    case Some(c) => side == SideOf(c.generation)
  }

  /** Sessions, slots and pointer all pair A with even and B with odd generations. */
  predicate Paired(w: World, id: Identity) {
    && PairedPointer(w.cells.pointer)
    && PairedSlot(w.cells.a, A, id) && PairedSlot(w.cells.b, B, id)
    && (w.live.Some? ==> w.live.value.vault.slot == SideOf(w.live.value.vault.container.generation))
  }

  /** Torn writes leave no pointer of the wrong parity. */
  predicate PairedResidue(faults: seq<Fault>) {
    forall i :: 0 <= i < |faults| && faults[i].Tears? ==> PairedPointer(faults[i].residue)
  }

  /** Neither torn writes nor tampering leave a pointer of the wrong parity. */
  predicate LeavesPaired(h: Happening) {
    match h
    case Usual(e) => PairedResidue(FaultsOf(e))
    case Tampered(cells) => PairedPointer(cells.pointer)
  }

  lemma SourcedIsPaired(w: World, made: set<Made>, id: Identity)
    requires Sourced(w, made, id) && KeyKept(w, id) && PairedPointer(w.cells.pointer)
    ensures Paired(w, id)
  {
    hide Held, UsablePointer, AllWellMade, GenuineCells, MetaOf, Sound, SafeMeta;
    HeldAlternate(w.cells, made, id);
  }

  /** A pointer write leaves what was there, the pointer written, or a residue. */
  lemma LandedPointerIsPaired(fault: Fault, before: Option<Text>, side: SlotId, generation: u64)
    requires PairedPointer(before) && side == SideOf(generation)
    requires fault.Tears? ==> PairedPointer(fault.residue)
    ensures PairedPointer(Landed(fault, before, Some(PointerText(side, generation))))
  {
    hide UsablePointer;
    PointerTextIsUsable(side, generation);
  }

  lemma FaultIsListed(d: Disk, n: nat)
    ensures FaultAt(d, n).Tears? ==> n < |d.faults| && d.faults[n] == FaultAt(d, n)
  {
  }

  lemma SavedPointerIsPaired(d: Disk, slot: Slot, stop: Stop)
    requires PairedPointer(d.cells.pointer) && slot.slot == SideOf(slot.generation)
    requires FaultAt(d, 3).Tears? ==> PairedPointer(FaultAt(d, 3).residue)
    ensures PairedPointer(CellsAt(d, slot, stop).pointer)
  {
    hide UsablePointer;
    PointerTextIsUsable(slot.slot, slot.generation);
    LandedPointerIsPaired(FaultAt(d, 3), d.cells.pointer, slot.slot, slot.generation);
  }

  lemma SaveKeepsPointer(w: World, id: Identity, e: Event)
    requires w.live.Some? && LiveSourced(w.live.value, id) && w.live.value.vault.dek == id.dek
    requires e.RepositorySaved? || e.SplitSaved?
    requires PairedPointer(w.cells.pointer) && PairedResidue(FaultsOf(e))
    ensures PairedPointer(After(w, e).cells.pointer)
  {
    hide EncryptForSlot, SlotLength, AfterSave, AfterSaveSession, Sound, MetaOf, PairedPointer, CellsAt, BridgeInv,
         EnsureMutable, StopOfSplit, StopOfMonolithic;
    var live := w.live.value;
    var v := live.vault;
    var d := Disk(w.cells, FaultsOf(e));
    FaultIsListed(d, 3);
    SourcedIsBridge(live, id);
    EncryptsUnless(v, e.tape);
    if EncryptForSlot(v, v.slot.Other(), e.tape).Ok? {
      var slot := SlotToWrite(v, e.tape);
      match e
      case RepositorySaved(tape, faults) =>
        SaveOnDevice(d, v, tape);
        if SlotLength(slot) <= MAX_SLOT_JSON_BYTES {
          MonolithicOutcome(d, v, tape);
          SavedPointerIsPaired(d, slot, StopOfMonolithic(d, slot));
        }
      case SplitSaved(tape, faults, lockAt) =>
        SplitOutcome(d, BridgeOf(live), tape, lockAt);
        SavedPointerIsPaired(d, slot, StopOfSplit(d, slot, lockAt));
      case _ =>
    } else {
      match e
      case RepositorySaved(tape, faults) => SaveOnDevice(d, v, tape);
      case SplitSaved(tape, faults, lockAt) => RefusedAlike(d, BridgeOf(live), tape, lockAt);
      case _ =>
    }
  }

  lemma FaultAfterFour(d: Disk)
    ensures var e := Get(Get(Get(Get(d, MetaKey).disk, PointerKey).disk, SlotKey(A)).disk, SlotKey(B)).disk;
            e.cells == d.cells && e.Next() == FaultAt(d, 4)
    ensures LoadSnapshot(d).disk.cells == d.cells && LoadSnapshot(d).disk.Next() == FaultAt(d, 4)
  {
  }

  /** An opening's pointer cell is the one it found, or what a write of the selected pointer left. */
  lemma OpenedPointer(d: Disk, phrase: Phrase)
    ensures var after := AfterOpen(d, phrase).disk.cells.pointer;
            || after == d.cells.pointer
            || (&& Select(Seen(d), phrase).Ok?
                && var v := Select(Seen(d), phrase).value;
                   after == Landed(FaultAt(d, 4), d.cells.pointer, Some(PointerText(v.slot, v.container.generation))))
  {
    hide WriteVerified, UsableMeta, UsablePointer, UsableSlot, Choose, DocumentLength, FaultAt;
    FaultAfterFour(d);
    ReadsAre(d);
    NoPointerIsUnusable();
  }

  lemma ReadsAre(d: Disk)
    ensures var p := Get(Get(d, MetaKey).disk, PointerKey);
            var a := Get(p.disk, SlotKey(A));
            var b := Get(a.disk, SlotKey(B));
            && Readable(p.result) == Seen(d).pointer && Readable(a.result) == Seen(d).a && Readable(b.result) == Seen(d).b
  {
  }

  lemma SessionOpenedPointer(d: Disk, phrase: Phrase)
    ensures var after := AfterOpenSession(d, phrase).disk.cells.pointer;
            || after == d.cells.pointer
            || (&& Select(d.cells, phrase).Ok?
                && var v := Select(d.cells, phrase).value;
                   after == Landed(FaultAt(d, 4), d.cells.pointer, Some(PointerText(v.slot, v.container.generation))))
  {
    hide AfterOpen, Select, LoadSnapshot, AdapterSet, UsablePointer, FaultAt;
    FaultAfterFour(d);
    SnapshotIsCells(d);
    OpenOnDevice(Disk(d.cells, []), phrase);
    if Select(d.cells, phrase).Ok? {
      RepairIsPointer(d.cells, phrase);
    }
  }

  lemma OpenKeepsPointer(w: World, made: set<Made>, id: Identity, e: Event)
    requires Sourced(w, made, id) && SafeMeta(w.cells.meta, id) && (e.RepositoryOpened? || e.SplitOpened?)
    requires PairedPointer(w.cells.pointer) && PairedResidue(FaultsOf(e))
    ensures PairedPointer(After(w, e).cells.pointer)
  {
    hide AfterOpen, AfterOpenSession, PairedPointer, Select, UsableMeta, PhraseOf, AllWellMade, GenuineCells, MetaOf, Sound,
         WasMade;
    var d := Disk(w.cells, FaultsOf(e));
    FaultIsListed(d, 4);
    var seen := if e.RepositoryOpened? then Seen(d) else w.cells;
    SeenIsGenuine(d, made, id);
    if Select(seen, e.phrase).Ok? {
      SelectedIsSourced(seen, e.phrase, made, id);
      SelectedHasKey(seen, e.phrase, id);
      var v := Select(seen, e.phrase).value;
      LandedPointerIsPaired(FaultAt(d, 4), w.cells.pointer, v.slot, v.container.generation);
    }
    match e
    case RepositoryOpened(phrase, faults) => OpenedPointer(d, phrase);
    case SplitOpened(phrase, faults) => SessionOpenedPointer(d, phrase);
    case _ =>
  }

  lemma HappeningKeepsPointer(w: World, made: set<Made>, id: Identity, h: Happening)
    requires Sourced(w, made, id) && KeyKept(w, id)
    requires PairedPointer(w.cells.pointer) && LeavesPaired(h)
    ensures PairedPointer(AfterHappening(w, h).cells.pointer)
  {
    hide AllWellMade, GenuineCells, LiveSourced, AfterSave, AfterSaveSession, AfterOpen, AfterOpenSession, AfterChangePhrase,
         PairedPointer, PairedResidue, SafeMeta;
    match h
    case Tampered(_) =>
    case Usual(e) =>
      match e
      case RepositorySaved(_, _) =>
        if w.live.Some? {
          SaveKeepsPointer(w, id, e);
        }
      case SplitSaved(_, _, _) =>
        if w.live.Some? {
          SaveKeepsPointer(w, id, e);
        }
      case RepositoryOpened(_, _) => OpenKeepsPointer(w, made, id, e);
      case SplitOpened(_, _) => OpenKeepsPointer(w, made, id, e);
      case PhraseChanged(current, replacement, tape, faults, lockAt) =>
        if w.live.Some? {
          ChangeSparesPointer(Disk(w.cells, faults), BridgeOf(w.live.value), current, replacement, tape, lockAt);
        }
      case Edited(_) =>
      case Crashed =>
  }

  lemma ChangeSparesPointer(d: Disk, b: BridgeState, current: Phrase, replacement: Phrase, tape: seq<byte>, lockAt: nat)
    ensures AfterChangePhrase(d, b, current, replacement, tape, lockAt).disk.cells.pointer == d.cells.pointer
  {
    hide AfterPrepareChange, AfterCommitChange;
  }

  ghost predicate PairedRun(hs: seq<Happening>) {
    forall h :: h in hs ==> LeavesPaired(h)
  }

  /**
   After any run, with slots misread, oversize slots saved, phrases changed over torn metadata, and cells
   replaced or replayed: every session, every slot and the pointer pair A with even and B with odd.
   */
  lemma {:induction false} RunKeepsPairs(w: World, made: set<Made>, id: Identity, hs: seq<Happening>)
    requires Sourced(w, made, id) && KeyKept(w, id) && UnforgedRun(w, made, id, hs) && SafeRun(hs, id)
    requires PairedPointer(w.cells.pointer) && PairedRun(hs)
    ensures Paired(AfterHappenings(w, hs), id)
    decreases hs
  {
    hide Sourced, AfterHappening, MadeAfter, Unforged, KeyKept, SafeHappening, LeavesPaired, PairedPointer, Paired;
    if hs == [] {
      SourcedIsPaired(w, made, id);
    } else {
      assert hs[0] in hs;
      HappeningKeepsSource(w, made, id, hs[0]);
      HappeningKeepsKey(w, made, id, hs[0]);
      HappeningKeepsPointer(w, made, id, hs[0]);
      RunKeepsPairs(AfterHappening(w, hs[0]), MadeAfter(w, made, id, hs[0]), id, hs[1..]);
    }
  }

  // ---- From creation ----

  /** The pointer write of a creation meets the fifth operation's fault, if the creation gets there. */
  lemma CreatedPointer(d: Disk, c: Created)
    requires c.initialSlot.slot == A
    ensures AfterInitialize(d, c).disk.cells.pointer
         in {d.cells.pointer, Landed(FaultAt(d, 5), d.cells.pointer, Some(Json(PointerDoc(c.activeSlot))))}
    ensures PersistCreated(Get(d, MetaKey).disk, c).disk.cells.pointer
         in {d.cells.pointer, Landed(FaultAt(d, 5), d.cells.pointer, Some(Json(PointerDoc(c.activeSlot))))}
  {
    hide WriteVerified, AdapterSet, DocumentLength, CheckCreated, FaultAt, Landed, Later;
    var g := Get(d, MetaKey).disk;
    ReadLater(d);
    var s := WriteVerified(g, SlotKey(A), SlotDoc(c.initialSlot), MAX_SLOT_JSON_BYTES);
    WriteLater(d, g, 1, SlotKey(A), SlotDoc(c.initialSlot), MAX_SLOT_JSON_BYTES);
    WriteLater(d, s.disk, 3, MetaKey, MetaDoc(c.meta), MAX_METADATA_JSON_BYTES);
    var m := WriteVerified(s.disk, MetaKey, MetaDoc(c.meta), MAX_METADATA_JSON_BYTES);
    NextLater(d, m.disk, 5);
    var a := AdapterSet(g, SlotKey(A), Json(SlotDoc(c.initialSlot)));
    SetLater(d, g, 1, SlotKey(A), Json(SlotDoc(c.initialSlot)));
    SetLater(d, a.disk, 3, MetaKey, Json(MetaDoc(c.meta)));
    NextLater(d, AdapterSet(a.disk, MetaKey, Json(MetaDoc(c.meta))).disk, 5);
  }

  lemma ReadLater(d: Disk)
    ensures Get(d, MetaKey).disk == Later(d, d.cells, 1)
  {
  }

  lemma NextLater(d: Disk, e: Disk, n: nat)
    ensures e == Later(d, e.cells, n) ==> e.Next() == FaultAt(d, n)
  {
  }

  lemma WriteLater(d: Disk, e: Disk, n: nat, key: StorageKey, doc: Document, maximum: nat)
    ensures var w := WriteVerified(e, key, doc, maximum);
            e == Later(d, e.cells, n) && w.result.Ok? ==> w.disk == Later(d, w.disk.cells, n + 2)
  {
    hide DocumentLength;
  }

  lemma SetLater(d: Disk, e: Disk, n: nat, key: StorageKey, text: Text)
    ensures var w := AdapterSet(e, key, text);
            e == Later(d, e.cells, n) ==> w.disk == Later(d, w.disk.cells, n + 2)
  {
  }

  lemma CreatedPointerIsPaired(d: Disk, c: Created, after: Option<Text>)
    requires PairedPointer(d.cells.pointer) || after == Some(Json(PointerDoc(c.activeSlot)))
    requires PairedResidue(d.faults) && c.activeSlot == Pointer(FORMAT_VERSION, A, 0)
    requires after in {d.cells.pointer, Landed(FaultAt(d, 5), d.cells.pointer, Some(Json(PointerDoc(c.activeSlot))))}
    ensures PairedPointer(after)
  {
    hide PairedPointer;
    FaultIsListed(d, 5);
    LandedPointerIsPaired(Works, None, A, 0) by { NoPointerIsPaired(); }
    if PairedPointer(d.cells.pointer) {
      LandedPointerIsPaired(FaultAt(d, 5), d.cells.pointer, A, 0);
    }
  }

  lemma NoPointerIsPaired()
    ensures PairedPointer(None)
  {
  }

  /**
   From a creation by the repository, over residue of other keys, stopped anywhere, and after any run: A
   goes with even and B with odd generations. A pointer from an earlier vault has to be paired only if the
   creation failed before it was replaced.
   */
  lemma CreationThenPairs(
    d: Disk, phrase: Phrase, config: KdfConfig, now: u64, tape: seq<byte>, hs: seq<Happening>)
    requires CreateVault(phrase, config, now, tape).Ok? && d.cells.meta == None
    requires PairedResidue(d.faults) && PairedRun(hs)
    requires var c := CreateVault(phrase, config, now, tape).value;
             var id := IdentityOf(c.session);
             && NothingSealed(d.cells, id.dek)
             && UnforgedResidue(d.faults, {CreatedMade(c)}, id) && SafeResidue(d.faults, id)
             && UnforgedRun(StartOfInitialize(d, c), {CreatedMade(c)}, id, hs) && SafeRun(hs, id)
             && (AfterInitialize(d, c).result.Ok? || PairedPointer(d.cells.pointer))
    ensures var c := CreateVault(phrase, config, now, tape).value;
            Paired(AfterHappenings(StartOfInitialize(d, c), hs), IdentityOf(c.session))
  {
    hide CreateVault, AfterInitialize, FaultAt, AfterHappenings, PairedPointer, PairedResidue, PairedRun, Paired,
         CheckCreated, UsableMeta, Held, DocumentLength, NothingSealed, UnforgedResidue, UnforgedRun, SafeRun, SafeResidue,
         Sourced, KeyKept, Foreign, Inv;
    var c := CreateVault(phrase, config, now, tape).value;
    var w := StartOfInitialize(d, c);
    CreatedShape(phrase, config, now, tape);
    NothingSealedIsForeign(d.cells, c.session.dek);
    InitializeIsRecoverable(d, phrase, config, now, tape);
    InitializeIsSourced(d, phrase, config, now, tape);
    CreatedPointer(d, c);
    CreatedPointerIsPaired(d, c, w.cells.pointer);
    RunKeepsPairs(w, {CreatedMade(c)}, IdentityOf(c.session), hs);
  }

  lemma NothingSealedIsForeign(cells: Cells, dek: Dek)
    requires NothingSealed(cells, dek)
    ensures Foreign(cells.b, dek)
  {
  }

  /** The same from a creation from JavaScript. */
  lemma CreateSessionThenPairs(d: Disk, phrase: Phrase, now: u64, tape: seq<byte>, hs: seq<Happening>)
    requires CreateVault(phrase, DEFAULT_KDF_CONFIG, now, tape).Ok? && d.cells.meta == None
    requires PairedResidue(d.faults) && PairedRun(hs)
    requires var c := CreateVault(phrase, DEFAULT_KDF_CONFIG, now, tape).value;
             var id := IdentityOf(c.session);
             && NothingSealed(d.cells, id.dek)
             && UnforgedResidue(d.faults, {CreatedMade(c)}, id) && SafeResidue(d.faults, id)
             && UnforgedRun(StartOfCreateSession(d, phrase, now, tape), {CreatedMade(c)}, id, hs) && SafeRun(hs, id)
             && (AfterCreateSession(d, phrase, Some(now), tape).result.Ok? || PairedPointer(d.cells.pointer))
    ensures var c := CreateVault(phrase, DEFAULT_KDF_CONFIG, now, tape).value;
            Paired(AfterHappenings(StartOfCreateSession(d, phrase, now, tape), hs), IdentityOf(c.session))
  {
    hide CreateVault, PersistCreated, FaultAt, AfterHappenings, PairedPointer, PairedResidue, PairedRun, Paired,
         CheckCreated, UsableMeta, Held, DocumentLength, NothingSealed, UnforgedResidue, UnforgedRun, SafeRun, SafeResidue,
         Sourced, KeyKept, AfterInitialize;
    var c := CreateVault(phrase, DEFAULT_KDF_CONFIG, now, tape).value;
    var w := StartOfCreateSession(d, phrase, now, tape);
    CreatedShape(phrase, DEFAULT_KDF_CONFIG, now, tape);
    PersistCreatedSteps(Get(d, MetaKey).disk, c);
    CreateSessionIsSourced(d, phrase, now, tape);
    CreatedPointer(d, c);
    CreatedPointerIsPaired(d, c, w.cells.pointer);
    RunKeepsPairs(w, {CreatedMade(c)}, IdentityOf(c.session), hs);
  }
}
