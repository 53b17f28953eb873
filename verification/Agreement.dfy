/**
 Session and storage agree: whatever faults occur, an unlocked session the controller holds between
 operations is exactly what opening the storage would yield. Whole runs of the controller keep this,
 and its deadline follows the deadline machine.
 */
module Agreement {
  import opened Wrappers
  import opened Bytes
  import opened Aad
  import opened Model
  import opened JsonLength
  import opened Vault
  import opened VaultProperties
  import opened Device
  import opened Repository
  import opened OpenProperties
  import opened SaveProperties
  import opened Bridge
  import opened BridgeProperties
  import opened Persistence
  import opened Refinement
  import opened Recovery
  import opened Runs
  import opened Creation
  import opened Rotation
  import opened Oversize
  import opened EntryEdits
  import opened Deadline
  import opened Controller
  import opened Listing

  /** The session's contents, generation, slot and metadata are what the cells open to, pointer included. */
  predicate Agrees(cells: Cells, b: BridgeState) {
    && b.vault.Some? && b.meta.Some? && b == Unlocked(b.vault.value, b.meta.value)
    && PhraseOf(b.meta.value).Some?
    && UsableMeta(cells.meta) == Ok(b.meta.value)
    && Select(cells, PhraseOf(b.meta.value).value) == Ok(b.vault.value)
    && UsablePointer(cells.pointer) == Some(PointerTo(b.vault.value))
  }

  /**
   A session that an acknowledged oversize save has put ahead of storage: its metadata is the stored one,
   but the slot it stands in is of no use to an opening.
   */
  predicate Ahead(cells: Cells, b: BridgeState) {
    && b.vault.Some? && b.meta.Some? && b == Unlocked(b.vault.value, b.meta.value)
    && Sound(b.vault.value.container)
    && UsableMeta(cells.meta) == Ok(b.meta.value) && MetaOf(b.meta.value, IdentityOf(b.vault.value))
    && Held(cells.At(SlotKey(b.vault.value.slot)), b.vault.value.slot, IdentityOf(b.vault.value)) == None
  }

  /** How a held session stands to storage, by whether the last save it acknowledged, if any, fits. */
  predicate Stands(cells: Cells, b: BridgeState, fits: bool) {
    if fits then Agrees(cells, b) else Ahead(cells, b)
  }

  lemma StandingIsValid(cells: Cells, b: BridgeState, fits: bool)
    requires Stands(cells, b, fits)
    ensures BridgeInv(b) && EnsureMutable(b).Ok?
    ensures b.vault.Some? && b.meta.Some? && PhraseOf(b.meta.value).Some? && b == Unlocked(b.vault.value, b.meta.value)
    ensures UsableMeta(cells.meta) == Ok(b.meta.value) && cells.meta.Some?
    ensures MetaOf(b.meta.value, IdentityOf(b.vault.value)) && Sound(b.vault.value.container)
  {
    hide Select, UsablePointer, UsableMeta, PhraseOf, Held, Unwraps, Sound, PendingFits;
    MetaIsThere(cells);
    if fits {
      AgreeingSessionIsValid(cells, b);
    }
  }

  lemma MetaIsThere(cells: Cells)
    ensures UsableMeta(cells.meta).Ok? ==> cells.meta.Some?
  {
  }

  /** A session ahead of storage is not what its phrase opens, and no other phrase opens anything. */
  lemma AheadIsNotOpened(cells: Cells, b: BridgeState, phrase: Phrase)
    requires Ahead(cells, b)
    ensures var j := AfterOpenSession(Disk(cells, []), phrase);
            && j.bridge != b
            && (PhraseOf(b.meta.value) != Some(phrase) ==> j.result.Err?)
  {
    hide Select, AfterOpenSession, UsableMeta, UsablePointer, PhraseOf, MetaOf, Held, Unwraps, Sound, Preferred;
    OpenSessionSelects(Disk(cells, []), phrase);
    SelectByHeld(cells, phrase, b.meta.value, IdentityOf(b.vault.value));
    if Select(cells, phrase).Ok? {
      SelectedSession(cells, phrase);
    }
  }

  /** Opening a store in agreement yields the held session for its phrase, for no other, and writes nothing. */
  lemma AgreementMeansOpening(cells: Cells, b: BridgeState, phrase: Phrase)
    requires Agrees(cells, b)
    ensures var j := AfterOpenSession(Disk(cells, []), phrase);
            if PhraseOf(b.meta.value) == Some(phrase) then j == JsStep(Ok(()), Disk(cells, []), b)
            else j.result.Err? && j.disk.cells.(pointer := cells.pointer) == cells
  {
    hide Select, AfterOpenSession, UsableMeta, UsablePointer, PhraseOf, MetaOf, Held, Unwraps, Sound;
    var v, meta := b.vault.value, b.meta.value;
    OpenSessionSelects(Disk(cells, []), phrase);
    if PhraseOf(meta) == Some(phrase) {
      QuietOpenSession(cells, phrase, v, meta);
    } else {
      SelectedSession(cells, PhraseOf(meta).value);
      UnwrapsIsMetaOf(meta, PhraseOf(meta).value, v);
      SelectByHeld(cells, phrase, meta, IdentityOf(v));
    }
  }

  lemma QuietOpenSession(cells: Cells, phrase: Phrase, v: Session, meta: Meta)
    requires Select(cells, phrase) == Ok(v) && UsableMeta(cells.meta) == Ok(meta)
    requires UsablePointer(cells.pointer) == Some(PointerTo(v))
    ensures AfterOpenSession(Disk(cells, []), phrase) == JsStep(Ok(()), Disk(cells, []), Unlocked(v, meta))
  {
    hide AfterOpen, Select, UsableMeta, UsablePointer, AdapterSet;
    QuietOpen(cells, phrase);
    SelectReadsMeta(cells, phrase);
  }

  // ---- Each way a session comes to be held, and each change of it ----

  lemma AgreeingSessionIsValid(cells: Cells, b: BridgeState)
    requires Agrees(cells, b)
    ensures BridgeInv(b) && EnsureMutable(b).Ok?
  {
    hide Select, UsablePointer, UsableMeta, PhraseOf, Held, Unwraps, Sound, PendingFits;
    SelectedSession(cells, PhraseOf(b.meta.value).value);
  }

  lemma OpenedSessionAgrees(d: Disk, phrase: Phrase)
    requires AfterOpenSession(d, phrase).result.Ok?
    ensures Agrees(AfterOpenSession(d, phrase).disk.cells, AfterOpenSession(d, phrase).bridge)
  {
    hide Select, AfterOpenSession, UsablePointer, UsableMeta, PhraseOf, Held, Unwraps, Sound;
    var j := AfterOpenSession(d, phrase);
    OpenSessionSelects(d, phrase);
    var v := Select(d.cells, phrase).value;
    SelectedSession(d.cells, phrase);
    UnwrapsIsMetaOf(UsableMeta(d.cells.meta).value, phrase, v);
    SelectedPointerSelectsAgain(d.cells, phrase, j.disk.cells.pointer);
  }

  /** With a session in agreement, opening again changes nothing stored, whether it succeeds or not. */
  lemma OpeningKeepsAgreeingCells(d: Disk, b: BridgeState, phrase: Phrase)
    requires Agrees(d.cells, b)
    ensures AfterOpenSession(d, phrase).disk.cells == d.cells
  {
    hide AfterOpen, Select, UsablePointer, UsableMeta, PhraseOf, Held, Unwraps, Sound, LoadSnapshot, AdapterSet;
    SnapshotIsCells(d);
    OpenOnDevice(Disk(d.cells, []), phrase);
    var v, meta := b.vault.value, b.meta.value;
    SelectedSession(d.cells, PhraseOf(meta).value);
    UnwrapsIsMetaOf(meta, PhraseOf(meta).value, v);
    SelectByHeld(d.cells, phrase, meta, IdentityOf(v));
    if Select(d.cells, phrase).Ok? {
      QuietOpen(d.cells, phrase);
    }
  }

  lemma CreatedSessionAgrees(d: Disk, phrase: Phrase, now: u64, tape: seq<byte>)
    requires AfterCreateSession(d, phrase, Some(now), tape).result.Ok?
    requires var c := CreateVault(phrase, DEFAULT_KDF_CONFIG, now, tape);
             c.Ok? ==> Foreign(d.cells.b, c.value.session.dek)
    ensures Agrees(AfterCreateSession(d, phrase, Some(now), tape).disk.cells,
                   AfterCreateSession(d, phrase, Some(now), tape).bridge)
  {
    hide CreateVault, PersistCreated, Held, StoresMeta, PhraseOf, UsableMeta, UsablePointer, Sound, Select, MetaOf, Unwraps,
         CheckCreated, DocumentLength, EmptyContainer, AdapterSet, Foreign, Preferred;
    var c := CreateVault(phrase, DEFAULT_KDF_CONFIG, now, tape).value;
    var id := IdentityOf(c.session);
    CreatedDocuments(phrase, DEFAULT_KDF_CONFIG, now, tape);
    PersistCreatedSteps(Get(d, MetaKey).disk, c);
    var cells := AfterCreateSession(d, phrase, Some(now), tape).disk.cells;
    StoresMetaOf(cells.meta, c.meta, id);
    SelectByHeld(cells, phrase, c.meta, id);
    ForeignHoldsNothing(cells.b, B, id);
    PointerTextIsUsable(A, c.session.container.generation);
  }

  lemma StoresMetaOf(text: Option<Text>, meta: Meta, id: Identity)
    requires StoresMeta(text, meta, id)
    ensures MetaOf(meta, id)
  {
  }

  /** A session whose contents were edited stands where the agreeing one stands, and is as valid. */
  predicate EditOf(b: BridgeState, edited: BridgeState) {
    && b.vault.Some? && edited.vault.Some? && edited == WithContainer(b, edited.vault.value.container)
    && Sound(edited.vault.value.container) && Continues(b.vault.value.container, edited.vault.value.container)
  }

  lemma EditsAreEdits(cells: Cells, fits: bool, a: App, input: Fields, now: u64, tape: seq<byte>)
    requires HasSession(a) && Stands(cells, a.held.value, fits)
    ensures EditedSession(a, input, now, tape).Ok? ==> EditOf(a.held.value, EditedSession(a, input, now, tape).value)
    ensures AfterBridgeDelete(a.held.value, a.selected, now).result.Ok? ==>
      EditOf(a.held.value, AfterBridgeDelete(a.held.value, a.selected, now).bridge)
  {
    hide Stands, AfterAdd, AfterUpdate, AfterDelete, Sound, MetaOf, Continues, PhraseOf, UsableMeta;
    StandingIsValid(cells, a.held.value, fits);
    var c := a.held.value.vault.value.container;
    EditKeepsSound(c, Add(input, now, tape));
    if a.editing.Some? {
      EditKeepsSound(c, Update(a.editing.value, input, now));
    }
    if a.selected.Some? {
      EditKeepsSound(c, Delete(a.selected.value, now));
    }
  }

  lemma EditIsValid(cells: Cells, fits: bool, b: BridgeState, edited: BridgeState)
    requires Stands(cells, b, fits) && EditOf(b, edited)
    ensures BridgeInv(edited) && EnsureMutable(edited).Ok? && StandsAt(edited.vault.value, b.vault.value)
    ensures edited.meta == b.meta
  {
    hide Stands, Sound, Unwraps, PhraseOf, PendingFits, UsableMeta;
    StandingIsValid(cells, b, fits);
  }

  /** A save that reports success brings storage and session into agreement exactly if its slot is within the limit. */
  lemma SavedSessionAgrees(d: Disk, b: BridgeState, edited: BridgeState, tape: seq<byte>, lockAt: nat)
    requires Agrees(d.cells, b) && EditOf(b, edited)
    requires AfterSaveSession(d, edited, tape, lockAt).result.Ok?
    ensures Agrees(AfterSaveSession(d, edited, tape, lockAt).disk.cells,
                   AfterSaveSession(d, edited, tape, lockAt).bridge)
       <==> Fits(edited.vault.value, tape)
  {
    hide Select, AfterSaveSession, EncryptForSlot, SlotLength, Sound, MetaOf, BridgeInv, EnsureMutable, UsablePointer,
         UsableMeta, PhraseOf, StopOfSplit;
    EditIsValid(d.cells, true, b, edited);
    var v := edited.vault.value;
    if EncryptForSlot(v, v.slot.Other(), tape).Err? {
      RefusedAlike(d, edited, tape, lockAt);
    } else {
      SplitOutcome(d, edited, tape, lockAt);
      SplitSaveIsDurableWhenItFits(d, edited, b.vault.value, PhraseOf(b.meta.value).value, tape, lockAt);
      var slot := SlotToWrite(v, tape);
      EncryptsUnless(v, tape);
      PointerTextIsUsable(slot.slot, slot.generation);
    }
  }

  /**
   However the session stood before: an acknowledged save of a slot within the limit brings storage and
   session into agreement, and of any other slot puts the session ahead.
   */
  lemma SavedSessionStands(d: Disk, fits: bool, b: BridgeState, edited: BridgeState, tape: seq<byte>, lockAt: nat)
    requires Stands(d.cells, b, fits) && EditOf(b, edited)
    requires AfterSaveSession(d, edited, tape, lockAt).result.Ok?
    ensures Stands(AfterSaveSession(d, edited, tape, lockAt).disk.cells,
                   AfterSaveSession(d, edited, tape, lockAt).bridge, Fits(edited.vault.value, tape))
  {
    hide Select, AfterSaveSession, EncryptForSlot, SlotLength, Sound, MetaOf, BridgeInv, EnsureMutable, UsablePointer,
         UsableMeta, PhraseOf, StopOfSplit, Held, Agrees, Ahead;
    EditIsValid(d.cells, fits, b, edited);
    StandingIsValid(d.cells, b, fits);
    var v := edited.vault.value;
    if EncryptForSlot(v, v.slot.Other(), tape).Err? {
      RefusedAlike(d, edited, tape, lockAt);
    } else {
      SplitOutcome(d, edited, tape, lockAt);
      var after := AfterSaveSession(d, edited, tape, lockAt).disk.cells;
      if !Fits(v, tape) {
        OversizePutsAhead(d.cells, after, edited, tape);
      } else if fits {
        SavedSessionAgrees(d, b, edited, tape, lockAt);
      } else {
        AheadIsHeldNot(d.cells, b);
        FitBringsAgreement(d.cells, after, edited, tape);
      }
    }
  }

  lemma AheadIsHeldNot(cells: Cells, b: BridgeState)
    requires Ahead(cells, b)
    ensures b.vault.Some?
            && Held(cells.At(SlotKey(b.vault.value.slot)), b.vault.value.slot, IdentityOf(b.vault.value)) == None
  {
    hide Held, UsableMeta, MetaOf, Sound;
  }

  /** The session a save of these contents leaves, with the slot it wrote beside the cells there were. */
  predicate SavedBeside(cells: Cells, after: Cells, b: BridgeState, tape: seq<byte>) {
    && b.vault.Some? && b.meta.Some? && b == Unlocked(b.vault.value, b.meta.value)
    && Sound(b.vault.value.container)
    && UsableMeta(cells.meta) == Ok(b.meta.value) && MetaOf(b.meta.value, IdentityOf(b.vault.value))
    && EncryptForSlot(b.vault.value, b.vault.value.slot.Other(), tape).Ok?
    && after.meta == cells.meta
    && after.At(SlotKey(b.vault.value.slot)) == cells.At(SlotKey(b.vault.value.slot))
    && after.At(SlotKey(b.vault.value.slot.Other())) == Some(SlotText(SlotToWrite(b.vault.value, tape)))
    && after.pointer == Some(PointerToWrite(SlotToWrite(b.vault.value, tape)))
  }

  lemma OversizePutsAhead(cells: Cells, after: Cells, b: BridgeState, tape: seq<byte>)
    requires SavedBeside(cells, after, b, tape)
    requires SlotLength(SlotToWrite(b.vault.value, tape)) > MAX_SLOT_JSON_BYTES
    ensures b.vault.value.container.generation < U64_MAX
    ensures Ahead(after, b.(vault := Some(Advanced(b.vault.value))))
  {
    hide EncryptForSlot, SlotLength, Sound, MetaOf, UsableMeta, Held;
    var v := b.vault.value;
    EncryptsUnless(v, tape);
    NextIsSound(v.container);
    OversizeHoldsNothing(SlotToWrite(v, tape), v.slot.Other(), IdentityOf(v));
  }

  lemma FitBringsAgreement(cells: Cells, after: Cells, b: BridgeState, tape: seq<byte>)
    requires SavedBeside(cells, after, b, tape)
    requires SlotLength(SlotToWrite(b.vault.value, tape)) <= MAX_SLOT_JSON_BYTES
    requires PhraseOf(b.meta.value).Some?
    requires Held(cells.At(SlotKey(b.vault.value.slot)), b.vault.value.slot, IdentityOf(b.vault.value)) == None
    ensures b.vault.value.container.generation < U64_MAX
    ensures Agrees(after, b.(vault := Some(Advanced(b.vault.value))))
  {
    hide EncryptForSlot, SlotLength, Sound, MetaOf, UsableMeta, Held, Select, UsablePointer, PhraseOf, Preferred;
    var v := b.vault.value;
    EncryptsUnless(v, tape);
    EncryptedIsHeld(v, tape);
    SelectByHeld(after, PhraseOf(b.meta.value).value, b.meta.value, IdentityOf(v));
    PointerTextIsUsable(SlotToWrite(v, tape).slot, SlotToWrite(v, tape).generation);
  }

  /** A phrase change that is reported done has replaced the metadata; one that keeps the session has not begun. */
  lemma ChangeResult(d: Disk, b: BridgeState, current: Phrase, replacement: Phrase, tape: seq<byte>, lockAt: nat)
    requires BridgeInv(b) && EnsureMutable(b).Ok?
    ensures var j := AfterChangePhrase(d, b, current, replacement, tape, lockAt);
            var rewrapped := RewrapVaultKey(current, replacement, b.meta.value, b.vault.value, DEFAULT_KDF_CONFIG, tape);
            && (j.result.Ok? ==>
                  && rewrapped.Ok?
                  && j.disk.cells == d.cells.(meta := Some(Json(MetaDoc(rewrapped.value))))
                  && j.bridge == b.(meta := Some(rewrapped.value)))
            && (j.result.Err? && KeepsSession(j.result.error) ==> j.disk == d && j.bridge == b)
  {
    hide RewrapVaultKey, MetaOf, Sound;
  }

  lemma ChangedSessionAgrees(d: Disk, b: BridgeState, current: Phrase, replacement: Phrase, tape: seq<byte>, lockAt: nat)
    requires Agrees(d.cells, b)
    requires AfterChangePhrase(d, b, current, replacement, tape, lockAt).result.Ok?
    ensures Agrees(AfterChangePhrase(d, b, current, replacement, tape, lockAt).disk.cells,
                   AfterChangePhrase(d, b, current, replacement, tape, lockAt).bridge)
  {
    hide Select, AfterChangePhrase, RewrapVaultKey, UsablePointer, UsableMeta, PhraseOf, MetaOf, BridgeInv, EnsureMutable,
         Unwraps, Sound;
    AgreeingSessionIsValid(d.cells, b);
    ChangeResult(d, b, current, replacement, tape, lockAt);
    var v, previous := b.vault.value, b.meta.value;
    var meta := RewrapVaultKey(current, replacement, previous, v, DEFAULT_KDF_CONFIG, tape).value;
    var text := Some(Json(MetaDoc(meta)));
    RewrappedMeta(current, replacement, previous, v, tape, IdentityOf(v));
    RewrappedIsUsable(text, meta, IdentityOf(v));
    OtherMetaOpensAlike(d.cells, PhraseOf(previous).value, v, text, meta, replacement, replacement);
  }

  /** However the session stood, an acknowledged phrase change leaves it standing so. */
  lemma ChangedSessionStands(
    d: Disk, fits: bool, b: BridgeState, current: Phrase, replacement: Phrase, tape: seq<byte>, lockAt: nat)
    requires Stands(d.cells, b, fits)
    requires AfterChangePhrase(d, b, current, replacement, tape, lockAt).result.Ok?
    ensures Stands(AfterChangePhrase(d, b, current, replacement, tape, lockAt).disk.cells,
                   AfterChangePhrase(d, b, current, replacement, tape, lockAt).bridge, fits)
  {
    hide Agrees, AfterChangePhrase, RewrapVaultKey, UsableMeta, PhraseOf, MetaOf, BridgeInv, EnsureMutable, Sound, Held;
    if fits {
      ChangedSessionAgrees(d, b, current, replacement, tape, lockAt);
    } else {
      StandingIsValid(d.cells, b, fits);
      ChangeResult(d, b, current, replacement, tape, lockAt);
      var v := b.vault.value;
      var meta := RewrapVaultKey(current, replacement, b.meta.value, v, DEFAULT_KDF_CONFIG, tape).value;
      RewrappedMeta(current, replacement, b.meta.value, v, tape, IdentityOf(v));
      RewrappedIsUsable(Some(Json(MetaDoc(meta))), meta, IdentityOf(v));
    }
  }

  /** A failed opening leaves the held session standing as it did. */
  lemma FailedOpeningKeepsStanding(d: Disk, fits: bool, b: BridgeState, phrase: Phrase)
    requires Stands(d.cells, b, fits)
    ensures Stands(AfterOpenSession(d, phrase).disk.cells, b, fits)
  {
    hide Agrees, AfterOpenSession, UsableMeta, MetaOf, Sound, Held, Select, UsablePointer;
    if fits {
      OpeningKeepsAgreeingCells(d, b, phrase);
    } else {
      OpenSessionSelects(d, phrase);
    }
  }

  // ---- Runs of the controller ----

  datatype Phone = Phone(cells: Cells, app: App)

  datatype AppEvent =
    | SessionCreated(phrase: Phrase, now: Clock, tape: seq<byte>, touchAt: Clock, faults: seq<Fault>)
    | SessionOpened(phrase: Phrase, touchAt: Clock, faults: seq<Fault>)
    | EntrySaved(form: Form, now: Clock, idTape: seq<byte>, tape: seq<byte>, lockAt: nat, faults: seq<Fault>)
    | SelectedDeleted(now: Clock, tape: seq<byte>, lockAt: nat, faults: seq<Fault>)
    | PasswordChanged(
        current: Phrase, replacement: Phrase, tape: seq<byte>, lockAt: nat, touchAt: Clock, faults: seq<Fault>)
    | EntryOpened(id: Option<EntryId>)
    | EditBegun(choice: Choice)
    | Destroyed(faults: seq<Fault>)
    | ManuallyLocked
    | Ticked(tick: Tick)
    | Tampered(cells: Cells)

  function Stepped(p: Phone, e: AppEvent): AppStep {
    var a := p.app;
    match e
    case SessionCreated(phrase, now, tape, touchAt, faults) =>
      AfterCreate(Disk(p.cells, faults), a, phrase, now, tape, touchAt)
    case SessionOpened(phrase, touchAt, faults) => AfterUnlock(Disk(p.cells, faults), a, phrase, touchAt)
    case EntrySaved(form, now, idTape, tape, lockAt, faults) =>
      AfterSaveEntry(Disk(p.cells, faults), a, form, now, idTape, tape, lockAt)
    case SelectedDeleted(now, tape, lockAt, faults) =>
      AfterDeleteSelected(Disk(p.cells, faults), a, now, tape, lockAt)
    case PasswordChanged(current, replacement, tape, lockAt, touchAt, faults) =>
      AfterChangeMasterPassword(Disk(p.cells, faults), a, current, replacement, tape, lockAt, touchAt)
    case EntryOpened(id) => AfterOpenEntry(Disk(p.cells, []), a, id)
    case EditBegun(choice) => AfterBeginEdit(Disk(p.cells, []), a, choice)
    case Destroyed(faults) => AfterDestroy(Disk(p.cells, faults), a)
    case ManuallyLocked => AppStep(Ok(()), Closed(a), Disk(p.cells, []))
    case Ticked(tick) => AppStep(Ok(()), Timed(a, AfterTick(a.timer, tick)), Disk(p.cells, []))
    case Tampered(cells) => AppStep(Ok(()), a, Disk(cells, []))
  }

  function AfterEvent(p: Phone, e: AppEvent): Phone {
    Phone(Stepped(p, e).disk.cells, Stepped(p, e).app)
  }

  /** The deadline events that an application event amounts to. */
  function TicksOf(p: Phone, e: AppEvent): seq<Tick> {
    var r := Stepped(p, e).result;
    match e
    case SessionCreated(_, now, tape, touchAt, faults) =>
      if AfterCreateSession(Disk(p.cells, faults), e.phrase, Timestamp(now), tape).result.Ok? then [Activate(touchAt)]
      else []
    case SessionOpened(phrase, touchAt, faults) =>
      if AfterOpenSession(Disk(p.cells, faults), phrase).result.Ok? then [Activate(touchAt)] else []
    case PasswordChanged(_, _, _, _, touchAt, _) =>
      if r.Ok? then [Touch(touchAt)]
      else if r.error.SessionLocked? || (r.error.Failed? && KeepsSession(r.error.cause)) then []
      else [Drop]
    case EntrySaved(_, _, _, _, _, _) => if r.Ok? || r.error.SessionLocked? then [] else [Drop]
    case SelectedDeleted(_, _, _, _) =>
      if r.Ok? || r.error.SessionLocked? || r.error.EntryNotSelected? then [] else [Drop]
    case Destroyed(_) => if r.Ok? then [Drop] else []
    case ManuallyLocked => [Drop]
    case Ticked(tick) => [tick]
    case EntryOpened(_) => []
    case EditBegun(_) => []
    case Tampered(_) => []
  }

  /** The bridge state an event tries to persist, if it gets that far. */
  function ToPersist(p: Phone, e: AppEvent): Option<BridgeState> {
    if !HasSession(p.app) then None
    else match e
      case EntrySaved(form, now, idTape, _, _, _) =>
        if Timestamp(now).None? then None
        else
          (match EditedSession(p.app, Normalized(form), Timestamp(now).value, idTape)
           case Ok(b) => Some(b)
           case Err(_) => None)
      case SelectedDeleted(now, _, _, _) =>
        if Timestamp(now).None? || p.app.selected.None? then None
        else
          var r := AfterBridgeDelete(p.app.held.value, p.app.selected, Timestamp(now).value);
          if r.result.Ok? then Some(r.bridge) else None
      case _ => None
  }

  /**
   Any faults may occur. A new vault's key is not that of the residue it is created over, an activation
   comes from a creation or an opening, and storage changes behind the controller's back only while no
   unlocked session is held.
   */
  ghost predicate Expected(p: Phone, e: AppEvent) {
    match e
    case SessionCreated(phrase, now, tape, _, _) =>
      Timestamp(now).Some? ==>
        var c := CreateVault(phrase, DEFAULT_KDF_CONFIG, Timestamp(now).value, tape);
        c.Ok? ==> Foreign(p.cells.b, c.value.session.dek)
    case Ticked(tick) => !tick.Activate?
    case Tampered(_) => !HasSession(p.app)
    case _ => true
  }

  /** Whether the last save the held session acknowledged fits: yes for a session just created or opened. */
  function FitsAfter(p: Phone, e: AppEvent, before: bool): bool {
    match e
    case SessionCreated(phrase, now, tape, _, faults) =>
      before || AfterCreateSession(Disk(p.cells, faults), phrase, Timestamp(now), tape).result.Ok?
    case SessionOpened(phrase, _, faults) => before || AfterOpenSession(Disk(p.cells, faults), phrase).result.Ok?
    case EntrySaved(_, _, _, tape, _, _) => if Stepped(p, e).result.Ok? then SavedFits(p, e, tape) else before
    case SelectedDeleted(_, tape, _, _) => if Stepped(p, e).result.Ok? then SavedFits(p, e, tape) else before
    case _ => before
  }

  predicate SavedFits(p: Phone, e: AppEvent, tape: seq<byte>) {
    var b := ToPersist(p, e);
    b.Some? && b.value.vault.Some? ==> Fits(b.value.vault.value, tape)
  }

  /**
   Between operations: a held session is locked or stands to storage as its last acknowledged save fits,
   the list is its list, and without a session nothing is remembered.
   */
  predicate SessionInv(p: Phone, fits: bool) {
    && (p.app.held.Some? ==> p.app.held.value == LOCKED || Stands(p.cells, p.app.held.value, fits))
    && (HasSession(p.app) ==> p.app.entries == EntryList(p.app.held.value.vault.value.container.entries))
    && (p.app.held.None? ==> p.app.entries == [] && p.app.selected.None? && p.app.editing.None?)
    && (p.app.timer.active <==> p.app.held.Some?)
  }

  /** An event keeps the invariant, and moves the deadline as the deadline machine does. */
  predicate EventKept(p: Phone, fits: bool, e: AppEvent) {
    && SessionInv(AfterEvent(p, e), FitsAfter(p, e, fits))
    && AfterEvent(p, e).app.timer == AfterTicks(p.app.timer, TicksOf(p, e))
  }

  lemma OneTick(t: Timer, tick: Tick)
    ensures AfterTicks(t, [tick]) == AfterTick(t, tick) && AfterTicks(t, []) == t
  {
    hide AfterTick;
    assert [tick][1..] == [];
  }

  /** A deadline event drops the session with everything in it, or leaves all but the deadline. */
  lemma TimedKeeps(a: App, tick: Tick)
    requires !tick.Activate? && (a.timer.active <==> a.held.Some?)
    ensures var after := Timed(a, AfterTick(a.timer, tick));
            && after.timer == AfterTick(a.timer, tick) && (after.timer.active <==> after.held.Some?)
            && (after.held.Some? ==> after == a.(timer := after.timer))
            && (after.held.None? ==>
                  after == (if a.held.Some? then App(None, after.timer, [], None, None) else a.(timer := after.timer)))
  {
  }

  lemma DropIsIdle(t: Timer)
    ensures AfterTick(t, Drop) == Idle(t)
  {
  }

  lemma EnteredAgrees(a: App, b: BridgeState, d: Disk, now: Clock)
    requires Agrees(d.cells, b)
    requires a.timer.active <==> a.held.Some?
    ensures var s := Entered(a, b, d, now);
            && SessionInv(Phone(s.disk.cells, s.app), true)
            && s.app.timer == AfterTick(a.timer, Activate(now))
  {
    hide Agrees, Select, UsableMeta, UsablePointer, PhraseOf;
    AgreesIsUnlocked(d.cells, b);
  }

  lemma AgreesIsUnlocked(cells: Cells, b: BridgeState)
    requires Agrees(cells, b)
    ensures b.vault.Some? && cells.meta.Some?
  {
    hide Select, UsablePointer, PhraseOf;
  }

  /** What is held is open or locked, as its vault tells. */
  lemma OpenOrLocked(p: Phone, fits: bool)
    requires SessionInv(p, fits)
    ensures HasSession(p.app) ==> Stands(p.cells, p.app.held.value, fits) && p.cells.meta.Some?
    ensures p.app.held.Some? && !HasSession(p.app) ==> p.app.held.value == LOCKED
  {
    hide Stands, UsableMeta, PhraseOf, MetaOf, Sound, BridgeInv;
    if p.app.held.Some? && p.app.held.value != LOCKED {
      StandingIsValid(p.cells, p.app.held.value, fits);
    }
  }

  lemma CreatedKeeps(
    p: Phone, fits: bool, phrase: Phrase, now: Clock, tape: seq<byte>, touchAt: Clock, faults: seq<Fault>)
    requires SessionInv(p, fits)
    requires Expected(p, SessionCreated(phrase, now, tape, touchAt, faults))
    ensures var e := SessionCreated(phrase, now, tape, touchAt, faults);
            EventKept(p, fits, e)
  {
    hide Stands, AfterCreateSession, Entered, AfterTick, CreateVault, Foreign;
    var d := Disk(p.cells, faults);
    CreationNeedsTimestamp(d, phrase, Timestamp(now), tape);
    OneTick(p.app.timer, Activate(touchAt));
    if AfterCreateSession(d, phrase, Timestamp(now), tape).result.Ok? {
      CreatedSessionAgrees(d, phrase, Timestamp(now).value, tape);
      var j := AfterCreateSession(d, phrase, Timestamp(now), tape);
      EnteredAgrees(p.app, j.bridge, j.disk, touchAt);
    } else {
      OpenOrLocked(p, fits);
    }
  }

  lemma CreationNeedsTimestamp(d: Disk, phrase: Phrase, now: Option<u64>, tape: seq<byte>)
    ensures var j := AfterCreateSession(d, phrase, now, tape);
            && (j.result.Ok? ==> now.Some?)
            && (d.cells.meta.Some? ==> j.disk.cells == d.cells)
  {
    hide CreateVault, PersistCreated;
  }

  lemma UnlockedKeeps(p: Phone, fits: bool, phrase: Phrase, touchAt: Clock, faults: seq<Fault>)
    requires SessionInv(p, fits)
    ensures var e := SessionOpened(phrase, touchAt, faults);
            EventKept(p, fits, e)
  {
    hide Stands, AfterOpenSession, Entered, AfterTick;
    var d := Disk(p.cells, faults);
    OneTick(p.app.timer, Activate(touchAt));
    if AfterOpenSession(d, phrase).result.Ok? {
      OpenedSessionAgrees(d, phrase);
      var j := AfterOpenSession(d, phrase);
      EnteredAgrees(p.app, j.bridge, j.disk, touchAt);
    } else {
      OpenOrLocked(p, fits);
      if HasSession(p.app) {
        FailedOpeningKeepsStanding(d, fits, p.app.held.value, phrase);
      }
    }
  }

  lemma EditsKeep(p: Phone, fits: bool, e: AppEvent)
    requires SessionInv(p, fits) && Expected(p, e)
    requires e.EntrySaved? || e.SelectedDeleted?
    ensures EventKept(p, fits, e)
  {
    hide Stands, AfterSaveSession, EditedSession, AfterBridgeDelete, EditOf, Fits, EntryList, Normalized, AfterTick,
         AfterTicks, BridgeInv, UsableMeta, PhraseOf, MetaOf, Sound;
    OneTick(p.app.timer, Drop);
    DropIsIdle(p.app.timer);
    if HasSession(p.app) {
      var b := p.app.held.value;
      var edited := ToPersist(p, e);
      if edited.Some? {
        EditsAreEdits(p.cells, fits, p.app, if e.EntrySaved? then Normalized(e.form) else Fields("", "", None),
                      Timestamp(e.now).value,
                      if e.EntrySaved? then e.idTape else []);
        EditIsValid(p.cells, fits, b, edited.value);
        var d := Disk(p.cells, e.faults);
        if AfterSaveSession(d, edited.value, e.tape, e.lockAt).result.Ok? {
          PersistedIsAdvanced(d, edited.value, e.tape, e.lockAt);
          SavedSessionStands(d, fits, b, edited.value, e.tape, e.lockAt);
        }
      }
    }
  }

  lemma ChangedKeeps(
    p: Phone, fits: bool, current: Phrase, replacement: Phrase, tape: seq<byte>, lockAt: nat, touchAt: Clock,
    faults: seq<Fault>)
    requires SessionInv(p, fits)
    ensures var e := PasswordChanged(current, replacement, tape, lockAt, touchAt, faults);
            EventKept(p, fits, e)
  {
    hide Stands, AfterChangePhrase, BridgeInv, EnsureMutable, RewrapVaultKey, Timed, Touched, AfterTicks, EntryList,
         UsableMeta, PhraseOf, MetaOf, Sound;
    OneTick(p.app.timer, Touch(touchAt));
    OneTick(p.app.timer, Drop);
    if HasSession(p.app) {
      TimedKeeps(p.app, Touch(touchAt));
      var d, b := Disk(p.cells, faults), p.app.held.value;
      StandingIsValid(p.cells, b, fits);
      ChangeResult(d, b, current, replacement, tape, lockAt);
      if AfterChangePhrase(d, b, current, replacement, tape, lockAt).result.Ok? {
        ChangedSessionStands(d, fits, b, current, replacement, tape, lockAt);
        TimedKeeps(p.app.(held := Some(AfterChangePhrase(d, b, current, replacement, tape, lockAt).bridge)), Touch(touchAt));
      }
    }
  }

  lemma EventKeepsAgreement(p: Phone, fits: bool, e: AppEvent)
    requires SessionInv(p, fits) && Expected(p, e)
    ensures EventKept(p, fits, e)
  {
    match e
    case SessionCreated(phrase, now, tape, touchAt, faults) => CreatedKeeps(p, fits, phrase, now, tape, touchAt, faults);
    case SessionOpened(phrase, touchAt, faults) => UnlockedKeeps(p, fits, phrase, touchAt, faults);
    case EntrySaved(_, _, _, _, _, _) => EditsKeep(p, fits, e);
    case SelectedDeleted(_, _, _, _) => EditsKeep(p, fits, e);
    case PasswordChanged(current, replacement, tape, lockAt, touchAt, faults) =>
      ChangedKeeps(p, fits, current, replacement, tape, lockAt, touchAt, faults);
    case _ => QuietEventKeeps(p, fits, e);
  }

  /** Views, locks, deadline events, destruction and changes behind a locked controller. */
  lemma QuietEventKeeps(p: Phone, fits: bool, e: AppEvent)
    requires SessionInv(p, fits) && Expected(p, e)
    requires e.EntryOpened? || e.EditBegun? || e.Destroyed? || e.ManuallyLocked? || e.Ticked? || e.Tampered?
    ensures EventKept(p, fits, e)
  {
    hide Stands, RemoveAll, Lookup, EntryList, Timed, AfterTick, AfterTicks;
    OpenOrLocked(p, fits);
    OneTick(p.app.timer, if e.Ticked? then e.tick else Drop);
    DropIsIdle(p.app.timer);
    if e.Ticked? {
      TimedKeeps(p.app, e.tick);
    }
  }

  // ---- Whole runs ----

  function AfterEvents(p: Phone, events: seq<AppEvent>): Phone
    decreases events
  {
    if events == [] then p else AfterEvents(AfterEvent(p, events[0]), events[1..])
  }

  ghost predicate ExpectedRun(p: Phone, events: seq<AppEvent>)
    decreases events
  {
    events == [] || (Expected(p, events[0]) && ExpectedRun(AfterEvent(p, events[0]), events[1..]))
  }

  function TicksOfRun(p: Phone, events: seq<AppEvent>): seq<Tick>
    decreases events
  {
    if events == [] then [] else TicksOf(p, events[0]) + TicksOfRun(AfterEvent(p, events[0]), events[1..])
  }

  /** Whether the last save that the session held at the end of a run acknowledged fits. */
  function FitsOver(p: Phone, events: seq<AppEvent>, before: bool): bool
    decreases events
  {
    if events == [] then before else FitsOver(AfterEvent(p, events[0]), events[1..], FitsAfter(p, events[0], before))
  }

  lemma {:induction false} TicksCompose(t: Timer, first: seq<Tick>, rest: seq<Tick>)
    ensures AfterTicks(t, first + rest) == AfterTicks(AfterTicks(t, first), rest)
    decreases first
  {
    hide AfterTick;
    if first == [] {
      assert first + rest == rest;
    } else {
      assert (first + rest)[1..] == first[1..] + rest;
      TicksCompose(AfterTick(t, first[0]), first[1..], rest);
    }
  }

  lemma {:induction false} RunKeepsAgreement(p: Phone, fits: bool, events: seq<AppEvent>)
    requires SessionInv(p, fits) && ExpectedRun(p, events)
    ensures SessionInv(AfterEvents(p, events), FitsOver(p, events, fits))
    ensures AfterEvents(p, events).app.timer == AfterTicks(p.app.timer, TicksOfRun(p, events))
    decreases events
  {
    hide SessionInv, AfterEvent, Expected, TicksOf, FitsAfter;
    if events != [] {
      EventKeepsAgreement(p, fits, events[0]);
      RunKeepsAgreement(AfterEvent(p, events[0]), FitsAfter(p, events[0], fits), events[1..]);
      TicksCompose(p.app.timer, TicksOf(p, events[0]), TicksOfRun(AfterEvent(p, events[0]), events[1..]));
    }
  }

  function Started(cells: Cells, minutes: int): Phone {
    Phone(cells, App(None, Timer(false, None, None, minutes), [], None, None))
  }

  /**
   From a start over any storage at all, after any run: a held unlocked session is exactly what opening
   the storage yields with its phrase if and only if the last save it acknowledged, if any, was of a slot
   within the limit. No other phrase opens anything. The session's deadline is the last activity plus the
   current timeout, with the last observed time before it.
   */
  lemma SessionAgreesWithStorage(cells: Cells, minutes: int, events: seq<AppEvent>, phrase: Phrase)
    requires IsTimeout(Ms(minutes)) && ExpectedRun(Started(cells, minutes), events)
    ensures var end := AfterEvents(Started(cells, minutes), events);
            var start := Started(cells, minutes).app.timer;
            && TimerInv(end.app.timer, LastActivityOf(start, TicksOfRun(Started(cells, minutes), events), 0))
            && (HasSession(end.app) ==>
                  && end.app.timer.active
                  && (Reopens(end) <==> FitsOver(Started(cells, minutes), events, true))
                  && (PhraseHeld(end) != Some(phrase) ==> AfterOpenSession(Disk(end.cells, []), phrase).result.Err?))
  {
    hide AfterEvents, ExpectedRun, TicksOfRun, FitsOver, PhraseOf, Stands, UsableMeta, MetaOf, Sound, AfterTicks, Reopens,
         AfterOpenSession;
    RunKeepsAgreement(Started(cells, minutes), true, events);
    TicksKeepTimer(Started(cells, minutes).app.timer, TicksOfRun(Started(cells, minutes), events), 0);
    var end := AfterEvents(Started(cells, minutes), events);
    if HasSession(end.app) {
      StandingReopens(end, FitsOver(Started(cells, minutes), events, true), phrase);
    }
  }

  /** A held session is what its phrase opens exactly if it stands in agreement. */
  lemma StandingReopens(p: Phone, fits: bool, phrase: Phrase)
    requires SessionInv(p, fits) && HasSession(p.app)
    ensures Reopens(p) <==> fits
    ensures PhraseHeld(p) != Some(phrase) ==> AfterOpenSession(Disk(p.cells, []), phrase).result.Err?
  {
    hide Agrees, Ahead, AfterOpenSession, PhraseOf, UsableMeta, MetaOf, Sound, BridgeInv;
    OpenOrLocked(p, fits);
    var b := p.app.held.value;
    StandingIsValid(p.cells, b, fits);
    var own := PhraseOf(b.meta.value).value;
    if fits {
      AgreementMeansOpening(p.cells, b, own);
      AgreementMeansOpening(p.cells, b, phrase);
    } else {
      AheadIsNotOpened(p.cells, b, own);
      AheadIsNotOpened(p.cells, b, phrase);
    }
  }

  /** While a session is open the list is a list of its entries. */
  lemma ListShowsEntries(p: Phone, fits: bool)
    requires SessionInv(p, fits) && HasSession(p.app)
    ensures Lists(p.app.entries, p.app.held.value.vault.value.container.entries)
  {
    hide Stands, EntryList, Lists;
    EntryListLists(p.app.held.value.vault.value.container.entries);
  }

  // ---- What a successful edit means for the stored entries ----

  lemma PersistedIsAdvanced(d: Disk, b: BridgeState, tape: seq<byte>, lockAt: nat)
    requires BridgeInv(b) && EnsureMutable(b).Ok?
    requires AfterSaveSession(d, b, tape, lockAt).result.Ok?
    ensures b.vault.value.container.generation < U64_MAX
    ensures AfterSaveSession(d, b, tape, lockAt).bridge == b.(vault := Some(Advanced(b.vault.value)))
  {
    hide AfterSaveSession, EncryptForSlot, MetaOf, Sound, StopOfSplit;
    if EncryptForSlot(b.vault.value, b.vault.value.slot.Other(), tape).Err? {
      RefusedAlike(d, b, tape, lockAt);
    } else {
      SplitOutcome(d, b, tape, lockAt);
    }
  }

  /** An edit that is persisted leaves the edited contents one generation on, in the other slot, and a plain list. */
  lemma PersistedEdit(p: Phone, fits: bool, e: AppEvent, edited: BridgeState)
    requires SessionInv(p, fits) && Expected(p, e) && (e.EntrySaved? || e.SelectedDeleted?)
    requires ToPersist(p, e) == Some(edited) && Stepped(p, e).result.Ok?
    ensures HasSession(p.app) && BridgeInv(p.app.held.value) && EnsureMutable(p.app.held.value).Ok?
    ensures edited.vault.Some? && edited == WithContainer(p.app.held.value, edited.vault.value.container)
    ensures edited.vault.value.container.generation == p.app.held.value.vault.value.container.generation < U64_MAX
    ensures AfterEvent(p, e).app.held == Some(edited.(vault := Some(Advanced(edited.vault.value))))
    ensures AfterEvent(p, e).app.selected.None? && AfterEvent(p, e).app.editing.None?
    ensures AfterEvent(p, e).app.timer == p.app.timer
  {
    hide Stands, AfterSaveSession, EditedSession, AfterBridgeDelete, Fits, BridgeInv, Sound;
    OpenOrLocked(p, fits);
    StandingIsValid(p.cells, p.app.held.value, fits);
    EditsAreEdits(p.cells, fits, p.app, if e.EntrySaved? then Normalized(e.form) else Fields("", "", None),
                  Timestamp(e.now).value, if e.EntrySaved? then e.idTape else []);
    EditIsValid(p.cells, fits, p.app.held.value, edited);
    HasVault(edited);
    PersistedIsAdvanced(Disk(p.cells, e.faults), edited, e.tape, e.lockAt);
  }

  lemma HasVault(b: BridgeState)
    requires EnsureMutable(b).Ok?
    ensures b.vault.Some?
  {
  }

  /** The phrase that the held session's metadata is wrapped for. */
  function PhraseHeld(p: Phone): Option<Phrase>
    requires HasSession(p.app)
  {
    if p.app.held.value.meta.Some? then PhraseOf(p.app.held.value.meta.value) else None
  }

  /** Opening the storage with the session's phrase yields the held session and writes nothing. */
  predicate Reopens(p: Phone)
    requires HasSession(p.app)
  {
    && PhraseHeld(p).Some?
    && AfterOpenSession(Disk(p.cells, []), PhraseHeld(p).value) == JsStep(Ok(()), Disk(p.cells, []), p.app.held.value)
  }

  /** The code points that trimming takes for white space. */
  const WHITE_SPACE: set<int> := {
    0x09, 0x0A, 0x0B, 0x0C, 0x0D, 0x20, 0xA0, 0x1680, 0x2000, 0x2001, 0x2002, 0x2003, 0x2004, 0x2005, 0x2006, 0x2007,
    0x2008, 0x2009, 0x200A, 0x2028, 0x2029, 0x202F, 0x205F, 0x3000, 0xFEFF}

  /** What was typed: title and secret as they are, and the description unless it is white space throughout. */
  predicate TypedIn(form: Form, input: Fields) {
    && input.title == form.title && input.secret == form.secret
    && (input.description.None? <==>
          forall i :: 0 <= i < |form.description| ==> form.description[i] as int in WHITE_SPACE)
    && (input.description.Some? ==> input.description.value == form.description)
  }

  /** The entry under edit alone was touched, or without one, an entry appended. */
  ghost predicate OneEntrySet(c: Container, d: Container, editing: Option<EntryId>, input: Fields, now: u64) {
    match editing
    case Some(id) => exists at: nat :: TouchedAt(c, d, at, id, input, now)
    case None => exists id: EntryId :: Appended(c, d, id, input, now)
  }

  /**
   What a save leaves of a controller: the same session with other contents one generation on, in the other
   slot, under the same key and metadata; nothing pending; the deadline as it was; nothing selected.
   */
  predicate SavedOnce(a: App, b: App) {
    && HasSession(a) && HasSession(b)
    && var before, after := a.held.value, b.held.value;
       && after == before.(vault := after.vault)
       && after.vault.value.dek == before.vault.value.dek && after.vault.value.slot != before.vault.value.slot
       && before.vault.value.container.generation < 0xFFFF_FFFF_FFFF_FFFF
       && b.timer == a.timer && b.selected.None? && b.editing.None?
  }

  /** The contents held, numbered as the next save numbers them. */
  function ToSave(a: App): Container
    requires HasSession(a) && a.held.value.vault.value.container.generation < U64_MAX
  {
    a.held.value.vault.value.container.(generation := a.held.value.vault.value.container.generation + 1)
  }

  /** One save later, what was typed stands in the entry that was under edit, or in a new one. */
  ghost predicate EntryStored(a: App, b: App, form: Form, now: Clock) {
    && SavedOnce(a, b) && now.Ms? && 0 <= now.ms <= 0x1F_FFFF_FFFF_FFFF
    && exists input ::
         && TypedIn(form, input)
         && OneEntrySet(ToSave(a), b.held.value.vault.value.container, a.editing, input, now.ms)
  }

  /** One save later, the entry that was selected is gone. */
  ghost predicate EntryDropped(a: App, b: App, now: Clock) {
    && SavedOnce(a, b) && now.Ms? && 0 <= now.ms <= 0x1F_FFFF_FFFF_FFFF
    && a.selected.Some?
    && exists at: nat :: DroppedAt(ToSave(a), b.held.value.vault.value.container, at, a.selected.value, now.ms)
  }

  lemma NormalizedIsTyped(form: Form)
    ensures TypedIn(form, Normalized(form))
  {
    forall i | 0 <= i < |form.description|
      ensures IsSpace(form.description[i]) <==> form.description[i] as int in WHITE_SPACE
    {
    }
  }

  /**
   A save of an entry that reports success: of the contents held, exactly the entry under edit is touched,
   or one is appended, with what was typed in and the time of the clock. Opening the storage shows it if
   and only if the slot saved is within the limit.
   */
  lemma SavedEntryIsStored(p: Phone, fits: bool, e: AppEvent)
    requires SessionInv(p, fits) && Expected(p, e) && HasSession(p.app)
    requires e.EntrySaved? && Stepped(p, e).result.Ok?
    ensures EntryStored(p.app, AfterEvent(p, e).app, e.form, e.now)
    ensures Reopens(AfterEvent(p, e)) <==> SavedFits(p, e, e.tape)
  {
    hide Stands, AfterSaveSession, AfterAdd, AfterUpdate, SavedFits, Expected, AfterEvent, SessionInv, Reopens, BridgeInv,
         Normalized, TypedIn, Appended, TouchedAt;
    var edited := ToPersist(p, e).value;
    PersistedEdit(p, fits, e, edited);
    HeldReopens(p, fits, e);
    NormalizedIsTyped(e.form);
    EditIsOne(p.app.held.value.vault.value.container, p.app.editing, Normalized(e.form), e.now.ms, e.idTape,
              edited.vault.value.container);
  }

  lemma EditIsOne(
    c: Container, editing: Option<EntryId>, input: Fields, now: u64, idTape: seq<byte>, edited: Container)
    requires c.generation == edited.generation < U64_MAX
    requires if editing.None? then
               var added := AfterAdd(c, input, now, idTape);
               added.result.Ok? && edited == added.container
             else
               var updated := AfterUpdate(c, editing.value, input, now);
               updated.result.Ok? && edited == updated.container
    ensures OneEntrySet(NextContainer(c), NextContainer(edited), editing, input, now)
  {
    hide AfterAdd, AfterUpdate;
    if editing.None? {
      AddOutcome(c, input, now, idTape);
      assert Appended(NextContainer(c), NextContainer(edited), AfterAdd(c, input, now, idTape).result.value, input, now);
    } else {
      UpdateOutcome(c, editing.value, input, now);
      var at: nat :| TouchedAt(c, edited, at, editing.value, input, now);
      assert TouchedAt(NextContainer(c), NextContainer(edited), at, editing.value, input, now);
    }
  }

  /** A deletion that reports success: exactly the selected entry is gone, in storage if the slot is within the limit. */
  lemma DeletedEntryIsGone(p: Phone, fits: bool, e: AppEvent)
    requires SessionInv(p, fits) && Expected(p, e) && HasSession(p.app)
    requires e.SelectedDeleted? && Stepped(p, e).result.Ok?
    ensures EntryDropped(p.app, AfterEvent(p, e).app, e.now)
    ensures Reopens(AfterEvent(p, e)) <==> SavedFits(p, e, e.tape)
  {
    hide Stands, AfterSaveSession, AfterDelete, SavedFits, Expected, AfterEvent, SessionInv, Reopens, BridgeInv,
         DroppedAt;
    var edited := ToPersist(p, e).value;
    PersistedEdit(p, fits, e, edited);
    HeldReopens(p, fits, e);
    var c, id, now := p.app.held.value.vault.value.container, p.app.selected.value, e.now.ms;
    DeleteOutcome(c, id, now);
    var at: nat :| DroppedAt(c, edited.vault.value.container, at, id, now);
    DroppedNext(c, edited.vault.value.container, at, id, now);
    assert ToSave(p.app) == NextContainer(c);
  }

  lemma DroppedNext(c: Container, d: Container, at: nat, id: EntryId, now: u64)
    requires DroppedAt(c, d, at, id, now) && c.generation < U64_MAX
    ensures d.generation == c.generation && DroppedAt(NextContainer(c), NextContainer(d), at, id, now)
  {
  }

  lemma HeldReopens(p: Phone, fits: bool, e: AppEvent)
    requires SessionInv(p, fits) && Expected(p, e) && HasSession(AfterEvent(p, e).app)
    ensures Reopens(AfterEvent(p, e)) <==> FitsAfter(p, e, fits)
  {
    hide SessionInv, Expected, Stepped, TicksOf, AfterTicks, Reopens, FitsAfter, AfterOpenSession, AfterEvent, PhraseOf;
    EventKeepsAgreement(p, fits, e);
    StandingReopens(AfterEvent(p, e), FitsAfter(p, e, fits), NotUtf8([]));
  }
}
