/** What a person sees of the controller: which entry a view, an edit or a deletion reaches, and what failures leave. */
module ControllerProperties {
  import opened Wrappers
  import opened Bytes
  import opened Model
  import opened Validation
  import opened Vault
  import opened VaultProperties
  import opened Device
  import opened Bridge
  import opened BridgeProperties
  import opened Persistence
  import opened Repository
  import opened Recovery
  import opened Rotation
  import opened Runs
  import opened EntryEdits
  import opened Destruction
  import opened Deadline
  import opened Controller
  import opened Listing
  import opened Agreement
  import opened Randomness

  /** Nothing is held: no session, no deadline, no list, no selection. */
  predicate Forgotten(a: App, minutes: int) {
    a == App(None, Timer(false, None, None, minutes), [], None, None)
  }

  // ---- Views ----

  predicate Present(a: App, id: EntryId)
    requires HasSession(a)
  {
    var entries := a.held.value.vault.value.container.entries;
    exists i :: 0 <= i < |entries| && entries[i].id == id
  }

  /** A detail request shows the first entry under its identifier, or says that there is none. */
  lemma LookupIsFirst(b: BridgeState, id: Option<EntryId>)
    requires b.vault.Some?
    ensures var entries := b.vault.value.container.entries;
            match Lookup(b, id)
            case Ok(e) =>
              && id == Some(e.id)
              && exists i :: 0 <= i < |entries| && entries[i] == e && forall j :: 0 <= j < i ==> entries[j].id != e.id
            case Err(e) =>
              if id.None? then e == VaultFailure(InvalidContainer)
              else e == VaultFailure(EntryNotFound) && forall i :: 0 <= i < |entries| ==> entries[i].id != id.value
  {
    hide IndexOf;
  }

  /** A view of an entry selects it, and an edit view puts it under edit, exactly if it is there; else nothing moves. */
  lemma ViewsSelect(d: Disk, a: App, id: Option<EntryId>)
    ensures var viewed, edited := AfterOpenEntry(d, a, id), AfterBeginEdit(d, a, Named(id));
            && viewed.disk == d && edited.disk == d && viewed.result == edited.result
            && if !HasSession(a) then viewed.result == Err(SessionLocked) && viewed.app == edited.app == a
               else if id.None? then
                 && viewed.result == Err(Failed(BridgeFailure(VaultFailure(InvalidContainer))))
                 && viewed.app == edited.app == a
               else if !Present(a, id.value) then
                 && viewed.result == Err(Failed(BridgeFailure(VaultFailure(EntryNotFound))))
                 && viewed.app == edited.app == a
               else
                 && viewed.result == Ok(())
                 && viewed.app == App(a.held, a.timer, a.entries, id, None)
                 && edited.app == App(a.held, a.timer, a.entries, id, id)
    ensures var blank := AfterBeginEdit(d, a, NewEntry);
            && blank.disk == d
            && if HasSession(a) then blank.result == Ok(()) && blank.app == App(a.held, a.timer, a.entries, None, None)
               else blank.result == Err(SessionLocked) && blank.app == a
  {
    hide Lookup;
    if HasSession(a) {
      LookupIsFirst(a.held.value, id);
    }
  }

  // ---- Edits reach what was chosen ----

  lemma ViewedKeeps(p: Phone, fits: bool, e: AppEvent)
    requires SessionInv(p, fits) && HasSession(p.app) && (e.EntryOpened? || e.EditBegun?) && Stepped(p, e).result.Ok?
    ensures AfterEvent(p, e) == Phone(p.cells, p.app.(
      selected := if e.EntryOpened? then e.id else if e.choice.Named? then e.choice.id else None,
      editing := if e.EntryOpened? || e.choice.NewEntry? then None else e.choice.id))
    ensures SessionInv(AfterEvent(p, e), fits)
    ensures e.EntryOpened? ==> e.id.Some?
    ensures e.EditBegun? && e.choice.Named? ==> e.choice.id.Some?
  {
    hide Stands, EntryList, AfterBeginEdit, AfterOpenEntry, Present;
    ViewsSelect(Disk(p.cells, []), p.app, if e.EntryOpened? then e.id else if e.choice.Named? then e.choice.id else None);
  }

  lemma EditsAreExpected(p: Phone, e: AppEvent)
    requires e.EntrySaved? || e.SelectedDeleted?
    ensures Expected(p, e)
  {
  }

  /** Putting an entry under edit and saving touches that entry alone; a blank edit view and saving appends one. */
  lemma EditReachesTheChosen(p: Phone, fits: bool, choice: Choice, save: AppEvent)
    requires SessionInv(p, fits) && HasSession(p.app) && save.EntrySaved?
    requires Stepped(p, EditBegun(choice)).result.Ok?
    requires Stepped(AfterEvent(p, EditBegun(choice)), save).result.Ok?
    ensures var after := AfterEvent(AfterEvent(p, EditBegun(choice)), save).app;
            && SavedOnce(p.app, after) && save.now.Ms? && 0 <= save.now.ms <= 0x1F_FFFF_FFFF_FFFF
            && exists input ::
                 && TypedIn(save.form, input)
                 && OneEntrySet(ToSave(p.app), after.held.value.vault.value.container,
                                if choice.NewEntry? then None else choice.id, input, save.now.ms)
  {
    hide SessionInv, AfterEvent, Stepped, Expected, OneEntrySet, TypedIn, Reopens, SavedFits;
    var q := AfterEvent(p, EditBegun(choice));
    ViewedKeeps(p, fits, EditBegun(choice));
    EditsAreExpected(q, save);
    SavedEntryIsStored(q, fits, save);
  }

  /** Viewing an entry and deleting drops that entry alone. */
  lemma DeletionReachesTheViewed(p: Phone, fits: bool, id: EntryId, deletion: AppEvent)
    requires SessionInv(p, fits) && HasSession(p.app) && deletion.SelectedDeleted?
    requires Stepped(p, EntryOpened(Some(id))).result.Ok?
    requires Stepped(AfterEvent(p, EntryOpened(Some(id))), deletion).result.Ok?
    ensures var after := AfterEvent(AfterEvent(p, EntryOpened(Some(id))), deletion).app;
            && SavedOnce(p.app, after) && deletion.now.Ms?
            && exists at: nat ::
                 DroppedAt(ToSave(p.app), after.held.value.vault.value.container, at, id, deletion.now.ms)
  {
    hide SessionInv, AfterEvent, Stepped, Expected, DroppedAt, Reopens, SavedFits;
    var q := AfterEvent(p, EntryOpened(Some(id)));
    ViewedKeeps(p, fits, EntryOpened(Some(id)));
    EditsAreExpected(q, deletion);
    DeletedEntryIsGone(q, fits, deletion);
    assert ToSave(q.app) == ToSave(p.app);
  }

  /** Without an open session nothing is edited, deleted, viewed or changed. */
  lemma LockedRefuses(p: Phone, e: AppEvent)
    requires !HasSession(p.app)
    requires e.EntrySaved? || e.SelectedDeleted? || e.PasswordChanged? || e.EntryOpened? || e.EditBegun?
    ensures Stepped(p, e).result == Err(SessionLocked) && AfterEvent(p, e) == p
  {
  }

  /** A failed edit keeps nothing in memory, but for a deletion with nothing selected, which changes nothing. */
  lemma FailedEditForgets(p: Phone, fits: bool, e: AppEvent)
    requires SessionInv(p, fits) && HasSession(p.app)
    requires (e.EntrySaved? || e.SelectedDeleted?) && Stepped(p, e).result.Err?
    ensures var error := Stepped(p, e).result.error;
            if e.SelectedDeleted? && p.app.selected.None? then error == EntryNotSelected && AfterEvent(p, e) == p
            else
              && Forgotten(AfterEvent(p, e).app, p.app.timer.minutes)
              && (!(e.now.Ms? && 0 <= e.now.ms <= 0x1F_FFFF_FFFF_FFFF) ==>
                    error == Failed(InvalidTimestamp) && AfterEvent(p, e).cells == p.cells)
  {
    hide Stands, AfterSaveSession, AfterBridgeAdd, AfterBridgeUpdate, AfterBridgeDelete, Normalized, EntryList;
  }

  /** An edit that its contents rule out says why, and nothing is stored. */
  lemma ImpossibleEditStoresNothing(p: Phone, fits: bool, e: AppEvent, input: Fields)
    requires SessionInv(p, fits) && HasSession(p.app)
    requires e.EntrySaved? || e.SelectedDeleted?
    requires if e.EntrySaved? then TypedIn(e.form, input)
             else p.app.selected.Some? && !Present(p.app, p.app.selected.value)
    requires e.now.Ms? && 0 <= e.now.ms <= 0x1F_FFFF_FFFF_FFFF
    ensures var s, entries := Stepped(p, e), p.app.held.value.vault.value.container.entries;
            var why :=
              if e.SelectedDeleted? then Some(EntryNotFound)
              else if !WithinBounds(input) then Some(InvalidContainer)
              else if p.app.editing.None? && |entries| >= 10_000 then Some(VaultTooLarge)
              else if p.app.editing.Some? && !Present(p.app, p.app.editing.value) then Some(EntryNotFound)
              else None;
            why.Some? ==>
              s.result == Err(Failed(BridgeFailure(VaultFailure(why.value)))) && s.disk.cells == p.cells
  {
    hide Stands, AfterSaveSession, AfterAdd, AfterUpdate, AfterDelete, Normalized, EntryList, TypedIn, WithinBounds,
         Sound, MetaOf, UsableMeta, PhraseOf;
    OpenOrLocked(p, fits);
    StandingIsValid(p.cells, p.app.held.value, fits);
    var c := p.app.held.value.vault.value.container;
    if e.SelectedDeleted? {
      DeleteOutcome(c, p.app.selected.value, e.now.ms);
    } else {
      TypedOneWay(e.form, input);
      AddOutcome(c, input, e.now.ms, e.idTape);
      if p.app.editing.Some? {
        UpdateOutcome(c, p.app.editing.value, input, e.now.ms);
      }
    }
  }

  lemma TypedOneWay(form: Form, input: Fields)
    requires TypedIn(form, input)
    ensures input == Normalized(form)
  {
    NormalizedIsTyped(form);
  }

  // ---- Sessions begun ----

  /**
   A creation that reports success opens the empty vault made from the tape, with an empty list, nothing
   selected and a fresh deadline. One refused before that changes nothing held; one whose session the clock
   drops at once leaves nothing held.
   */
  lemma CreationOpensEmpty(
    p: Phone, phrase: Phrase, now: Clock, tape: seq<byte>, touchAt: Clock, faults: seq<Fault>)
    ensures var e := SessionCreated(phrase, now, tape, touchAt, faults);
            var after := AfterEvent(p, e).app;
            match Stepped(p, e).result
            case Ok(_) =>
              && now.Ms? && 0 <= now.ms <= 0x1F_FFFF_FFFF_FFFF && Forwards(touchAt, -0x1F_FFFF_FFFF_FFFF)
              && |tape| >= 112 && HasSession(after) && after.held.value.meta.Some?
              && after.held.value == BridgeState(after.held.value.vault, after.held.value.meta, None, None)
              && MadeFromTape(after.held.value.meta.value, after.held.value.vault.value,
                              KdfConfig(19_456, 2, 1), now.ms, tape)
              && after == App(after.held, after.timer, [], None, None)
              && HeldFrom(after.timer, touchAt.ms, p.app.timer.minutes)
            case Err(Failed(_)) => after == p.app
            case Err(error) => error == SessionLocked && Forgotten(after, p.app.timer.minutes)
  {
    hide AfterCreateSession, MadeFromTape, EntryList;
    var d := Disk(p.cells, faults);
    CreationNeedsTimestamp(d, phrase, Timestamp(now), tape);
    if AfterCreateSession(d, phrase, Timestamp(now), tape).result.Ok? {
      CreateSessionFromTape(d, phrase, now.ms, tape);
      var b := AfterCreateSession(d, phrase, Timestamp(now), tape).bridge;
      MadeIsEmpty(b.meta.value, b.vault.value, now.ms, tape);
    }
  }

  lemma MadeIsEmpty(meta: Meta, v: Session, now: u64, tape: seq<byte>)
    requires |tape| >= 112 && MadeFromTape(meta, v, KdfConfig(19_456, 2, 1), now, tape)
    ensures EntryList(v.container.entries) == []
  {
  }

  /**
   An unlock that reports success holds exactly what the storage opens to under that phrase, with its list,
   nothing selected and a fresh deadline. A failed one changes nothing held, or leaves nothing held.
   */
  lemma OpeningHoldsTheStored(p: Phone, phrase: Phrase, touchAt: Clock, faults: seq<Fault>)
    ensures var e := SessionOpened(phrase, touchAt, faults);
            var q := AfterEvent(p, e);
            match Stepped(p, e).result
            case Ok(_) =>
              && Forwards(touchAt, -0x1F_FFFF_FFFF_FFFF)
              && HasSession(q.app) && Reopens(q) && PhraseHeld(q) == Some(phrase)
              && Lists(q.app.entries, q.app.held.value.vault.value.container.entries)
              && q.app == App(q.app.held, q.app.timer, q.app.entries, None, None)
              && HeldFrom(q.app.timer, touchAt.ms, p.app.timer.minutes)
            case Err(Failed(_)) => q.app == p.app
            case Err(error) => error == SessionLocked && Forgotten(q.app, p.app.timer.minutes)
  {
    hide AfterOpenSession, Agrees, Lists, EntryList, PhraseOf;
    var d := Disk(p.cells, faults);
    if AfterOpenSession(d, phrase).result.Ok? {
      var j := AfterOpenSession(d, phrase);
      OpenedSessionAgrees(d, phrase);
      OpensForItsPhrase(d, phrase);
      AgreementMeansOpening(j.disk.cells, j.bridge, phrase);
      EntryListLists(j.bridge.vault.value.container.entries);
    }
  }

  lemma OpensForItsPhrase(d: Disk, phrase: Phrase)
    requires AfterOpenSession(d, phrase).result.Ok?
    ensures var b := AfterOpenSession(d, phrase).bridge;
            b.vault.Some? && b.meta.Some? && PhraseOf(b.meta.value) == Some(phrase)
  {
    hide Select, AfterOpenSession, UsablePointer, UsableMeta, PhraseOf, Held, Unwraps, Sound;
    OpenSessionSelects(d, phrase);
    SelectedSession(d.cells, phrase);
    UnwrapsIsMetaOf(UsableMeta(d.cells.meta).value, phrase, Select(d.cells, phrase).value);
  }

  // ---- Phrase changes ----

  /** A change refused for either phrase has not begun, and no other failure is reported as one of these. */
  lemma PhraseChangeRefusals(d: Disk, b: BridgeState, current: Phrase, replacement: Phrase, tape: seq<byte>, lockAt: nat)
    requires BridgeInv(b) && EnsureMutable(b).Ok?
    ensures var j := AfterChangePhrase(d, b, current, replacement, tape, lockAt);
            && b.meta.Some?
            && if PhraseOf(b.meta.value) != Some(current) then
                 j == JsStep(Err(BridgeFailure(VaultFailure(WrongPasswordOrCorruptedVault))), d, b)
               else if replacement.NotUtf8? || |replacement.chars| < 16 then
                 j == JsStep(Err(BridgeFailure(VaultFailure(InvalidMasterPassword))), d, b)
               else if j.result.Err? then
                 && j.result.error != BridgeFailure(VaultFailure(WrongPasswordOrCorruptedVault))
                 && j.result.error != BridgeFailure(VaultFailure(InvalidMasterPassword))
               else
                 && j.bridge.meta.Some? && PhraseOf(j.bridge.meta.value) == Some(replacement)
                 && j.bridge == b.(meta := j.bridge.meta)
  {
    hide AfterPrepareChange, RewrapVaultKey, PhraseOf, Sound, MetaOf;
    OnlyTheCurrentPhraseRewraps(b, current, replacement, tape);
    PrepareChangeKeeps(b, current, replacement, tape);
    if AfterChangePhrase(d, b, current, replacement, tape, lockAt).result.Ok? {
      ChangeResult(d, b, current, replacement, tape, lockAt);
      RewrappedMeta(current, replacement, b.meta.value, b.vault.value, tape, IdentityOf(b.vault.value));
    }
  }

  lemma PrepareChangeKeeps(b: BridgeState, current: Phrase, replacement: Phrase, tape: seq<byte>)
    ensures var r := AfterPrepareChange(b, current, replacement, tape);
            (r.result.Err? ==> r.bridge == b) && r.bridge == b.(change := r.bridge.change)
  {
    hide RewrapVaultKey;
  }

  /** The earliest reading that is not a step back. */
  function Earliest(t: Timer): int {
    if t.lastSeen.Some? then t.lastSeen.value else -0x1F_FFFF_FFFF_FFFF
  }

  /**
   A mistyped current phrase or an unacceptable new one is named and changes nothing; any other failure
   leaves nothing held. Success leaves the session as it was, wrapped for the new phrase, unless the clock
   drops it at once.
   */
  lemma PhraseChangeOutcome(p: Phone, fits: bool, e: AppEvent)
    requires SessionInv(p, fits) && HasSession(p.app) && e.PasswordChanged?
    ensures var s, q := Stepped(p, e), AfterEvent(p, e);
            if PhraseHeld(p) != Some(e.current) then
              s.result == Err(Failed(BridgeFailure(VaultFailure(WrongPasswordOrCorruptedVault)))) && q == p
            else if e.replacement.NotUtf8? || |e.replacement.chars| < 16 then
              s.result == Err(Failed(BridgeFailure(VaultFailure(InvalidMasterPassword)))) && q == p
            else if s.result.Err? || !Forwards(e.touchAt, Earliest(p.app.timer)) then
              Forgotten(q.app, p.app.timer.minutes)
            else
              && HasSession(q.app) && PhraseHeld(q) == Some(e.replacement)
              && q.app == p.app.(held := Some(p.app.held.value.(meta := q.app.held.value.meta)), timer := q.app.timer)
              && HeldFrom(q.app.timer, e.touchAt.ms, p.app.timer.minutes)
  {
    hide Stands, AfterChangePhrase, RewrapVaultKey, PhraseOf, UsableMeta, Sound, BridgeInv, EnsureMutable, EntryList;
    var d, b := Disk(p.cells, e.faults), p.app.held.value;
    OpenOrLocked(p, fits);
    StandingIsValid(p.cells, b, fits);
    PhraseChangeRefusals(d, b, e.current, e.replacement, e.tape, e.lockAt);
  }

  // ---- Removal ----

  /**
   A removal that reports success leaves nothing stored and nothing held; a failed one leaves what was held
   locked, and a store whose metadata, if it went at all, went last.
   */
  lemma DestructionOfSession(p: Phone, faults: seq<Fault>)
    ensures var s := Stepped(p, Destroyed(faults));
            match s.result
            case Ok(_) => s.disk.cells == Cells(None, None, None, None) && Forgotten(s.app, p.app.timer.minutes)
            case Err(_) =>
              && s.app == p.app.(held := s.app.held)
              && s.app.held == (if p.app.held.Some? then Some(BridgeState(None, None, None, None)) else None)
              && (s.disk.cells.meta != p.cells.meta ==> s.disk.cells == Cells(s.disk.cells.meta, None, None, None))
  {
    hide RemoveAll;
    DestructionEndsWithMetadata(Disk(p.cells, faults));
  }
}
