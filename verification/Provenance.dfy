/**
 What no fault and no tampering takes away. Cells may at any time hold any text at all, replays of earlier
 slots and metadata included, as long as ciphertexts under the vault's data key are ones the vault made.
 Whatever opens under that key is then contents made for that very slot and generation.
 */
module Provenance {
  import opened Wrappers
  import opened Bytes
  import opened Aad
  import opened Model
  import opened JsonLength
  import opened Validation
  import opened Crypto
  import opened Vault
  import opened VaultProperties
  import opened Device
  import opened Repository
  import opened OpenProperties
  import opened SaveProperties
  import opened Bridge
  import opened BridgeProperties
  import opened Persistence
  import opened Refinement
  import opened Recovery
  import opened Runs
  import opened Creation

  /** Contents that a creation or a save has encrypted for a slot. */
  datatype Made = Made(slot: SlotId, generation: u64, container: Container, nonce: seq<byte>)

  function MadeSlot(m: Made, id: Identity): Slot {
    SealSlot(id.dek, id.vaultId, m.slot, m.generation, ContainerJson(m.container), m.nonce)
  }

  predicate WellMade(m: Made, id: Identity) {
    && m.slot == SideOf(m.generation)
    && ValidContainer(m.container, id.vaultId, m.generation)
    && m.container.createdAt == id.createdAt
  }

  ghost predicate AllWellMade(made: set<Made>, id: Identity) {
    forall m :: m in made ==> WellMade(m, id)
  }

  ghost predicate MadeCiphertext(s: Slot, made: set<Made>, id: Identity) {
    exists m :: m in made && s.ciphertext == MadeSlot(m, id).ciphertext
  }

  /** Text with no ciphertext under the data key, or with one that the vault made, wherever it is put. */
  ghost predicate Genuine(text: Option<Text>, made: set<Made>, id: Identity) {
    text.Some? && SealedUnder(text.value, id.dek) ==> MadeCiphertext(Parse(text.value).value.slot, made, id)
  }

  ghost predicate GenuineCells(cells: Cells, made: set<Made>, id: Identity) {
    Genuine(cells.a, made, id) && Genuine(cells.b, made, id)
  }

  /** A container is among what was made, for this slot and generation. */
  ghost predicate WasMade(c: Container, side: SlotId, made: set<Made>) {
    exists m :: m in made && m.slot == side && m.generation == c.generation && m.container == c
  }

  /** A live session is valid; under the data key it is one of the vault, and stands in the slot of its generation. */
  predicate LiveSourced(live: Live, id: Identity) {
    && Sound(live.vault.container) && MetaOf(live.meta, IdentityOf(live.vault))
    && (live.vault.dek == id.dek ==>
          IdentityOf(live.vault) == id && live.vault.slot == SideOf(live.vault.container.generation))
  }

  ghost predicate Sourced(w: World, made: set<Made>, id: Identity) {
    && AllWellMade(made, id) && GenuineCells(w.cells, made, id)
    && (w.live.Some? ==> LiveSourced(w.live.value, id))
  }

  // ---- What follows for opening ----

  lemma DecryptedWasMade(s: Slot, c: Container, made: set<Made>, id: Identity)
    requires AllWellMade(made, id) && MadeCiphertext(s, made, id)
    requires DecryptContainer(id.dek, s) == Ok(c)
    ensures WasMade(c, s.slot, made) && s.slot == SideOf(c.generation)
    ensures c.vaultId == id.vaultId && c.createdAt == id.createdAt && s.vaultId == id.vaultId
  {
    hide DecryptContainer, VaultSlotAad, GoodEntries, PlaintextLength;
    DecryptsExactly(id.dek, s, c);
    var m :| m in made && s.ciphertext == MadeSlot(m, id).ciphertext;
    assert WellMade(m, id);
    VaultSlotAadIsInjective(id.vaultId, m.slot, m.generation, s.vaultId, s.slot, s.generation);
    assert m.container == c;
  }

  /** What a cell yields under the data key was made for that side, whatever vault the metadata claims. */
  lemma HeldWasMade(text: Option<Text>, side: SlotId, made: set<Made>, id: Identity, claimed: Identity)
    requires AllWellMade(made, id) && Genuine(text, made, id) && claimed.dek == id.dek
    requires Held(text, side, claimed).Some?
    ensures var c := Held(text, side, claimed).value;
            WasMade(c, side, made) && side == SideOf(c.generation)
            && c.vaultId == id.vaultId && c.createdAt == id.createdAt
  {
    hide DecryptContainer, ValidSlot, AllWellMade, MadeCiphertext, Sound, WasMade;
    var c := Held(text, side, claimed).value;
    var s := UsableSlot(text, side, claimed.vaultId).value;
    SlotIsUsableExactly(text, side, claimed.vaultId, s);
    DecryptsExactly(id.dek, s, c);
    DecryptedWasMade(s, c, made, id);
  }

  /** An opened session is valid, and under the data key its contents were made for its slot and generation. */
  lemma SelectedIsSourced(cells: Cells, phrase: Phrase, made: set<Made>, id: Identity)
    requires AllWellMade(made, id) && GenuineCells(cells, made, id) && Select(cells, phrase).Ok?
    ensures var v := Select(cells, phrase).value;
            && UsableMeta(cells.meta).Ok?
            && LiveSourced(Live(v, UsableMeta(cells.meta).value), id)
            && PhraseOf(UsableMeta(cells.meta).value) == Some(phrase)
            && (v.dek == id.dek ==> WasMade(v.container, v.slot, made))
  {
    hide Select, Held, UsableMeta, AllWellMade, Genuine, WasMade, Sound, MetaOf, PhraseOf, Unwraps;
    var v := Select(cells, phrase).value;
    SelectedSession(cells, phrase);
    UnwrapsIsMetaOf(UsableMeta(cells.meta).value, phrase, v);
    if v.dek == id.dek {
      HeldWasMade(cells.At(SlotKey(v.slot)), v.slot, made, id, IdentityOf(v));
    }
  }

  /** A session opened under the data key does not depend on the pointer: two made slots never tie. */
  lemma SourcedIgnoresPointer(cells: Cells, phrase: Phrase, made: set<Made>, id: Identity, pointer: Option<Text>)
    requires AllWellMade(made, id) && GenuineCells(cells, made, id)
    requires Select(cells, phrase).Ok? && Select(cells, phrase).value.dek == id.dek
    ensures Select(cells.(pointer := pointer), phrase) == Select(cells, phrase)
  {
    hide Select, Held, UsableMeta, AllWellMade, Genuine, WasMade, Sound, MetaOf, PhraseOf, Unwraps, Preferred, UsablePointer;
    var v, at := Select(cells, phrase).value, cells.(pointer := pointer);
    SelectedIsSourced(cells, phrase, made, id);
    var meta := UsableMeta(cells.meta).value;
    SelectByHeld(cells, phrase, meta, IdentityOf(v));
    SelectByHeld(at, phrase, meta, IdentityOf(v));
    NewerIsPreferred(UsablePointer(cells.pointer), cells, IdentityOf(v));
    NewerIsPreferred(UsablePointer(pointer), at, IdentityOf(v));
    HeldAlternate(cells, made, id);
  }

  /** The two cells never hold made contents of one generation. */
  lemma HeldAlternate(cells: Cells, made: set<Made>, id: Identity)
    requires AllWellMade(made, id) && GenuineCells(cells, made, id)
    ensures var a := Held(cells.a, A, id);
            var b := Held(cells.b, B, id);
            && (a.Some? ==> SideOf(a.value.generation) == A)
            && (b.Some? ==> SideOf(b.value.generation) == B)
            && (a.Some? && b.Some? ==> a.value.generation != b.value.generation)
  {
    hide Held, AllWellMade, Genuine, WasMade;
    if Held(cells.a, A, id).Some? {
      HeldWasMade(cells.a, A, made, id, id);
    }
    if Held(cells.b, B, id).Some? {
      HeldWasMade(cells.b, B, made, id, id);
    }
  }

  // ---- Events ----

  /** What a run may meet: an event of the vault, or any change of any cells behind its back. */
  datatype Happening = Usual(event: Event) | Tampered(cells: Cells)

  function FaultsOf(e: Event): seq<Fault> {
    match e
    case RepositorySaved(_, faults) => faults
    case SplitSaved(_, faults, _) => faults
    case RepositoryOpened(_, faults) => faults
    case SplitOpened(_, faults) => faults
    case PhraseChanged(_, _, _, faults, _) => faults
    case Edited(_) => []
    case Crashed => []
  }

  function AfterHappening(w: World, h: Happening): World {
    match h
    case Usual(e) => After(w, e)
    case Tampered(cells) => w.(cells := cells)
  }

  /** What a save of this session encrypts, if it gets that far. */
  function MadeBySave(v: Session, tape: seq<byte>): set<Made> {
    if EncryptForSlot(v, v.slot.Other(), tape).Ok? && v.container.generation < U64_MAX
      && |tape| >= 24
    then {Made(v.slot.Other(), v.container.generation + 1, NextContainer(v.container), tape[..24])}
    else {}
  }

  /** What the vault has made after an event: sessions under another key make nothing of it. */
  function MadeAfter(w: World, made: set<Made>, id: Identity, h: Happening): set<Made> {
    if h.Tampered? || w.live.None? || w.live.value.vault.dek != id.dek then made
    else
      match h.event
      case RepositorySaved(tape, _) => made + MadeBySave(w.live.value.vault, tape)
      case SplitSaved(tape, _, _) => made + MadeBySave(w.live.value.vault, tape)
      case _ => made
  }

  ghost predicate UnforgedResidue(faults: seq<Fault>, made: set<Made>, id: Identity) {
    forall i :: 0 <= i < |faults| && faults[i].Tears? ==> Genuine(faults[i].residue, made, id)
  }

  /** Residue of torn writes, and whatever tampering puts in the slots, holds no ciphertext of others under the key. */
  ghost predicate Unforged(h: Happening, made: set<Made>, id: Identity) {
    match h
    case Usual(e) => UnforgedResidue(FaultsOf(e), made, id)
    case Tampered(cells) => GenuineCells(cells, made, id)
  }

  lemma GenuineStays(text: Option<Text>, made: set<Made>, more: set<Made>, id: Identity)
    requires Genuine(text, made, id) && made <= more
    ensures Genuine(text, more, id)
  {
    if text.Some? && SealedUnder(text.value, id.dek) {
      var m :| m in made && Parse(text.value).value.slot.ciphertext == MadeSlot(m, id).ciphertext;
      assert m in more;
    }
  }

  /** What a session of the vault encrypts is genuine once it is noted as made. */
  lemma EncryptedIsMade(v: Session, tape: seq<byte>, id: Identity)
    requires Sound(v.container) && EncryptForSlot(v, v.slot.Other(), tape).Ok?
    requires v.dek == id.dek ==> IdentityOf(v) == id && v.slot == SideOf(v.container.generation)
    ensures var text := Some(SlotText(EncryptForSlot(v, v.slot.Other(), tape).value));
            && v.container.generation < U64_MAX
            && (v.dek == id.dek ==>
                  AllWellMade(MadeBySave(v, tape), id) && Genuine(text, MadeBySave(v, tape), id))
            && (v.dek != id.dek ==> Genuine(text, {}, id))
  {
    hide VaultSlotAad, ContainerLength, GoodEntries;
    NextIsSound(v.container);
    var slot := EncryptForSlot(v, v.slot.Other(), tape).value;
    if v.dek == id.dek {
      var m := Made(v.slot.Other(), v.container.generation + 1, NextContainer(v.container), tape[..24]);
      assert m in MadeBySave(v, tape) && slot.ciphertext == MadeSlot(m, id).ciphertext;
    }
  }

  lemma MoreIsWellMade(made: set<Made>, more: set<Made>, id: Identity)
    requires AllWellMade(made, id) && AllWellMade(more, id)
    ensures AllWellMade(made + more, id)
  {
    hide WellMade;
  }

  lemma SourcedIsBridge(live: Live, id: Identity)
    requires LiveSourced(live, id)
    ensures BridgeInv(BridgeOf(live)) && EnsureMutable(BridgeOf(live)).Ok? && Sound(live.vault.container)
  {
    hide Sound, Unwraps, PendingFits, PhraseOf;
  }

  /** What the vault has made once a session has encrypted for a save. */
  function MadeWith(made: set<Made>, v: Session, tape: seq<byte>, id: Identity): set<Made> {
    if v.dek == id.dek then made + MadeBySave(v, tape) else made
  }

  lemma MadeWithKeeps(cells: Cells, live: Live, tape: seq<byte>, made: set<Made>, id: Identity)
    requires LiveSourced(live, id) && AllWellMade(made, id) && GenuineCells(cells, made, id)
    ensures var more := MadeWith(made, live.vault, tape, id);
            AllWellMade(more, id) && GenuineCells(cells, more, id)
  {
    hide Sound, MetaOf, Genuine, AllWellMade, EncryptForSlot;
    var v := live.vault;
    var more := MadeWith(made, v, tape, id);
    GenuineStays(cells.a, made, more, id);
    GenuineStays(cells.b, made, more, id);
    if v.dek == id.dek {
      if EncryptForSlot(v, v.slot.Other(), tape).Ok? {
        EncryptedIsMade(v, tape, id);
      } else {
        NothingIsWellMade(id);
      }
      MoreIsWellMade(made, MadeBySave(v, tape), id);
    }
  }

  lemma NothingIsWellMade(id: Identity)
    ensures AllWellMade({}, id)
  {
  }

  /** Whatever a save's slot write leaves in the cell is genuine. */
  lemma SlotWriteKeeps(
    cells: Cells, after: Cells, live: Live, tape: seq<byte>, fault: Fault, made: set<Made>, id: Identity)
    requires LiveSourced(live, id) && AllWellMade(made, id) && GenuineCells(cells, made, id)
    requires EncryptForSlot(live.vault, live.vault.slot.Other(), tape).Ok?
    requires fault.Tears? ==> Genuine(fault.residue, MadeWith(made, live.vault, tape, id), id)
    requires var v := live.vault;
             var text := Some(SlotText(SlotToWrite(v, tape)));
             var key := SlotKey(v.slot.Other());
             && after.At(SlotKey(v.slot)) == cells.At(SlotKey(v.slot))
             && after.At(key) in {cells.At(key), Landed(fault, cells.At(key), text), text}
    ensures var more := MadeWith(made, live.vault, tape, id);
            AllWellMade(more, id) && GenuineCells(after, more, id)
  {
    hide Sound, MetaOf, Genuine, AllWellMade, EncryptForSlot;
    var v := live.vault;
    var more := MadeWith(made, v, tape, id);
    MadeWithKeeps(cells, live, tape, made, id);
    EncryptedIsMade(v, tape, id);
    var text := Some(SlotText(SlotToWrite(v, tape)));
    GenuineStays(text, if v.dek == id.dek then MadeBySave(v, tape) else {}, more, id);
  }

  /** A session that a save has advanced is as good as before. */
  lemma AdvancedIsSourced(live: Live, id: Identity)
    requires LiveSourced(live, id) && live.vault.container.generation < U64_MAX
    ensures LiveSourced(live.(vault := Advanced(live.vault)), id)
  {
    hide Sound, MetaOf;
    NextIsSound(live.vault.container);
  }

  lemma RepositorySaveIsSourced(w: World, made: set<Made>, id: Identity, tape: seq<byte>, faults: seq<Fault>)
    requires Sourced(w, made, id) && w.live.Some?
    requires Unforged(Usual(RepositorySaved(tape, faults)), MadeWith(made, w.live.value.vault, tape, id), id)
    ensures Sourced(After(w, RepositorySaved(tape, faults)), MadeWith(made, w.live.value.vault, tape, id), id)
  {
    hide AfterSave, EncryptForSlot, LiveSourced, SlotLength, Genuine, Sound, AllWellMade, GenuineCells, MadeWith;
    var live, d := w.live.value, Disk(w.cells, faults);
    SourcedIsBridge(live, id);
    SaveOnDevice(d, live.vault, tape);
    if EncryptForSlot(live.vault, live.vault.slot.Other(), tape).Ok? {
      TornIsUnforged(d, 0, MadeWith(made, live.vault, tape, id), id);
      SlotWriteKeeps(w.cells, AfterSave(d, live.vault, tape).disk.cells, live, tape, d.Next(), made, id);
      if AfterSave(d, live.vault, tape).result.Ok? {
        AdvancedIsSourced(live, id);
      }
    } else {
      MadeWithKeeps(w.cells, live, tape, made, id);
    }
  }

  lemma TornIsUnforged(d: Disk, n: nat, made: set<Made>, id: Identity)
    requires UnforgedResidue(d.faults, made, id)
    ensures FaultAt(d, n).Tears? ==> Genuine(FaultAt(d, n).residue, made, id)
    ensures d.Next() == FaultAt(d, 0)
  {
    hide Genuine;
  }

  lemma SplitSaveIsSourced(w: World, made: set<Made>, id: Identity, tape: seq<byte>, faults: seq<Fault>, lockAt: nat)
    requires Sourced(w, made, id) && w.live.Some?
    requires Unforged(Usual(SplitSaved(tape, faults, lockAt)), MadeWith(made, w.live.value.vault, tape, id), id)
    ensures Sourced(After(w, SplitSaved(tape, faults, lockAt)), MadeWith(made, w.live.value.vault, tape, id), id)
  {
    hide AfterSaveSession, EncryptForSlot, LiveSourced, SlotLength, Genuine, Sound, AllWellMade, GenuineCells, MadeWith,
         BridgeInv, EnsureMutable, StopOfSplit;
    var live, d := w.live.value, Disk(w.cells, faults);
    var v := live.vault;
    SourcedIsBridge(live, id);
    if EncryptForSlot(v, v.slot.Other(), tape).Ok? {
      SplitOutcome(d, BridgeOf(live), tape, lockAt);
      TornIsUnforged(d, 0, MadeWith(made, v, tape, id), id);
      SlotWriteKeeps(w.cells, AfterSaveSession(d, BridgeOf(live), tape, lockAt).disk.cells, live, tape, FaultAt(d, 0),
                     made, id);
      AdvancedIsSourced(live, id);
    } else {
      RefusedAlike(d, BridgeOf(live), tape, lockAt);
      MadeWithKeeps(w.cells, live, tape, made, id);
    }
  }

  lemma SeenIsGenuine(d: Disk, made: set<Made>, id: Identity)
    requires GenuineCells(d.cells, made, id)
    ensures GenuineCells(Seen(d), made, id)
  {
    hide FaultAt;
  }

  lemma OpenIsSourced(w: World, made: set<Made>, id: Identity, e: Event)
    requires Sourced(w, made, id) && (e.RepositoryOpened? || e.SplitOpened?)
    ensures Sourced(After(w, e), made, id)
  {
    hide AfterOpen, AfterOpenSession, Select, LiveSourced, Genuine, AllWellMade, UsableMeta, WasMade, UsablePointer;
    var d := Disk(w.cells, e.faults);
    match e
    case RepositoryOpened(phrase, faults) =>
      OpenOnDevice(d, phrase);
      SeenIsGenuine(d, made, id);
      if AfterOpen(d, phrase).result.Ok? {
        SelectedIsSourced(Seen(d), phrase, made, id);
      }
    case SplitOpened(phrase, faults) =>
      OpenSessionSelects(d, phrase);
      if AfterOpenSession(d, phrase).result.Ok? {
        SelectedIsSourced(w.cells, phrase, made, id);
      }
    case _ =>
  }

  lemma ChangeIsSourced(w: World, made: set<Made>, id: Identity, e: Event)
    requires Sourced(w, made, id) && e.PhraseChanged? && w.live.Some?
    ensures Sourced(After(w, e), made, id)
  {
    hide AfterChangePhrase, RewrapVaultKey, GenuineCells, AllWellMade, BridgeInv, EnsureMutable, Sound, Unwraps, PhraseOf,
         MetaOf;
    var live, d := w.live.value, Disk(w.cells, e.faults);
    SourcedIsBridge(live, id);
    ChangeOnDevice(d, BridgeOf(live), e.current, e.replacement, e.tape, e.lockAt);
    SameSlotsStayGenuine(w.cells, After(w, e).cells, made, id);
    if RewrapVaultKey(e.current, e.replacement, live.meta, live.vault, DEFAULT_KDF_CONFIG, e.tape).Ok? {
      RewrappedMeta(e.current, e.replacement, live.meta, live.vault, e.tape, IdentityOf(live.vault));
    }
  }

  lemma SameSlotsStayGenuine(cells: Cells, after: Cells, made: set<Made>, id: Identity)
    requires GenuineCells(cells, made, id) && after == cells.(meta := after.meta)
    ensures GenuineCells(after, made, id)
  {
    hide Genuine;
  }

  lemma EditIsSourced(w: World, made: set<Made>, id: Identity, request: Request)
    requires Sourced(w, made, id)
    ensures Sourced(After(w, Edited(request)), made, id)
  {
    hide GenuineCells, AllWellMade, AfterEdit, Sound, MetaOf;
    if w.live.Some? {
      EditKeepsSound(w.live.value.vault.container, request);
    }
  }

  /** Every event, and every change of cells behind the vault's back, keeps all of it. */
  lemma HappeningKeepsSource(w: World, made: set<Made>, id: Identity, h: Happening)
    requires Sourced(w, made, id) && Unforged(h, MadeAfter(w, made, id, h), id)
    ensures Sourced(AfterHappening(w, h), MadeAfter(w, made, id, h), id)
  {
    hide AllWellMade, GenuineCells, LiveSourced, AfterSave, AfterSaveSession, AfterOpen, AfterOpenSession, AfterChangePhrase,
         Genuine;
    match h
    case Tampered(cells) =>
    case Usual(e) =>
      match e
      case Edited(request) => EditIsSourced(w, made, id, request);
      case RepositorySaved(tape, faults) =>
        if w.live.Some? {
          RepositorySaveIsSourced(w, made, id, tape, faults);
        }
      case SplitSaved(tape, faults, lockAt) =>
        if w.live.Some? {
          SplitSaveIsSourced(w, made, id, tape, faults, lockAt);
        }
      case RepositoryOpened(_, _) => OpenIsSourced(w, made, id, e);
      case SplitOpened(_, _) => OpenIsSourced(w, made, id, e);
      case PhraseChanged(_, _, _, _, _) =>
        if w.live.Some? {
          ChangeIsSourced(w, made, id, e);
        }
      case Crashed =>
  }

  // ---- The data key ----

  /** Metadata that an opening would accept belongs to the vault, wrapped for whatever phrase. */
  predicate SafeMeta(text: Option<Text>, id: Identity) {
    UsableMeta(text).Ok? ==> MetaOf(UsableMeta(text).value, id)
  }

  /** The data key of creation is that of the stored metadata and of the live session. */
  predicate KeyKept(w: World, id: Identity) {
    SafeMeta(w.cells.meta, id) && (w.live.Some? ==> w.live.value.vault.dek == id.dek)
  }

  predicate SafeResidue(faults: seq<Fault>, id: Identity) {
    forall i :: 0 <= i < |faults| && faults[i].Tears? ==> SafeMeta(faults[i].residue, id)
  }

  /** Metadata changes hands only with metadata of the vault, be it old, or leave it unusable. */
  ghost predicate SafeHappening(h: Happening, id: Identity) {
    match h
    case Usual(PhraseChanged(_, _, _, faults, _)) => SafeResidue(faults, id)
    case Usual(_) => true
    case Tampered(cells) => SafeMeta(cells.meta, id)
  }

  lemma SavesSpareMetadata(w: World, id: Identity, e: Event)
    requires w.live.Some? && LiveSourced(w.live.value, id) && (e.RepositorySaved? || e.SplitSaved?)
    ensures After(w, e).cells.meta == w.cells.meta
    ensures After(w, e).live.Some? ==> After(w, e).live.value.vault.dek == w.live.value.vault.dek
  {
    hide AfterSave, AfterSaveSession, EncryptForSlot, LiveSourced, SlotLength, Sound, BridgeInv, EnsureMutable, StopOfSplit;
    var live, d := w.live.value, Disk(w.cells, e.faults);
    SourcedIsBridge(live, id);
    match e
    case RepositorySaved(tape, _) => SaveOnDevice(d, live.vault, tape);
    case SplitSaved(tape, _, lockAt) =>
      if EncryptForSlot(live.vault, live.vault.slot.Other(), tape).Ok? {
        SplitOutcome(d, BridgeOf(live), tape, lockAt);
      } else {
        RefusedAlike(d, BridgeOf(live), tape, lockAt);
      }
    case _ =>
  }

  /** Under metadata of the vault, whatever opens has its data key. */
  lemma SelectedHasKey(cells: Cells, phrase: Phrase, id: Identity)
    requires SafeMeta(cells.meta, id) && Select(cells, phrase).Ok?
    ensures Select(cells, phrase).value.dek == id.dek
  {
    hide Select, Held, UsableMeta, Sound, PhraseOf, Unwraps;
    SelectedSession(cells, phrase);
    var meta := UsableMeta(cells.meta).value;
    UnwrappingPhraseIsUnique(meta, phrase, Select(cells, phrase).value.dek, PhraseOf(meta).value, id.dek);
  }

  lemma OpensKeepKey(w: World, id: Identity, e: Event)
    requires KeyKept(w, id) && (e.RepositoryOpened? || e.SplitOpened?)
    ensures KeyKept(After(w, e), id)
  {
    hide AfterOpen, AfterOpenSession, Select, UsableMeta, MetaOf, UsablePointer, FaultAt;
    var d := Disk(w.cells, e.faults);
    match e
    case RepositoryOpened(phrase, _) =>
      OpenOnDevice(d, phrase);
      if AfterOpen(d, phrase).result.Ok? {
        SelectedHasKey(Seen(d), phrase, id);
      }
    case SplitOpened(phrase, _) =>
      OpenSessionSelects(d, phrase);
      if AfterOpenSession(d, phrase).result.Ok? {
        SelectedHasKey(w.cells, phrase, id);
      }
    case _ =>
  }

  lemma ChangeKeepsKey(w: World, id: Identity, e: Event)
    requires KeyKept(w, id) && w.live.Some? && LiveSourced(w.live.value, id)
    requires e.PhraseChanged? && SafeHappening(Usual(e), id)
    ensures KeyKept(After(w, e), id)
  {
    hide AfterChangePhrase, RewrapVaultKey, BridgeInv, EnsureMutable, Sound, PhraseOf, MetaOf, UsableMeta;
    var live, d := w.live.value, Disk(w.cells, e.faults);
    SourcedIsBridge(live, id);
    ChangeOnDevice(d, BridgeOf(live), e.current, e.replacement, e.tape, e.lockAt);
    var rewrapped := RewrapVaultKey(e.current, e.replacement, live.meta, live.vault, DEFAULT_KDF_CONFIG, e.tape);
    if FaultAt(d, 0).Tears? {
      assert e.faults[0].Tears?;
    }
    if rewrapped.Ok? {
      RewrappedMeta(e.current, e.replacement, live.meta, live.vault, e.tape, id);
      StoredMetaIsUsable(Some(Json(MetaDoc(rewrapped.value))), rewrapped.value, id);
    }
  }

  lemma HappeningKeepsKey(w: World, made: set<Made>, id: Identity, h: Happening)
    requires Sourced(w, made, id) && KeyKept(w, id) && SafeHappening(h, id)
    ensures KeyKept(AfterHappening(w, h), id)
  {
    hide AllWellMade, GenuineCells, LiveSourced, AfterSave, AfterSaveSession, AfterOpen, AfterOpenSession, AfterChangePhrase,
         SafeMeta;
    match h
    case Tampered(_) =>
    case Usual(e) =>
      match e
      case RepositorySaved(_, _) =>
        if w.live.Some? {
          SavesSpareMetadata(w, id, e);
        }
      case SplitSaved(_, _, _) =>
        if w.live.Some? {
          SavesSpareMetadata(w, id, e);
        }
      case RepositoryOpened(_, _) => OpensKeepKey(w, id, e);
      case SplitOpened(_, _) => OpensKeepKey(w, id, e);
      case PhraseChanged(_, _, _, _, _) =>
        if w.live.Some? {
          ChangeKeepsKey(w, id, e);
        }
      case Edited(_) =>
      case Crashed =>
  }

  /** With the key kept, the two slots never tie for any phrase. */
  lemma ReachableIsUntied(w: World, made: set<Made>, id: Identity, phrase: Phrase)
    requires Sourced(w, made, id) && KeyKept(w, id)
    ensures !Tied(w.cells, phrase)
  {
    hide UnlockOne, AllWellMade, GenuineCells, LiveSourced, UsableMeta, UsableSlot, Recovered, UnwrapDek, PhraseOf;
    if UsableMeta(w.cells.meta).Ok? {
      var meta := UsableMeta(w.cells.meta).value;
      HeldAlternate(w.cells, made, id);
      WrappedForOnePhrase(meta, id, phrase);
      UnlockOneRecovers(meta, w.cells.a, A, phrase);
      UnlockOneRecovers(meta, w.cells.b, B, phrase);
    }
  }

  // ---- Whole runs ----

  function AfterHappenings(w: World, hs: seq<Happening>): World
    decreases hs
  {
    if hs == [] then w else AfterHappenings(AfterHappening(w, hs[0]), hs[1..])
  }

  function MadeOver(w: World, made: set<Made>, id: Identity, hs: seq<Happening>): set<Made>
    decreases hs
  {
    if hs == [] then made else MadeOver(AfterHappening(w, hs[0]), MadeAfter(w, made, id, hs[0]), id, hs[1..])
  }

  ghost predicate UnforgedRun(w: World, made: set<Made>, id: Identity, hs: seq<Happening>)
    decreases hs
  {
    hs == [] ||
    (&& Unforged(hs[0], MadeAfter(w, made, id, hs[0]), id)
     && UnforgedRun(AfterHappening(w, hs[0]), MadeAfter(w, made, id, hs[0]), id, hs[1..]))
  }

  ghost predicate SafeRun(hs: seq<Happening>, id: Identity) {
    forall h :: h in hs ==> SafeHappening(h, id)
  }

  lemma {:induction false} RunKeepsSource(w: World, made: set<Made>, id: Identity, hs: seq<Happening>)
    requires Sourced(w, made, id) && UnforgedRun(w, made, id, hs)
    ensures Sourced(AfterHappenings(w, hs), MadeOver(w, made, id, hs), id)
    ensures KeyKept(w, id) && SafeRun(hs, id) ==> KeyKept(AfterHappenings(w, hs), id)
    decreases hs
  {
    hide Sourced, AfterHappening, MadeAfter, Unforged, KeyKept, SafeHappening;
    if hs != [] {
      HappeningKeepsSource(w, made, id, hs[0]);
      if KeyKept(w, id) && SafeRun(hs, id) {
        assert hs[0] in hs;
        HappeningKeepsKey(w, made, id, hs[0]);
      }
      RunKeepsSource(AfterHappening(w, hs[0]), MadeAfter(w, made, id, hs[0]), id, hs[1..]);
    }
  }

  /**
   Under any faults, replays and changes of cells, after any run: a session that opens under the vault's
   data key has contents that a creation or save of the run encrypted for that very slot and generation,
   and it opens whatever the pointer cell holds.
   */
  lemma WhatOpensWasMade(
    w: World, made: set<Made>, id: Identity, hs: seq<Happening>, phrase: Phrase, pointer: Option<Text>)
    requires Sourced(w, made, id) && UnforgedRun(w, made, id, hs)
    ensures OpensMade(AfterHappenings(w, hs).cells, MadeOver(w, made, id, hs), id, phrase, pointer)
  {
    hide Select, AfterHappenings, MadeOver, UnforgedRun, UsableMeta, GenuineCells, AllWellMade, WasMade, KeyKept, SafeRun;
    RunKeepsSource(w, made, id, hs);
    var cells := AfterHappenings(w, hs).cells;
    if Select(cells, phrase).Ok? && Select(cells, phrase).value.dek == id.dek {
      SelectedIsSourced(cells, phrase, MadeOver(w, made, id, hs), id);
      SourcedIgnoresPointer(cells, phrase, MadeOver(w, made, id, hs), id, pointer);
    }
  }

  /**
   If metadata is only ever replaced by metadata of the vault or by something unusable: after any run the
   stored metadata, if usable, and the live session, if any, have the data key of creation; no two slots
   tie, so nothing that any phrase opens depends on the pointer cell.
   */
  lemma RunsKeepKeyAndNeverTie(
    w: World, made: set<Made>, id: Identity, hs: seq<Happening>, phrase: Phrase, p: Option<Text>, q: Option<Text>)
    requires Sourced(w, made, id) && UnforgedRun(w, made, id, hs) && KeyKept(w, id) && SafeRun(hs, id)
    ensures var end := AfterHappenings(w, hs);
            && KeyKept(end, id) && !Tied(end.cells, phrase)
            && (end.live.Some? ==> IdentityOf(end.live.value.vault) == id && MetaOf(end.live.value.meta, id))
            && (Select(end.cells, phrase).Ok? ==> Select(end.cells, phrase).value.dek == id.dek)
            && Select(end.cells.(pointer := p), phrase) == Select(end.cells.(pointer := q), phrase)
  {
    hide Select, AfterHappenings, MadeOver, UnforgedRun, UsableMeta, GenuineCells, AllWellMade, SafeRun, SafeMeta, Tied,
         MetaOf, Sound;
    RunKeepsSource(w, made, id, hs);
    var end := AfterHappenings(w, hs);
    ReachableIsUntied(end, MadeOver(w, made, id, hs), id, phrase);
    UntiedIgnoresPointer(end.cells, phrase, p);
    UntiedIgnoresPointer(end.cells, phrase, q);
    if Select(end.cells, phrase).Ok? {
      SelectedHasKey(end.cells, phrase, id);
    }
  }

  // ---- From creation ----

  function CreatedMade(c: Created): Made {
    Made(A, 0, c.session.container, c.initialSlot.nonce)
  }

  lemma CreatedIsMade(phrase: Phrase, config: KdfConfig, now: u64, tape: seq<byte>)
    requires CreateVault(phrase, config, now, tape).Ok?
    ensures var c := CreateVault(phrase, config, now, tape).value;
            var id := IdentityOf(c.session);
            && c.initialSlot.ciphertext == MadeSlot(CreatedMade(c), id).ciphertext
            && WellMade(CreatedMade(c), id)
            && Genuine(Some(SlotText(c.initialSlot)), {CreatedMade(c)}, id)
  {
    hide VaultSlotAad, WrappedDekAad, ContainerLength, SerializeContainer;
    SerializesAsItself(EmptyContainer(CreateVault(phrase, config, now, tape).value.meta.vaultId, now));
    var c := CreateVault(phrase, config, now, tape).value;
    assert MadeCiphertext(c.initialSlot, {CreatedMade(c)}, IdentityOf(c.session));
  }

  /** A new vault's key seals nothing in what was there before. */
  predicate NothingSealed(cells: Cells, dek: Dek) {
    Foreign(cells.a, dek) && Foreign(cells.b, dek)
  }

  lemma ForeignIsGenuine(text: Option<Text>, made: set<Made>, id: Identity)
    requires Foreign(text, id.dek)
    ensures Genuine(text, made, id)
  {
  }

  /** What any creation leaves, wherever it stops, is sourced in its first slot and keeps its key. */
  lemma CreatedCellsAreSourced(
    d: Disk, c: Created, after: Cells, live: Option<Live>, phrase: Phrase, config: KdfConfig, now: u64, tape: seq<byte>)
    requires CreateVault(phrase, config, now, tape) == Ok(c)
    requires NothingSealed(d.cells, c.session.dek)
    requires UnforgedResidue(d.faults, {CreatedMade(c)}, IdentityOf(c.session))
    requires after.a in {d.cells.a, Landed(FaultAt(d, 1), d.cells.a, Some(SlotText(c.initialSlot)))}
    requires after.b == d.cells.b
    requires live in {None, Some(Live(c.session, c.meta))}
    ensures Sourced(World(after, live), {CreatedMade(c)}, IdentityOf(c.session))
  {
    hide CreateVault, Foreign, Genuine, FaultAt, Held, StoresMeta, UsableMeta, CheckCreated, DocumentLength, PhraseOf,
         EmptyContainer, Sound;
    var id := IdentityOf(c.session);
    CreatedIsMade(phrase, config, now, tape);
    CreatedDocuments(phrase, config, now, tape);
    StoredIsMetaOf(c, id);
    IsFirst(c.meta.vaultId, now);
    ForeignIsGenuine(d.cells.a, {CreatedMade(c)}, id);
    ForeignIsGenuine(d.cells.b, {CreatedMade(c)}, id);
    TornIsUnforged(d, 1, {CreatedMade(c)}, id);
  }

  lemma StoredIsMetaOf(c: Created, id: Identity)
    requires StoresMeta(Some(Json(MetaDoc(c.meta))), c.meta, id)
    ensures MetaOf(c.meta, id)
  {
  }

  /** From any residue and wherever the repository's creation stops: the run's start is sourced and keeps the key. */
  lemma InitializeIsSourced(d: Disk, phrase: Phrase, config: KdfConfig, now: u64, tape: seq<byte>)
    requires CreateVault(phrase, config, now, tape).Ok? && d.cells.meta == None
    requires var c := CreateVault(phrase, config, now, tape).value;
             NothingSealed(d.cells, c.session.dek) && UnforgedResidue(d.faults, {CreatedMade(c)}, IdentityOf(c.session))
    ensures var c := CreateVault(phrase, config, now, tape).value;
            var id := IdentityOf(c.session);
            && Sourced(StartOfInitialize(d, c), {CreatedMade(c)}, id)
            && (SafeResidue(d.faults, id) ==> KeyKept(StartOfInitialize(d, c), id))
  {
    hide CreateVault, AfterInitialize, FaultAt, UsableMeta, Held, DocumentLength, CheckCreated, PhraseOf, EmptyContainer,
         MetaOf, Sound, NothingSealed, UnforgedResidue, Sourced, WriteDone;
    var c := CreateVault(phrase, config, now, tape).value;
    CreatedDocuments(phrase, config, now, tape);
    InitializeReachesMetadata(d, c);
    var w := StartOfInitialize(d, c);
    CreatedCellsAreSourced(d, c, w.cells, w.live, phrase, config, now, tape);
    if SafeResidue(d.faults, IdentityOf(c.session)) {
      TornIsSafe(d, 3, IdentityOf(c.session));
    }
    NoMetaIsSafe(IdentityOf(c.session));
  }

  lemma TornIsSafe(d: Disk, n: nat, id: Identity)
    requires SafeResidue(d.faults, id)
    ensures FaultAt(d, n).Tears? ==> SafeMeta(FaultAt(d, n).residue, id)
  {
    hide SafeMeta;
  }

  lemma NoMetaIsSafe(id: Identity)
    ensures SafeMeta(None, id)
  {
  }

  /** The same for creation driven from JavaScript. */
  lemma CreateSessionIsSourced(d: Disk, phrase: Phrase, now: u64, tape: seq<byte>)
    requires CreateVault(phrase, DEFAULT_KDF_CONFIG, now, tape).Ok? && d.cells.meta == None
    requires var c := CreateVault(phrase, DEFAULT_KDF_CONFIG, now, tape).value;
             NothingSealed(d.cells, c.session.dek) && UnforgedResidue(d.faults, {CreatedMade(c)}, IdentityOf(c.session))
    ensures var c := CreateVault(phrase, DEFAULT_KDF_CONFIG, now, tape).value;
            var id := IdentityOf(c.session);
            var w := StartOfCreateSession(d, phrase, now, tape);
            && Sourced(w, {CreatedMade(c)}, id)
            && (SafeResidue(d.faults, id) ==> KeyKept(w, id))
  {
    hide CreateVault, PersistCreated, FaultAt, UsableMeta, Held, DocumentLength, CheckCreated, PhraseOf, EmptyContainer,
         MetaOf, Sound, NothingSealed, UnforgedResidue, Sourced, WriteDone;
    var c := CreateVault(phrase, DEFAULT_KDF_CONFIG, now, tape).value;
    CreatedDocuments(phrase, DEFAULT_KDF_CONFIG, now, tape);
    CreateSessionReachesMetadata(d, phrase, now, tape);
    var w := StartOfCreateSession(d, phrase, now, tape);
    CreatedCellsAreSourced(d, c, w.cells, w.live, phrase, DEFAULT_KDF_CONFIG, now, tape);
    if SafeResidue(d.faults, IdentityOf(c.session)) {
      TornIsSafe(d, 3, IdentityOf(c.session));
    }
    NoMetaIsSafe(IdentityOf(c.session));
  }

  /** Whatever opens under the data key was made for its slot and generation, whatever the pointer cell holds. */
  ghost predicate OpensOnlyMade(cells: Cells, made: set<Made>, id: Identity) {
    forall p: Phrase, pointer: Option<Text> :: OpensMade(cells, made, id, p, pointer)
  }

  ghost predicate OpensMade(cells: Cells, made: set<Made>, id: Identity, p: Phrase, pointer: Option<Text>) {
    var r := Select(cells, p);
    r.Ok? && r.value.dek == id.dek ==>
      && WasMade(r.value.container, r.value.slot, made) && IdentityOf(r.value) == id
      && r.value.slot == SideOf(r.value.container.generation)
      && Select(cells.(pointer := pointer), p) == r
  }

  /** What any phrase opens does not depend on the pointer cell, and has the data key. */
  ghost predicate KeyAloneDecides(cells: Cells, id: Identity) {
    forall p: Phrase, pointer: Option<Text> ::
      && Select(cells.(pointer := pointer), p) == Select(cells, p)
      && (Select(cells, p).Ok? ==> Select(cells, p).value.dek == id.dek)
  }

  lemma SourcedThenAnyRun(w: World, made: set<Made>, id: Identity, hs: seq<Happening>)
    requires Sourced(w, made, id) && UnforgedRun(w, made, id, hs)
    ensures OpensOnlyMade(AfterHappenings(w, hs).cells, MadeOver(w, made, id, hs), id)
    ensures KeyKept(w, id) && SafeRun(hs, id) ==>
      KeyKept(AfterHappenings(w, hs), id) && KeyAloneDecides(AfterHappenings(w, hs).cells, id)
  {
    hide Sourced, UnforgedRun, Select, OpensMade, AfterHappenings, MadeOver, KeyKept, SafeRun;
    var cells := AfterHappenings(w, hs).cells;
    forall p: Phrase, pointer: Option<Text> ensures OpensMade(cells, MadeOver(w, made, id, hs), id, p, pointer) {
      WhatOpensWasMade(w, made, id, hs, p, pointer);
    }
    if KeyKept(w, id) && SafeRun(hs, id) {
      forall p: Phrase, pointer: Option<Text>
        ensures Select(cells.(pointer := pointer), p) == Select(cells, p)
        ensures Select(cells, p).Ok? ==> Select(cells, p).value.dek == id.dek
      {
        RunsKeepKeyAndNeverTie(w, made, id, hs, p, pointer, cells.pointer);
        assert cells.(pointer := cells.pointer) == cells;
      }
      RunKeepsSource(w, made, id, hs);
    }
  }

  /**
   From a creation by the repository, over residue of other keys, stopped anywhere, and after any run with
   any faults and tampering: what opens under the new key was made for its slot; and if metadata is only
   replaced by the vault's own or by something unusable, the key of creation decides alone.
   */
  lemma CreationThenProvenance(
    d: Disk, phrase: Phrase, config: KdfConfig, now: u64, tape: seq<byte>, hs: seq<Happening>)
    requires CreateVault(phrase, config, now, tape).Ok? && d.cells.meta == None
    requires var c := CreateVault(phrase, config, now, tape).value;
             var id := IdentityOf(c.session);
             && NothingSealed(d.cells, id.dek) && UnforgedResidue(d.faults, {CreatedMade(c)}, id)
             && UnforgedRun(StartOfInitialize(d, c), {CreatedMade(c)}, id, hs)
    ensures var c := CreateVault(phrase, config, now, tape).value;
            var id := IdentityOf(c.session);
            var w := StartOfInitialize(d, c);
            var end := AfterHappenings(w, hs);
            && OpensOnlyMade(end.cells, MadeOver(w, {CreatedMade(c)}, id, hs), id)
            && (SafeResidue(d.faults, id) && SafeRun(hs, id) ==> KeyKept(end, id) && KeyAloneDecides(end.cells, id))
  {
    hide CreateVault, AfterInitialize, Sourced, UnforgedRun, UnforgedResidue, NothingSealed, SafeResidue, SafeRun, KeyKept,
         OpensOnlyMade, KeyAloneDecides, AfterHappenings, MadeOver;
    var c := CreateVault(phrase, config, now, tape).value;
    InitializeIsSourced(d, phrase, config, now, tape);
    SourcedThenAnyRun(StartOfInitialize(d, c), {CreatedMade(c)}, IdentityOf(c.session), hs);
  }

  /** The same from a creation from JavaScript. */
  lemma CreateSessionThenProvenance(d: Disk, phrase: Phrase, now: u64, tape: seq<byte>, hs: seq<Happening>)
    requires CreateVault(phrase, DEFAULT_KDF_CONFIG, now, tape).Ok? && d.cells.meta == None
    requires var c := CreateVault(phrase, DEFAULT_KDF_CONFIG, now, tape).value;
             var id := IdentityOf(c.session);
             && NothingSealed(d.cells, id.dek) && UnforgedResidue(d.faults, {CreatedMade(c)}, id)
             && UnforgedRun(StartOfCreateSession(d, phrase, now, tape), {CreatedMade(c)}, id, hs)
    ensures var c := CreateVault(phrase, DEFAULT_KDF_CONFIG, now, tape).value;
            var id := IdentityOf(c.session);
            var w := StartOfCreateSession(d, phrase, now, tape);
            var end := AfterHappenings(w, hs);
            && OpensOnlyMade(end.cells, MadeOver(w, {CreatedMade(c)}, id, hs), id)
            && (SafeResidue(d.faults, id) && SafeRun(hs, id) ==> KeyKept(end, id) && KeyAloneDecides(end.cells, id))
  {
    hide CreateVault, AfterCreateSession, Sourced, UnforgedRun, UnforgedResidue, NothingSealed, SafeResidue, SafeRun,
         KeyKept, OpensOnlyMade, KeyAloneDecides, AfterHappenings, MadeOver;
    var c := CreateVault(phrase, DEFAULT_KDF_CONFIG, now, tape).value;
    CreateSessionIsSourced(d, phrase, now, tape);
    SourcedThenAnyRun(StartOfCreateSession(d, phrase, now, tape), {CreatedMade(c)}, IdentityOf(c.session), hs);
  }
}
