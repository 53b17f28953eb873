/**
 Whole runs over one vault: edits, saves by either protocol, openings, phrase changes and crashes in
 any order and under any admissible faults. The ledger is what an observer of results is promised.
 */
module Runs {
  import opened Wrappers
  import opened Bytes
  import opened Aad
  import opened Model
  import opened JsonLength
  import opened Validation
  import opened Vault
  import opened VaultProperties
  import opened Device
  import opened Repository
  import opened OpenProperties
  import opened SaveProperties
  import opened Bridge
  import opened BridgeProperties
  import opened Persistence
  import opened Refinement
  import opened Recovery

  /** An unlocked session and the metadata it holds. */
  datatype Live = Live(vault: Session, meta: Meta)

  datatype World = World(cells: Cells, live: Option<Live>)

  /** The last committed contents and phrase, and those attempted since without a confirmed end. */
  datatype Ledger = Ledger(
    durable: Container, attempts: set<Container>, phrase: Phrase, phraseAttempts: set<Phrase>)

  datatype Event =
    | Edited(request: Request)
    | RepositorySaved(tape: seq<byte>, faults: seq<Fault>)
    | SplitSaved(tape: seq<byte>, faults: seq<Fault>, lockAt: nat)
    | RepositoryOpened(phrase: Phrase, faults: seq<Fault>)
    | SplitOpened(phrase: Phrase, faults: seq<Fault>)
    | PhraseChanged(current: Phrase, replacement: Phrase, tape: seq<byte>, faults: seq<Fault>, lockAt: nat)
    | Crashed

  function LiveOf(b: BridgeState): Option<Live> {
    if b.vault.Some? && b.meta.Some? then Some(Live(b.vault.value, b.meta.value)) else None
  }

  function BridgeOf(live: Live): BridgeState {
    Unlocked(live.vault, live.meta)
  }

  function After(w: World, e: Event): World {
    match e
    case Edited(request) =>
      if w.live.None? then w
      else
        var v := w.live.value.vault;
        w.(live := Some(w.live.value.(vault := v.(container := AfterEdit(v.container, request)))))
    case RepositorySaved(tape, faults) =>
      if w.live.None? then w
      else
        var s := AfterSave(Disk(w.cells, faults), w.live.value.vault, tape);
        World(s.disk.cells, Some(w.live.value.(vault := s.session)))
    case SplitSaved(tape, faults, lockAt) =>
      if w.live.None? then w
      else
        var j := AfterSaveSession(Disk(w.cells, faults), BridgeOf(w.live.value), tape, lockAt);
        World(j.disk.cells, LiveOf(j.bridge))
    case RepositoryOpened(phrase, faults) =>
      var o := AfterOpen(Disk(w.cells, faults), phrase);
      World(o.disk.cells,
            if o.result.Ok? && UsableMeta(w.cells.meta).Ok?
            then Some(Live(o.result.value.session, UsableMeta(w.cells.meta).value))
            else w.live)
    case SplitOpened(phrase, faults) =>
      var j := AfterOpenSession(Disk(w.cells, faults), phrase);
      World(j.disk.cells, if j.result.Ok? then LiveOf(j.bridge) else w.live)
    case PhraseChanged(current, replacement, tape, faults, lockAt) =>
      if w.live.None? then w
      else
        var j := AfterChangePhrase(Disk(w.cells, faults), BridgeOf(w.live.value), current, replacement, tape, lockAt);
        World(j.disk.cells, LiveOf(j.bridge))
    case Crashed => w.(live := None)
  }

  /** What a save of this session attempts to write: its contents, one generation on. */
  function Attempted(v: Session, tape: seq<byte>): set<Container> {
    if v.container.generation < U64_MAX && EncryptForSlot(v, v.slot.Other(), tape).Ok?
    then {NextContainer(v.container)} else {}
  }

  /** The ledger after an event, from the event's reported result alone. */
  function Noted(l: Ledger, w: World, e: Event): Ledger {
    match e
    case Edited(_) => l
    case RepositorySaved(tape, faults) =>
      if w.live.None? then l
      else NotedSave(l, w.live.value.vault, tape, AfterSave(Disk(w.cells, faults), w.live.value.vault, tape).result.Ok?)
    case SplitSaved(tape, faults, lockAt) =>
      if w.live.None? then l
      else NotedSave(l, w.live.value.vault, tape,
                     AfterSaveSession(Disk(w.cells, faults), BridgeOf(w.live.value), tape, lockAt).result.Ok?)
    case RepositoryOpened(phrase, faults) =>
      var o := AfterOpen(Disk(w.cells, faults), phrase);
      if o.result.Ok? then Ledger(o.result.value.session.container, {}, phrase, {}) else l
    case SplitOpened(phrase, faults) =>
      var j := AfterOpenSession(Disk(w.cells, faults), phrase);
      if j.result.Ok? && j.bridge.vault.Some? then Ledger(j.bridge.vault.value.container, {}, phrase, {}) else l
    case PhraseChanged(current, replacement, tape, faults, lockAt) =>
      if w.live.None? then l
      else
        var j := AfterChangePhrase(Disk(w.cells, faults), BridgeOf(w.live.value), current, replacement, tape, lockAt);
        if j.result.Ok? then l.(phrase := replacement, phraseAttempts := {})
        else l.(phraseAttempts := l.phraseAttempts + {replacement})
    case Crashed => l
  }

  function NotedSave(l: Ledger, v: Session, tape: seq<byte>, ok: bool): Ledger {
    if ok && v.container.generation < U64_MAX then l.(durable := NextContainer(v.container), attempts := {})
    else l.(attempts := l.attempts + Attempted(v, tape))
  }

  // ---- The faults a run may meet ----

  /** Torn writes leave nothing sealed under the vault's data key. */
  ghost predicate Benign(faults: seq<Fault>, dek: Dek) {
    forall f :: f in faults && f.Tears? ==> Foreign(f.residue, dek)
  }

  /**
   Torn writes leave foreign residue, slot reads of an opening work, the metadata cell is replaced as a
   whole, and no save through the bridge reports success for a slot beyond the limit that opening applies.
   */
  ghost predicate Admissible(w: World, e: Event, dek: Dek) {
    match e
    case Edited(_) => true
    case RepositorySaved(_, faults) => Benign(faults, dek)
    case SplitSaved(tape, faults, _) =>
      && Benign(faults, dek)
      && (w.live.Some? ==>
            || Fits(w.live.value.vault, tape)
            || AfterSaveSession(Disk(w.cells, faults), BridgeOf(w.live.value), tape, e.lockAt).result.Err?)
    case RepositoryOpened(_, faults) => SlotReadsWork(Disk(w.cells, faults))
    case SplitOpened(_, _) => true
    case PhraseChanged(_, _, _, faults, _) => !FaultAt(Disk(w.cells, faults), 0).Tears?
    case Crashed => true
  }

  predicate Fits(v: Session, tape: seq<byte>) {
    var slot := EncryptForSlot(v, v.slot.Other(), tape);
    slot.Ok? ==> SlotLength(slot.value) <= MAX_SLOT_JSON_BYTES
  }

  // ---- The invariant ----

  /** Slot A holds even generations and slot B odd ones. */
  function SideOf(generation: nat): SlotId {
    if generation % 2 == 0 then A else B
  }

  /** What the other slot may hold beside the committed one. */
  predicate Beside(other: Option<Container>, l: Ledger) {
    other.None?
    || (&& SideOf(other.value.generation) == SideOf(l.durable.generation).Other()
        && (other.value.generation < l.durable.generation
            || (other.value.generation == l.durable.generation + 1 && other.value in l.attempts)))
  }

  predicate SlotsInv(cells: Cells, l: Ledger, id: Identity) {
    var side := SideOf(l.durable.generation);
    && Held(cells.At(SlotKey(side)), side, id) == Some(l.durable)
    && Beside(Held(cells.At(SlotKey(side.Other())), side.Other(), id), l)
  }

  ghost predicate MetaInv(text: Option<Text>, l: Ledger, id: Identity) {
    && UsableMeta(text).Ok?
    && StoresMeta(text, UsableMeta(text).value, id)
    && PhraseOf(UsableMeta(text).value).value in {l.phrase} + l.phraseAttempts
  }

  /** A live session stands at the committed generation, in the committed slot, of the same vault. */
  predicate LiveInv(live: Live, l: Ledger, id: Identity) {
    && IdentityOf(live.vault) == id
    && live.vault.container.generation == l.durable.generation
    && live.vault.slot == SideOf(l.durable.generation)
    && Sound(live.vault.container)
    && MetaOf(live.meta, id)
  }

  ghost predicate Inv(w: World, l: Ledger, id: Identity) {
    && SlotsInv(w.cells, l, id)
    && MetaInv(w.cells.meta, l, id)
    && (w.live.Some? ==> LiveInv(w.live.value, l, id))
  }

  // ---- Each event keeps it ----

  lemma LiveIsBridge(live: Live, l: Ledger, id: Identity)
    requires LiveInv(live, l, id)
    ensures BridgeInv(BridgeOf(live)) && EnsureMutable(BridgeOf(live)).Ok?
  {
    hide Sound, Unwraps, PendingFits;
  }

  /** The inactive slot's new text decides what is beside the committed slot after a save. */
  lemma SlotsAfterWrite(
    cells: Cells, after: Cells, v: Session, tape: seq<byte>, fault: Fault, ok: bool, l: Ledger, id: Identity, meta: Meta)
    requires SlotsInv(cells, l, id) && LiveInv(Live(v, meta), l, id)
    requires EncryptForSlot(v, v.slot.Other(), tape).Ok?
    requires SlotLength(SlotToWrite(v, tape)) <= MAX_SLOT_JSON_BYTES
    requires fault.Tears? ==> Foreign(fault.residue, id.dek)
    requires var key := SlotKey(v.slot.Other());
             && after.At(SlotKey(v.slot)) == cells.At(SlotKey(v.slot))
             && (after.At(key) == cells.At(key)
                 || after.At(key) == Landed(fault, cells.At(key), Some(SlotText(SlotToWrite(v, tape)))))
             && (ok ==> after.At(key) == Some(SlotText(SlotToWrite(v, tape))))
    ensures SlotsInv(after, NotedSave(l, v, tape, ok), id)
    ensures ok ==> v.container.generation < U64_MAX
                   && LiveInv(Live(Advanced(v), meta), NotedSave(l, v, tape, ok), id)
    ensures !ok ==> LiveInv(Live(v, meta), NotedSave(l, v, tape, ok), id)
  {
    hide EncryptForSlot, Held, SlotLength, MetaOf, Sound, Foreign;
    EncryptedIsHeld(v, tape);
    if fault.Tears? {
      ForeignHoldsNothing(fault.residue, v.slot.Other(), id);
    }
    NextIsSound(v.container);
  }

  lemma NextIsSound(c: Container)
    ensures Sound(c) && c.generation < U64_MAX ==> Sound(NextContainer(c))
  {
  }

  lemma RepositorySaveKeeps(w: World, l: Ledger, id: Identity, tape: seq<byte>, faults: seq<Fault>)
    requires Inv(w, l, id) && w.live.Some? && Benign(faults, id.dek)
    ensures Inv(After(w, RepositorySaved(tape, faults)), Noted(l, w, RepositorySaved(tape, faults)), id)
  {
    hide AfterSave, EncryptForSlot, SlotsInv, LiveInv, SlotLength, MetaInv, Foreign, Sound;
    var live := w.live.value;
    var d := Disk(w.cells, faults);
    LiveIsSound(live, l, id);
    SaveOnDevice(d, live.vault, tape);
    var s := AfterSave(d, live.vault, tape);
    if EncryptForSlot(live.vault, live.vault.slot.Other(), tape).Ok?
      && SlotLength(SlotToWrite(live.vault, tape)) <= MAX_SLOT_JSON_BYTES
    {
      SlotsAfterWrite(w.cells, s.disk.cells, live.vault, tape, d.Next(), s.result.Ok?, l, id, live.meta);
    } else {
      MoreAttempts(w.cells, live, l, Attempted(live.vault, tape), id);
    }
    SamePhrases(w.cells.meta, l, NotedSave(l, live.vault, tape, s.result.Ok?), id);
  }

  lemma LiveIsSound(live: Live, l: Ledger, id: Identity)
    requires LiveInv(live, l, id)
    ensures Sound(live.vault.container)
  {
  }

  lemma MoreAttempts(cells: Cells, live: Live, l: Ledger, more: set<Container>, id: Identity)
    requires SlotsInv(cells, l, id) && LiveInv(live, l, id)
    ensures SlotsInv(cells, l.(attempts := l.attempts + more), id)
    ensures LiveInv(live, l.(attempts := l.attempts + more), id)
  {
    hide Held, Sound, MetaOf;
  }

  lemma SamePhrases(text: Option<Text>, l: Ledger, m: Ledger, id: Identity)
    requires MetaInv(text, l, id) && m.phrase == l.phrase && m.phraseAttempts == l.phraseAttempts
    ensures MetaInv(text, m, id)
  {
    hide UsableMeta, StoresMeta, PhraseOf;
  }

  /** A failed save of an oversize slot leaves beside the committed slot what was there, or nothing of use. */
  lemma OversizeFailureKeeps(w: World, l: Ledger, id: Identity, tape: seq<byte>, faults: seq<Fault>, lockAt: nat)
    requires Inv(w, l, id) && w.live.Some? && Benign(faults, id.dek) && !Fits(w.live.value.vault, tape)
    requires AfterSaveSession(Disk(w.cells, faults), BridgeOf(w.live.value), tape, lockAt).result.Err?
    ensures Inv(After(w, SplitSaved(tape, faults, lockAt)), Noted(l, w, SplitSaved(tape, faults, lockAt)), id)
  {
    hide AfterSaveSession, EncryptForSlot, SlotsInv, LiveInv, SlotLength, MetaInv, BridgeInv, EnsureMutable, Foreign,
         StopOfSplit, Held;
    var live := w.live.value;
    var v := live.vault;
    var d := Disk(w.cells, faults);
    LiveIsBridge(live, l, id);
    SplitOutcome(d, BridgeOf(live), tape, lockAt);
    var slot := SlotToWrite(v, tape);
    OversizeHoldsNothing(slot, v.slot.Other(), id);
    if FaultAt(d, 0).Tears? {
      ForeignHoldsNothing(FaultAt(d, 0).residue, v.slot.Other(), id);
    }
    BesideLost(w.cells, After(w, SplitSaved(tape, faults, lockAt)).cells, live, l, id);
    MoreAttempts(After(w, SplitSaved(tape, faults, lockAt)).cells, live, l, Attempted(v, tape), id);
    SamePhrases(w.cells.meta, l, NotedSave(l, v, tape, false), id);
  }

  /** Losing what is beside the committed slot does no harm. */
  lemma BesideLost(cells: Cells, after: Cells, live: Live, l: Ledger, id: Identity)
    requires SlotsInv(cells, l, id) && LiveInv(live, l, id)
    requires var side := live.vault.slot;
             && after.At(SlotKey(side)) == cells.At(SlotKey(side))
             && (after.At(SlotKey(side.Other())) == cells.At(SlotKey(side.Other()))
                 || Held(after.At(SlotKey(side.Other())), side.Other(), id) == None)
    ensures SlotsInv(after, l, id)
  {
    hide Held, Sound, MetaOf;
  }

  /** A split save leaves what the repository's save leaves under some faults no worse than those met. */
  lemma SplitSaveKeeps(w: World, l: Ledger, id: Identity, tape: seq<byte>, faults: seq<Fault>, lockAt: nat)
    requires Inv(w, l, id) && w.live.Some? && Benign(faults, id.dek)
    requires Fits(w.live.value.vault, tape)
             || AfterSaveSession(Disk(w.cells, faults), BridgeOf(w.live.value), tape, lockAt).result.Err?
    ensures Inv(After(w, SplitSaved(tape, faults, lockAt)), Noted(l, w, SplitSaved(tape, faults, lockAt)), id)
  {
    hide AfterSave, AfterSaveSession, EncryptForSlot, SlotsInv, LiveInv, SlotLength, MetaInv, MonolithicFaults, BridgeInv,
         EnsureMutable, Foreign;
    var live := w.live.value;
    var b := BridgeOf(live);
    var d := Disk(w.cells, faults);
    LiveIsBridge(live, l, id);
    if !Fits(live.vault, tape) {
      OversizeFailureKeeps(w, l, id, tape, faults, lockAt);
    } else if EncryptForSlot(live.vault, live.vault.slot.Other(), tape).Ok? {
      SplitRefinesMonolithic(d, b, tape, lockAt);
      var mapped := MonolithicFaults(d, SlotToWrite(live.vault, tape), lockAt);
      RepositorySaveKeeps(w, l, id, tape, mapped);
    } else {
      RefusedAlike(d, b, tape, lockAt);
      MoreAttempts(w.cells, live, l, Attempted(live.vault, tape), id);
      SamePhrases(w.cells.meta, l, NotedSave(l, live.vault, tape, false), id);
    }
  }

  /** The newest of what the slots hold: the committed contents, or an attempt one generation on. */
  function Newest(cells: Cells, l: Ledger, id: Identity): Container {
    var other := SideOf(l.durable.generation).Other();
    match Held(cells.At(SlotKey(other)), other, id)
    case Some(c) => if c.generation > l.durable.generation then c else l.durable
    case None => l.durable
  }

  /** With the slots in order, the wrapping phrase opens the newest contents whatever the pointer cell holds. */
  lemma OpensNewest(cells: Cells, l: Ledger, id: Identity, pointer: Option<Text>, phrase: Phrase)
    requires SlotsInv(cells, l, id) && MetaInv(cells.meta, l, id)
    ensures var newest := Newest(cells, l, id);
            && Select(cells.(pointer := pointer), phrase)
               == (if PhraseOf(UsableMeta(cells.meta).value) == Some(phrase)
                   then Ok(Session(newest, id.dek, SideOf(newest.generation)))
                   else Err(WrongPasswordOrCorruptedVault))
            && newest in {l.durable} + l.attempts
            && newest.vaultId == id.vaultId && newest.createdAt == id.createdAt && Sound(newest)
  {
    hide Select, UsableMeta, UsablePointer, Held, Sound, MetaOf, PhraseOf;
    var at := cells.(pointer := pointer);
    assert at.a == cells.a && at.b == cells.b && at.meta == cells.meta;
    SelectByHeld(at, phrase, UsableMeta(cells.meta).value, id);
  }

  /** Once opened, what was newest is committed: it stays, and anything beside it is older. */
  lemma OpeningSettles(cells: Cells, after: Cells, l: Ledger, id: Identity, phrase: Phrase)
    requires SlotsInv(cells, l, id) && MetaInv(cells.meta, l, id)
    requires after == cells.(pointer := after.pointer)
    requires PhraseOf(UsableMeta(cells.meta).value) == Some(phrase)
    ensures var newest := Newest(cells, l, id);
            var m := Ledger(newest, {}, phrase, {});
            var live := Live(Session(newest, id.dek, SideOf(newest.generation)), UsableMeta(cells.meta).value);
            Inv(World(after, Some(live)), m, id)
  {
    hide Held, UsableMeta, PhraseOf, Sound, Unwraps;
    OpensNewest(cells, l, id, None, phrase);
  }

  lemma SameSlots(cells: Cells, after: Cells, l: Ledger, id: Identity)
    requires SlotsInv(cells, l, id) && after.a == cells.a && after.b == cells.b
    ensures SlotsInv(after, l, id)
  {
    hide Held;
  }

  lemma RepositoryOpenKeeps(w: World, l: Ledger, id: Identity, phrase: Phrase, faults: seq<Fault>)
    requires Inv(w, l, id) && SlotReadsWork(Disk(w.cells, faults))
    ensures Inv(After(w, RepositoryOpened(phrase, faults)), Noted(l, w, RepositoryOpened(phrase, faults)), id)
  {
    hide AfterOpen, Select, SlotsInv, MetaInv, LiveInv, UsableMeta, Newest, PhraseOf, UsablePointer;
    var d := Disk(w.cells, faults);
    var o := AfterOpen(d, phrase);
    OpenOnDevice(d, phrase);
    assert Seen(d) == w.cells.(pointer := PointerSeen(d));
    OpensNewest(w.cells, l, id, PointerSeen(d), phrase);
    if o.result.Ok? {
      OpeningSettles(w.cells, o.disk.cells, l, id, phrase);
      StoredMetaReads(w.cells.meta, l, id);
    } else {
      SameSlots(w.cells, o.disk.cells, l, id);
    }
  }

  lemma StoredMetaReads(text: Option<Text>, l: Ledger, id: Identity)
    requires MetaInv(text, l, id)
    ensures UsableMeta(text).Ok? && text == Some(Json(MetaDoc(UsableMeta(text).value)))
  {
    hide UsableMeta, MetaOf, PhraseOf;
  }

  /** A snapshot is all four cells or nothing, and reading changes none of them. */
  lemma SnapshotIsCells(d: Disk)
    ensures LoadSnapshot(d).disk.cells == d.cells
    ensures LoadSnapshot(d).result.Ok? ==> LoadSnapshot(d).result.value == d.cells
  {
  }

  /** Opening through the bridge yields what the cells select, and touches only the pointer. */
  lemma OpenSessionSelects(d: Disk, phrase: Phrase)
    ensures var j := AfterOpenSession(d, phrase);
            && j.disk.cells == d.cells.(pointer := j.disk.cells.pointer)
            && (j.result.Ok? ==>
                  && Select(d.cells, phrase).Ok? && UsableMeta(d.cells.meta).Ok?
                  && j.bridge == Unlocked(Select(d.cells, phrase).value, UsableMeta(d.cells.meta).value)
                  && UsablePointer(j.disk.cells.pointer) == Some(PointerTo(Select(d.cells, phrase).value)))
            && (j.result.Err? ==> j.bridge == LOCKED)
  {
    hide AfterOpen, Select, LoadSnapshot, AdapterSet, UsablePointer;
    SnapshotIsCells(d);
    OpenOnDevice(Disk(d.cells, []), phrase);
    SelectReadsMeta(d.cells, phrase);
    if Select(d.cells, phrase).Ok? {
      RepairIsPointer(d.cells, phrase);
    }
  }

  /**
   Why an opening from JavaScript fails: a read that fails rejects the snapshot; then metadata that is
   missing or is none; then what the selection says; last the write of a pointer to repair.
   */
  lemma OpenSessionSaysWhy(d: Disk, phrase: Phrase)
    requires AfterOpenSession(d, phrase).result.Err?
    ensures var e := AfterOpenSession(d, phrase).result.error;
            if LoadSnapshot(d).result.Err? then e == DeviceFailure(Storage(ReadFailed))
            else
              match d.cells.meta
              case None => e == BridgeFailure(MissingMetadata)
              case Some(text) =>
                if Parse(text).None? || !Parse(text).value.MetaDoc? then e == BridgeFailure(VaultFailure(InvalidMetadata))
                else if Select(d.cells, phrase).Err? then e == BridgeFailure(VaultFailure(Select(d.cells, phrase).error))
                else e in {WriteNotVerified, DeviceFailure(Storage(ReadFailed))}
  {
    hide AfterOpen, Select, UsablePointer;
    SnapshotIsCells(d);
    OpenFailsAsSelected(d.cells, phrase);
  }

  lemma OpenFailsAsSelected(cells: Cells, phrase: Phrase)
    ensures match AfterOpen(Disk(cells, []), phrase).result
            case Ok(_) => Select(cells, phrase).Ok?
            case Err(e) => Select(cells, phrase) == Err(e)
  {
    hide Choose, UsableSlot, UsablePointer, UsableMeta, DocumentLength;
    if Select(cells, phrase).Ok? {
      PointerFits(PointerTo(Select(cells, phrase).value));
      PointerDocLength(PointerTo(Select(cells, phrase).value));
    }
  }

  lemma SelectReadsMeta(cells: Cells, phrase: Phrase)
    ensures Select(cells, phrase).Ok? ==>
      && cells.meta.Some? && UsableMeta(cells.meta).Ok?
      && Parse(cells.meta.value) == Some(MetaDoc(UsableMeta(cells.meta).value))
  {
    hide Choose, UsableSlot, UsablePointer, TextLength, ValidMeta;
  }

  /** A repair in memory leaves exactly the text of the right pointer. */
  lemma RepairIsPointer(cells: Cells, phrase: Phrase)
    requires Select(cells, phrase).Ok?
    ensures var v := Select(cells, phrase).value;
            var after := AfterOpen(Disk(cells, []), phrase);
            && after.result.Ok?
            && (after.result.value.repaired ==>
                  after.disk.cells.pointer == Some(PointerText(v.slot, v.container.generation)))
            && UsablePointer(Some(PointerText(v.slot, v.container.generation))) == Some(PointerTo(v))
  {
    hide WriteVerified, UsableMeta, UsablePointer, UsableSlot, Choose, DocumentLength;
    var v := Select(cells, phrase).value;
    PointerTextIsUsable(v.slot, v.container.generation);
    PointerFits(PointerTo(v));
    PointerDocLength(PointerTo(v));
  }

  lemma SplitOpenKeeps(w: World, l: Ledger, id: Identity, phrase: Phrase, faults: seq<Fault>)
    requires Inv(w, l, id)
    ensures Inv(After(w, SplitOpened(phrase, faults)), Noted(l, w, SplitOpened(phrase, faults)), id)
  {
    hide AfterOpenSession, Select, SlotsInv, MetaInv, LiveInv, UsableMeta, Newest, PhraseOf, UsablePointer;
    var d := Disk(w.cells, faults);
    var j := AfterOpenSession(d, phrase);
    OpenSessionSelects(d, phrase);
    OpensNewest(w.cells, l, id, w.cells.pointer, phrase);
    assert w.cells.(pointer := w.cells.pointer) == w.cells;
    if j.result.Ok? {
      OpeningSettles(w.cells, j.disk.cells, l, id, phrase);
    } else {
      SameSlots(w.cells, j.disk.cells, l, id);
    }
  }

  /** A phrase change touches only the metadata cell, which ends up old, new or, if its write tears, as the residue. */
  lemma ChangeOnDevice(d: Disk, b: BridgeState, current: Phrase, replacement: Phrase, tape: seq<byte>, lockAt: nat)
    requires BridgeInv(b) && EnsureMutable(b).Ok?
    ensures var j := AfterChangePhrase(d, b, current, replacement, tape, lockAt);
            var rewrapped := RewrapVaultKey(current, replacement, b.meta.value, b.vault.value, DEFAULT_KDF_CONFIG, tape);
            && j.disk.cells == d.cells.(meta := j.disk.cells.meta)
            && (rewrapped.Err? ==> j == JsStep(Err(BridgeFailure(VaultFailure(rewrapped.error))), d, b))
            && (rewrapped.Ok? ==>
                  && (if FaultAt(d, 0).Tears? then j.disk.cells.meta == FaultAt(d, 0).residue
                      else j.disk.cells.meta in {d.cells.meta, Some(Json(MetaDoc(rewrapped.value)))})
                  && (j.result.Ok? ==>
                        && j.disk.cells.meta == Some(Json(MetaDoc(rewrapped.value)))
                        && j.bridge == b.(meta := Some(rewrapped.value)))
                  && (j.result.Err? ==> j.bridge == b || j.bridge == LOCKED))
  {
    hide RewrapVaultKey, MetaOf, Sound;
  }

  lemma PhraseChangeKeeps(
    w: World, l: Ledger, id: Identity, current: Phrase, replacement: Phrase, tape: seq<byte>,
    faults: seq<Fault>, lockAt: nat)
    requires Inv(w, l, id) && w.live.Some? && !FaultAt(Disk(w.cells, faults), 0).Tears?
    ensures var e := PhraseChanged(current, replacement, tape, faults, lockAt);
            Inv(After(w, e), Noted(l, w, e), id)
  {
    hide AfterChangePhrase, RewrapVaultKey, SlotsInv, UsableMeta, BridgeInv, EnsureMutable, Sound, Unwraps, PhraseOf;
    var live := w.live.value;
    var d := Disk(w.cells, faults);
    LiveIsBridge(live, l, id);
    ChangeOnDevice(d, BridgeOf(live), current, replacement, tape, lockAt);
    var j := AfterChangePhrase(d, BridgeOf(live), current, replacement, tape, lockAt);
    var rewrapped := RewrapVaultKey(current, replacement, live.meta, live.vault, DEFAULT_KDF_CONFIG, tape);
    var m := Noted(l, w, PhraseChanged(current, replacement, tape, faults, lockAt));
    LedgerPhrasesOnly(w.cells, j.disk.cells, l, m, id);
    if rewrapped.Ok? {
      RewrappedMeta(current, replacement, live.meta, live.vault, tape, id);
      StoredMetaIsUsable(Some(Json(MetaDoc(rewrapped.value))), rewrapped.value, id);
    }
  }

  lemma LedgerPhrasesOnly(cells: Cells, after: Cells, l: Ledger, m: Ledger, id: Identity)
    requires SlotsInv(cells, l, id) && after.a == cells.a && after.b == cells.b
    requires m.durable == l.durable && m.attempts == l.attempts
    ensures SlotsInv(after, m, id)
  {
    hide Held;
  }

  lemma RewrappedMeta(current: Phrase, replacement: Phrase, meta: Meta, v: Session, tape: seq<byte>, id: Identity)
    requires IdentityOf(v) == id
    requires RewrapVaultKey(current, replacement, meta, v, DEFAULT_KDF_CONFIG, tape).Ok?
    ensures var m := RewrapVaultKey(current, replacement, meta, v, DEFAULT_KDF_CONFIG, tape).value;
            MetaOf(m, id) && PhraseOf(m) == Some(replacement)
  {
    hide WrappedDekAad;
  }

  lemma EditKeeps(w: World, l: Ledger, id: Identity, request: Request)
    requires Inv(w, l, id)
    ensures Inv(After(w, Edited(request)), l, id)
  {
    hide SlotsInv, MetaInv, AfterEdit, Sound, MetaOf;
    if w.live.Some? {
      LiveIsSound(w.live.value, l, id);
      EditKeepsSound(w.live.value.vault.container, request);
    }
  }

  lemma EventKeeps(w: World, l: Ledger, id: Identity, e: Event)
    requires Inv(w, l, id) && Admissible(w, e, id.dek)
    ensures Inv(After(w, e), Noted(l, w, e), id)
  {
    hide SlotsInv, MetaInv, LiveInv, AfterSave, AfterSaveSession, AfterOpen, AfterOpenSession, AfterChangePhrase,
         SlotReadsWork, Fits, Benign;
    match e
    case Edited(request) => EditKeeps(w, l, id, request);
    case RepositorySaved(tape, faults) =>
      if w.live.Some? {
        RepositorySaveKeeps(w, l, id, tape, faults);
      }
    case SplitSaved(tape, faults, lockAt) =>
      if w.live.Some? {
        SplitSaveKeeps(w, l, id, tape, faults, lockAt);
      }
    case RepositoryOpened(phrase, faults) => RepositoryOpenKeeps(w, l, id, phrase, faults);
    case SplitOpened(phrase, faults) => SplitOpenKeeps(w, l, id, phrase, faults);
    case PhraseChanged(current, replacement, tape, faults, lockAt) =>
      if w.live.Some? {
        PhraseChangeKeeps(w, l, id, current, replacement, tape, faults, lockAt);
      }
    case Crashed =>
  }

  // ---- Whole runs ----

  function AfterRun(w: World, events: seq<Event>): World
    decreases events
  {
    if events == [] then w else AfterRun(After(w, events[0]), events[1..])
  }

  function NotedRun(l: Ledger, w: World, events: seq<Event>): Ledger
    decreases events
  {
    if events == [] then l else NotedRun(Noted(l, w, events[0]), After(w, events[0]), events[1..])
  }

  ghost predicate AdmissibleRun(w: World, events: seq<Event>, dek: Dek)
    decreases events
  {
    events == [] || (Admissible(w, events[0], dek) && AdmissibleRun(After(w, events[0]), events[1..], dek))
  }

  lemma {:induction false} RunKeeps(w: World, l: Ledger, id: Identity, events: seq<Event>)
    requires Inv(w, l, id) && AdmissibleRun(w, events, id.dek)
    ensures Inv(AfterRun(w, events), NotedRun(l, w, events), id)
    decreases events
  {
    hide Inv, After, Noted, Admissible;
    if events != [] {
      EventKeeps(w, l, id, events[0]);
      RunKeeps(After(w, events[0]), Noted(l, w, events[0]), id, events[1..]);
    }
  }

  /** A store from which one phrase, and no other, opens given contents, whatever the pointer holds. */
  ghost predicate OpensOnly(cells: Cells, phrase: Phrase, v: Session) {
    forall p: Phrase, pointer: Option<Text> ::
      Select(cells.(pointer := pointer), p) == if p == phrase then Ok(v) else Err(WrongPasswordOrCorruptedVault)
  }

  /**
   Crash atomicity. After any run there is exactly one phrase that opens the store: the last committed
   one, or one whose change was attempted since. It opens, whatever the pointer cell holds, the last
   committed contents or contents of a save attempted since, with the data key of creation.
   */
  lemma CrashAtomicity(w: World, l: Ledger, id: Identity, events: seq<Event>)
    requires Inv(w, l, id) && AdmissibleRun(w, events, id.dek)
    ensures var end := AfterRun(w, events);
            var m := NotedRun(l, w, events);
            exists phrase, v ::
              && OpensOnly(end.cells, phrase, v)
              && phrase in {m.phrase} + m.phraseAttempts
              && v.container in {m.durable} + m.attempts
              && v.dek == id.dek && v.slot == SideOf(v.container.generation)
  {
    hide Inv, Select, AfterRun, NotedRun, AdmissibleRun;
    RunKeeps(w, l, id, events);
    InvOpensOnly(AfterRun(w, events), NotedRun(l, w, events), id);
  }

  lemma InvOpensOnly(w: World, l: Ledger, id: Identity)
    requires Inv(w, l, id)
    ensures exists phrase, v ::
              && OpensOnly(w.cells, phrase, v)
              && phrase in {l.phrase} + l.phraseAttempts
              && v.container in {l.durable} + l.attempts
              && v.dek == id.dek && v.slot == SideOf(v.container.generation)
  {
    hide Select, SlotsInv, LiveInv, UsableMeta, PhraseOf, Newest, StoresMeta;
    StoredMetaHasPhrase(w.cells.meta, l, id);
    var phrase := PhraseOf(UsableMeta(w.cells.meta).value).value;
    var newest := Newest(w.cells, l, id);
    var v := Session(newest, id.dek, SideOf(newest.generation));
    forall p: Phrase, pointer: Option<Text>
      ensures Select(w.cells.(pointer := pointer), p) == if p == phrase then Ok(v) else Err(WrongPasswordOrCorruptedVault)
    {
      OpensNewest(w.cells, l, id, pointer, p);
    }
    OpensNewest(w.cells, l, id, None, phrase);
    assert OpensOnly(w.cells, phrase, v);
  }

  lemma StoredMetaHasPhrase(text: Option<Text>, l: Ledger, id: Identity)
    requires MetaInv(text, l, id)
    ensures UsableMeta(text).Ok? && PhraseOf(UsableMeta(text).value).Some?
  {
    hide UsableMeta, PhraseOf;
  }

  /** A device without faults then opens it: nothing between the cells and the session can go wrong. */
  lemma FaultFreeOpenSucceeds(cells: Cells, phrase: Phrase, v: Session)
    requires OpensOnly(cells, phrase, v)
    ensures AfterOpen(Disk(cells, []), phrase).result.Ok?
    ensures AfterOpen(Disk(cells, []), phrase).result.value.session == v
  {
    hide AfterOpen, Select;
    OpenOnDevice(Disk(cells, []), phrase);
    assert cells.(pointer := cells.pointer) == cells;
  }

  /** No save, by either protocol, ever writes the slot that holds the committed contents. */
  lemma SavesSpareCommittedSlot(w: World, l: Ledger, id: Identity, e: Event)
    requires Inv(w, l, id) && (e.RepositorySaved? || e.SplitSaved?)
    ensures var side := SideOf(l.durable.generation);
            After(w, e).cells.At(SlotKey(side)) == w.cells.At(SlotKey(side))
    ensures After(w, e).cells.meta == w.cells.meta
  {
    hide SlotsInv, MetaInv, EncryptForSlot, SlotLength, AfterSave, AfterSaveSession, Sound, MetaOf, SlotText;
    if w.live.Some? {
      var live := w.live.value;
      match e
      case RepositorySaved(tape, faults) => SaveOnDevice(Disk(w.cells, faults), live.vault, tape);
      case SplitSaved(tape, faults, lockAt) =>
        LiveIsBridge(live, l, id);
        if EncryptForSlot(live.vault, live.vault.slot.Other(), tape).Ok? {
          SplitOutcome(Disk(w.cells, faults), BridgeOf(live), tape, lockAt);
        } else {
          RefusedAlike(Disk(w.cells, faults), BridgeOf(live), tape, lockAt);
        }
      case _ =>
    }
  }

  // ---- What the fault hypothesis on slot reads is for ----

  /** Whether an opening's read of one slot works. */
  predicate ReadsSlot(d: Disk, side: SlotId) {
    match side
    case A => FaultAt(d, 2).Works?
    case B => FaultAt(d, 3).Works?
  }

  /**
   In every reachable state, an opening that succeeds yields the newest contents exactly if it could
   read their slot. Otherwise it rolls back to the older contents in the other slot, points at them,
   and a later save that succeeds replaces the newest for good.
   */
  lemma OpeningIsNewestIffRead(w: World, l: Ledger, id: Identity, phrase: Phrase, faults: seq<Fault>, tape: seq<byte>)
    requires Inv(w, l, id)
    requires AfterOpen(Disk(w.cells, faults), phrase).result.Ok?
    ensures UsableMeta(w.cells.meta).Ok?
    ensures var d := Disk(w.cells, faults);
            var newest := Newest(w.cells, l, id);
            var v := AfterOpen(d, phrase).result.value.session;
            && PhraseOf(UsableMeta(w.cells.meta).value) == Some(phrase)
            && v.dek == id.dek && v.slot == SideOf(v.container.generation)
            && (v.container == newest <==> ReadsSlot(d, SideOf(newest.generation)))
            && (v.container != newest ==>
                  && v.container.generation < newest.generation
                  && v.slot == SideOf(newest.generation).Other()
                  && var s := AfterSave(Disk(AfterOpen(d, phrase).disk.cells, []), v, tape);
                     s.result.Ok? && EncryptForSlot(v, v.slot.Other(), tape).Ok? ==>
                       s.disk.cells.At(SlotKey(SideOf(newest.generation))) == Some(SlotText(SlotToWrite(v, tape))))
  {
    hide AfterOpen, AfterSave, Select, UsableMeta, UsablePointer, Held, Sound, MetaOf, PhraseOf, LiveInv, EncryptForSlot,
         SlotLength, Preferred;
    var d := Disk(w.cells, faults);
    OpenOnDevice(d, phrase);
    StoredMetaReads(w.cells.meta, l, id);
    var seen := Seen(d);
    SelectByHeld(seen, phrase, UsableMeta(w.cells.meta).value, id);
    HeldNothing(A, id);
    HeldNothing(B, id);
    var v := AfterOpen(d, phrase).result.value.session;
    SelectedSession(seen, phrase);
    NewerIsPreferred(UsablePointer(seen.pointer), seen, id);
    SaveOnDevice(Disk(AfterOpen(d, phrase).disk.cells, []), v, tape);
  }

  /**
   From every reachable state, opening again without faults yields the vault an opening yielded if and
   only if that opening could read the slot of the newest contents.
   */
  lemma ReopensAlikeIffRead(w: World, l: Ledger, id: Identity, phrase: Phrase, faults: seq<Fault>)
    requires Inv(w, l, id)
    requires AfterOpen(Disk(w.cells, faults), phrase).result.Ok?
    ensures var d := Disk(w.cells, faults);
            var first := AfterOpen(d, phrase);
            var again := AfterOpen(Disk(first.disk.cells, []), phrase);
            && again.result.Ok?
            && (again.result.value.session == first.result.value.session
                <==> ReadsSlot(d, SideOf(Newest(w.cells, l, id).generation)))
  {
    hide AfterOpen, Select, UsableMeta, MetaInv, SlotsInv, LiveInv, PhraseOf, Newest, ReadsSlot, UsablePointer;
    var d := Disk(w.cells, faults);
    var first := AfterOpen(d, phrase);
    OpeningIsNewestIffRead(w, l, id, phrase, faults, []);
    OpenOnDevice(d, phrase);
    StoredMetaReads(w.cells.meta, l, id);
    OpensNewest(w.cells, l, id, first.disk.cells.pointer, phrase);
    OpenOnDevice(Disk(first.disk.cells, []), phrase);
  }

  lemma HeldNothing(side: SlotId, id: Identity)
    ensures Held(None, side, id) == None
  {
  }

  lemma NewerIsPreferred(pointer: Option<Pointer>, cells: Cells, id: Identity)
    ensures var a := Held(cells.a, A, id);
            var b := Held(cells.b, B, id);
            a.Some? && b.Some? && a.value.generation != b.value.generation ==>
              (Preferred(pointer, a.value, b.value) == if a.value.generation < b.value.generation then B else A)
  {
    hide Held;
  }
}
