/** The two-slot repository: recoverable creation, opening over untrusted values, and verified saves. */
module Repository {
  import opened Wrappers
  import opened Bytes
  import opened Aad
  import opened Model
  import opened JsonLength
  import opened Validation
  import opened Crypto
  import opened Vault
  import opened Device

  // ---- Reading untrusted text ----

  function DecodeMeta(text: Text): Result<Meta, VaultError> {
    if TextLength(text) > MAX_METADATA_JSON_BYTES then Err(VaultTooLarge)
    else match Parse(text)
      case Some(MetaDoc(m)) => Ok(m)
      case _ => Err(SerializationFailed)
  }

  function DecodeSlot(text: Text): Result<Slot, VaultError> {
    if TextLength(text) > MAX_SLOT_JSON_BYTES then Err(VaultTooLarge)
    else match Parse(text)
      case Some(SlotDoc(s)) => Ok(s)
      case _ => Err(SerializationFailed)
  }

  function DecodePointer(text: Text): Result<Pointer, VaultError> {
    if TextLength(text) > MAX_ACTIVE_POINTER_BYTES then Err(VaultTooLarge)
    else match Parse(text)
      case Some(PointerDoc(p)) => Ok(p)
      case _ => Err(SerializationFailed)
  }

  /** A value that cannot be read counts as absent. */
  function Readable(r: Result<Option<Text>, VaultError>): Option<Text> {
    match r
    case Ok(text) => text
    case Err(_) => None
  }

  function UsableMeta(text: Option<Text>): (r: Result<Meta, VaultError>)
    ensures r.Ok? ==> ValidMeta(r.value)
  {
    match text
    case None => Err(Uninitialized)
    case Some(t) =>
      var m :- DecodeMeta(t);
      var _ :- CheckMeta(m);
      Ok(m)
  }

  function UsablePointer(text: Option<Text>): Option<Pointer> {
    match text
    case None => None
    case Some(t) =>
      match DecodePointer(t)
      case Ok(p) => if ValidPointer(p) then Some(p) else None
      case Err(_) => None
  }

  /** A stored slot worth decrypting: within its limit, well-formed, labelled for its key and its vault. */
  function UsableSlot(text: Option<Text>, side: SlotId, vaultId: VaultId): (r: Option<Slot>)
    ensures r.Some? ==> r.value.slot == side && ValidSlot(r.value, vaultId)
  {
    match text
    case None => None
    case Some(t) =>
      match DecodeSlot(t)
      case Ok(s) => if s.slot == side && ValidSlot(s, vaultId) then Some(s) else None
      case Err(_) => None
  }

  /** Text is accepted as metadata exactly if it is within 16 KiB and parses as valid metadata. */
  lemma MetaIsUsableExactly(text: Option<Text>, m: Meta)
    ensures UsableMeta(text) == Ok(m) <==>
      && text.Some? && TextLength(text.value) <= 16_384
      && Parse(text.value) == Some(MetaDoc(m)) && ValidMeta(m)
  {
    hide TextLength, ValidMeta;
  }

  /** Text is accepted as a slot exactly if it is within 5 MiB, parses, and is valid for the vault and its key. */
  lemma SlotIsUsableExactly(text: Option<Text>, side: SlotId, vaultId: VaultId, s: Slot)
    ensures UsableSlot(text, side, vaultId) == Some(s) <==>
      && text.Some? && TextLength(text.value) <= 5_242_880
      && Parse(text.value) == Some(SlotDoc(s)) && s.slot == side && ValidSlot(s, vaultId)
  {
    hide TextLength, ValidSlot;
  }

  /** Text is accepted as a pointer exactly if it is within 1 KiB and parses as a pointer of version 1. */
  lemma PointerIsUsableExactly(text: Option<Text>, p: Pointer)
    ensures UsablePointer(text) == Some(p) <==>
      text.Some? && TextLength(text.value) <= 1024 && Parse(text.value) == Some(PointerDoc(p)) && p.version == 1
  {
    hide TextLength;
  }

  /** The container a usable slot authenticates, if it belongs with the metadata. */
  function Recovered(slot: Option<Slot>, dek: Dek, createdAt: u64): Option<Container> {
    match slot
    case None => None
    case Some(s) =>
      match DecryptContainer(dek, s)
      case Ok(c) => if c.createdAt == createdAt then Some(c) else None
      case Err(_) => None
  }

  predicate Names(pointer: Option<Pointer>, slot: SlotId, generation: u64) {
    pointer.Some? && pointer.value.slot == slot && pointer.value.generation == generation
  }

  /** Which of two authenticated containers is selected: the newer, and of equals the one pointed at. */
  function Preferred(pointer: Option<Pointer>, a: Container, b: Container): SlotId {
    if a.generation < b.generation then B
    else if a.generation == b.generation && Names(pointer, B, b.generation) && !Names(pointer, A, a.generation) then B
    else A
  }

  /** What opening selects from metadata, a pointer and two usable slots. */
  function Choose(meta: Meta, pointer: Option<Pointer>, a: Option<Slot>, b: Option<Slot>, phrase: Phrase)
    : Result<Session, VaultError>
  {
    if a.None? && b.None? then Err(WrongPasswordOrCorruptedVault)
    else
      var kek :- DeriveKek(phrase, meta.vaultId, meta.kdf);
      var dek :- UnwrapDek(kek, meta.wrappedDek, meta.vaultId);
      match (Recovered(a, dek, meta.createdAt), Recovered(b, dek, meta.createdAt))
      case (None, None) => Err(WrongPasswordOrCorruptedVault)
      case (Some(ca), None) => Ok(Session(ca, dek, A))
      case (None, Some(cb)) => Ok(Session(cb, dek, B))
      case (Some(ca), Some(cb)) =>
        if Preferred(pointer, ca, cb).A? then Ok(Session(ca, dek, A)) else Ok(Session(cb, dek, B))
  }

  function PointerTo(v: Session): Pointer {
    Pointer(FORMAT_VERSION, v.slot, v.container.generation)
  }

  // ---- Operations, on values ----

  /** A write is done when the exact text is read back. Whatever happens, no other cell changes. */
  function WriteVerified(d: Disk, key: StorageKey, doc: Document, maximum: nat): (s: Step<()>)
    ensures s.disk.cells == d.cells.With(key, s.disk.cells.At(key))
    ensures s.result.Ok? ==> s.disk.cells.At(key) == Some(Json(doc)) && DocumentLength(doc) <= maximum
    ensures s.disk.cells.At(key) == d.cells.At(key)
         || s.disk.cells.At(key) == Landed(d.Next(), d.cells.At(key), Some(Json(doc)))
    ensures DocumentLength(doc) > maximum ==> s == Step(Err(VaultTooLarge), d)
    ensures DocumentLength(doc) <= maximum ==>
      s.disk.cells.At(key) == Landed(d.Next(), d.cells.At(key), Some(Json(doc)))
    ensures d.faults == [] && DocumentLength(doc) <= maximum ==>
      s == Step(Ok(()), Disk(d.cells.With(key, Some(Json(doc))), []))
  {
    if DocumentLength(doc) > maximum then Step(Err(VaultTooLarge), d)
    else
      var written := Set(d, key, Json(doc));
      if written.result.Err? then written
      else
        var stored := Get(written.disk, key);
        match stored.result
        case Err(e) => Step(Err(e), stored.disk)
        case Ok(text) =>
          Step(if text == Some(Json(doc)) then Ok(()) else Err(SlotVerificationFailed), stored.disk)
  }

  function AfterInitialize(d: Disk, created: Created): Step<()> {
    var checked := CheckCreated(created);
    if checked.Err? then Step(checked, d)
    else
      var existing := Get(d, MetaKey);
      match existing.result
      case Err(e) => Step(Err(e), existing.disk)
      case Ok(Some(_)) => Step(Err(AlreadyInitialized), existing.disk)
      case Ok(None) =>
        var s := WriteVerified(existing.disk, SlotKey(created.initialSlot.slot), SlotDoc(created.initialSlot),
                               MAX_SLOT_JSON_BYTES);
        if s.result.Err? then s
        else
          var m := WriteVerified(s.disk, MetaKey, MetaDoc(created.meta), MAX_METADATA_JSON_BYTES);
          if m.result.Err? then m
          else WriteVerified(m.disk, PointerKey, PointerDoc(created.activeSlot), MAX_ACTIVE_POINTER_BYTES)
  }

  function CheckCreated(created: Created): Result<(), VaultError> {
    var _ :- CheckMeta(created.meta);
    var _ :- CheckSlot(created.initialSlot, created.meta.vaultId);
    var _ :- CheckPointer(created.activeSlot);
    if created.initialSlot.slot != created.activeSlot.slot
      || created.initialSlot.generation != created.activeSlot.generation
    then Err(InvalidSlot)
    else Ok(())
  }

  /** A session recovered from storage, and whether the stored pointer had to be rewritten. */
  datatype Opened = Opened(session: Session, repaired: bool)

  function AfterOpen(d: Disk, phrase: Phrase): Step<Opened> {
    var m := Get(d, MetaKey);
    match (match m.result case Err(e) => Err(e) case Ok(text) => UsableMeta(text))
    case Err(e) => Step(Err(e), m.disk)
    case Ok(meta) =>
      var p := Get(m.disk, PointerKey);
      var a := Get(p.disk, SlotKey(A));
      var b := Get(a.disk, SlotKey(B));
      var pointer := UsablePointer(Readable(p.result));
      match Choose(meta, pointer, UsableSlot(Readable(a.result), A, meta.vaultId),
                   UsableSlot(Readable(b.result), B, meta.vaultId), phrase)
      case Err(e) => Step(Err(e), b.disk)
      case Ok(session) =>
        if pointer == Some(PointerTo(session)) then Step(Ok(Opened(session, false)), b.disk)
        else
          var w := WriteVerified(b.disk, PointerKey, PointerDoc(PointerTo(session)), MAX_ACTIVE_POINTER_BYTES);
          Step(match w.result case Err(e) => Err(e) case Ok(_) => Ok(Opened(session, true)), w.disk)
  }

  datatype SaveStep = SaveStep(result: Result<(), VaultError>, disk: Disk, session: Session)

  /** The slot read back after it was written, if it is the one the session may commit. */
  function ReadBack(r: Result<Option<Text>, VaultError>, v: Session): Result<Slot, VaultError> {
    var text :- r;
    match text
    case None => Err(Uninitialized)
    case Some(t) =>
      var stored :- DecodeSlot(t);
      var _ :- CheckSlot(stored, v.container.vaultId);
      var _ :- CheckNextSlot(v, stored);
      Ok(stored)
  }

  function AfterSave(d: Disk, v: Session, tape: seq<byte>): SaveStep {
    var target := v.slot.Other();
    match EncryptForSlot(v, target, tape)
    case Err(e) => SaveStep(Err(e), d, v)
    case Ok(slot) =>
      var w := WriteVerified(d, SlotKey(target), SlotDoc(slot), MAX_SLOT_JSON_BYTES);
      if w.result.Err? then SaveStep(w.result, w.disk, v)
      else
        var g := Get(w.disk, SlotKey(target));
        match ReadBack(g.result, v)
        case Err(e) => SaveStep(Err(e), g.disk, v)
        case Ok(stored) =>
          var p := WriteVerified(g.disk, PointerKey, PointerDoc(Pointer(FORMAT_VERSION, target, slot.generation)),
                                 MAX_ACTIVE_POINTER_BYTES);
          if p.result.Err? then SaveStep(p.result, p.disk, v)
          else
            var committed := CheckNextSlot(v, stored);
            SaveStep(committed, p.disk, if committed.Ok? then Committed(v, stored) else v)
  }

  /** Why a write or a removal fails: too large, a report, then a failed readback, then a readback of something else. */
  lemma VerifiedStepsSayWhy(d: Disk, key: StorageKey, doc: Document, maximum: nat)
    ensures var s := WriteVerified(d, key, doc, maximum);
            s.result == if DocumentLength(doc) > maximum then Err(VaultTooLarge)
                        else if Reports(d.Next()) then Err(Storage(WriteFailed))
                        else if !Disk(d.cells, d.Rest()).Next().Works? then Err(Storage(ReadFailed))
                        else if s.disk.cells.At(key) != Some(Json(doc)) then Err(SlotVerificationFailed)
                        else s.result
    ensures var s := RemoveChecked(d, key);
            s.result == if Reports(d.Next()) then Err(Storage(RemoveFailed))
                        else if !Disk(d.cells, d.Rest()).Next().Works? then Err(Storage(ReadFailed))
                        else if s.disk.cells.At(key) != None then Err(SlotVerificationFailed)
                        else s.result
    ensures WriteVerified(d, key, doc, maximum).result.Ok? <==>
      && DocumentLength(doc) <= maximum && !Reports(d.Next()) && Disk(d.cells, d.Rest()).Next().Works?
      && Landed(d.Next(), d.cells.At(key), Some(Json(doc))) == Some(Json(doc))
    ensures RemoveChecked(d, key).result.Ok? <==>
      && !Reports(d.Next()) && Disk(d.cells, d.Rest()).Next().Works? && Landed(d.Next(), d.cells.At(key), None) == None
  {
    hide DocumentLength;
  }

  const CLEAR_ORDER: seq<StorageKey> := [MetaKey, SlotKey(A), SlotKey(B), PointerKey]

  /** A removal is done when nothing is read back. */
  function RemoveChecked(d: Disk, key: StorageKey): (s: Step<()>)
    ensures s.disk.cells == d.cells.With(key, s.disk.cells.At(key))
    ensures s.result.Ok? ==> s.disk.cells.At(key) == None
    ensures s.disk.cells.At(key) == Landed(d.Next(), d.cells.At(key), None)
  {
    var removed := Remove(d, key);
    if removed.result.Err? then removed
    else
      var stored := Get(removed.disk, key);
      Step(match stored.result
           case Err(e) => Err(e)
           case Ok(text) => if text.Some? then Err(SlotVerificationFailed) else Ok(()),
           stored.disk)
  }

  function ClearAll(d: Disk, keys: seq<StorageKey>): Step<()>
    decreases keys
  {
    if keys == [] then Step(Ok(()), d)
    else
      var r := RemoveChecked(d, keys[0]);
      if r.result.Err? then r else ClearAll(r.disk, keys[1..])
  }

  /** Which cells a fault-free device would let a phrase open, and as what session. */
  function Select(cells: Cells, phrase: Phrase): Result<Session, VaultError> {
    var meta :- UsableMeta(cells.meta);
    Choose(meta, UsablePointer(cells.pointer), UsableSlot(cells.a, A, meta.vaultId),
           UsableSlot(cells.b, B, meta.vaultId), phrase)
  }

  /** Why an opening fails: metadata that is missing, oversize, no metadata or invalid, or else nothing authenticates. */
  lemma OpeningSaysWhy(cells: Cells, phrase: Phrase)
    requires Select(cells, phrase).Err?
    ensures var e := Select(cells, phrase).error;
            match cells.meta
            case None => e == Uninitialized
            case Some(text) =>
              if TextLength(text) > 16_384 then e == VaultTooLarge
              else
                match Parse(text)
                case Some(MetaDoc(m)) =>
                  if CheckMeta(m).Err? then e == CheckMeta(m).error else e == WrongPasswordOrCorruptedVault
                case _ => e == SerializationFailed
  {
    hide TextLength, CheckMeta, UsableSlot, UsablePointer, Recovered, Preferred, WrappedDekAad;
  }

  // ---- The object ----

  datatype Candidate = Candidate(slot: Slot, container: Container)

  /** True when the right candidate has to come before the left one. */
  predicate Outranks(pointer: Option<Pointer>, right: Candidate, left: Candidate) {
    || left.slot.generation < right.slot.generation
    || (&& left.slot.generation == right.slot.generation
        && Names(pointer, right.slot.slot, right.slot.generation)
        && !Names(pointer, left.slot.slot, left.slot.generation))
  }

  /** The stable sort of at most two candidates, best first. */
  function SortCandidates(pointer: Option<Pointer>, candidates: seq<Candidate>): seq<Candidate>
    requires |candidates| <= 2
  {
    if |candidates| == 2 && Outranks(pointer, candidates[1], candidates[0])
    then [candidates[1], candidates[0]]
    else candidates
  }

  class TwoSlotRepository {
    const storage: DeviceStorage

    constructor (storage: DeviceStorage)
      ensures this.storage == storage
    {
      this.storage := storage;
    }

    method WriteJsonVerified(key: StorageKey, doc: Document, maximum: nat) returns (r: Result<(), VaultError>)
      modifies storage
      ensures Step(r, storage.Value()) == WriteVerified(old(storage.Value()), key, doc, maximum)
    {
      if DocumentLength(doc) > maximum {
        return Err(VaultTooLarge);
      }
      var written := storage.SetItem(key, Json(doc));
      if written.Err? {
        return written;
      }
      var stored := storage.GetItem(key);
      if stored.Err? {
        return Err(stored.error);
      }
      if stored.value != Some(Json(doc)) {
        return Err(SlotVerificationFailed);
      }
      return Ok(());
    }

    method Initialize(created: Created) returns (r: Result<(), VaultError>)
      modifies storage
      ensures Step(r, storage.Value()) == AfterInitialize(old(storage.Value()), created)
    {
      hide WriteVerified;
      var checked := CheckCreated(created);
      if checked.Err? {
        return checked;
      }
      var existing := storage.GetItem(MetaKey);
      if existing.Err? {
        return Err(existing.error);
      }
      if existing.value.Some? {
        return Err(AlreadyInitialized);
      }
      r := WriteJsonVerified(SlotKey(created.initialSlot.slot), SlotDoc(created.initialSlot), MAX_SLOT_JSON_BYTES);
      if r.Err? {
        return;
      }
      r := WriteJsonVerified(MetaKey, MetaDoc(created.meta), MAX_METADATA_JSON_BYTES);
      if r.Err? {
        return;
      }
      r := WriteJsonVerified(PointerKey, PointerDoc(created.activeSlot), MAX_ACTIVE_POINTER_BYTES);
    }

    method Save(vault: UnlockedVault, tape: seq<byte>) returns (r: Result<(), VaultError>)
      modifies storage, vault
      ensures SaveStep(r, storage.Value(), vault.Value())
           == AfterSave(old(storage.Value()), old(vault.Value()), tape)
    {
      hide WriteVerified, EncryptForSlot, CheckNextSlot, DecodeSlot;
      var v := vault.Value();
      var target := v.slot.Other();
      var encrypted := EncryptForSlot(v, target, tape);
      if encrypted.Err? {
        return Err(encrypted.error);
      }
      r := WriteJsonVerified(SlotKey(target), SlotDoc(encrypted.value), MAX_SLOT_JSON_BYTES);
      if r.Err? {
        return;
      }
      var text := storage.GetItem(SlotKey(target));
      var stored := ReadBack(text, v);
      if stored.Err? {
        return Err(stored.error);
      }
      var pointer := Pointer(FORMAT_VERSION, target, encrypted.value.generation);
      r := WriteJsonVerified(PointerKey, PointerDoc(pointer), MAX_ACTIVE_POINTER_BYTES);
      if r.Err? {
        return;
      }
      r := vault.CommitVerifiedSlot(stored.value);
    }

    method ClearDeviceStorage() returns (r: Result<(), VaultError>)
      modifies storage
      ensures Step(r, storage.Value()) == ClearAll(old(storage.Value()), CLEAR_ORDER)
    {
      for i := 0 to |CLEAR_ORDER|
        invariant ClearAll(old(storage.Value()), CLEAR_ORDER) == ClearAll(storage.Value(), CLEAR_ORDER[i..])
      {
        assert CLEAR_ORDER[i..][1..] == CLEAR_ORDER[i + 1..];
        r := storage.RemoveItem(CLEAR_ORDER[i]);
        if r.Err? {
          return;
        }
        var stored := storage.GetItem(CLEAR_ORDER[i]);
        if stored.Err? {
          return Err(stored.error);
        }
        if stored.value.Some? {
          return Err(SlotVerificationFailed);
        }
      }
      return Ok(());
    }

    /** Reads the two slots in order and keeps those worth decrypting. */
    method ReadCandidates(vaultId: VaultId) returns (encrypted: seq<Slot>)
      modifies storage
      ensures var a := Get(old(storage.Value()), SlotKey(A));
              var b := Get(a.disk, SlotKey(B));
              && storage.Value() == b.disk
              && encrypted == Listed(UsableSlot(Readable(a.result), A, vaultId))
                              + Listed(UsableSlot(Readable(b.result), B, vaultId))
    {
      hide UsableSlot;
      ghost var a := Get(storage.Value(), SlotKey(A));
      ghost var b := Get(a.disk, SlotKey(B));
      encrypted := [];
      var labels := [A, B];
      for i := 0 to |labels|
        invariant i == 0 ==> encrypted == [] && storage.Value() == old(storage.Value())
        invariant i == 1 ==> encrypted == Listed(UsableSlot(Readable(a.result), A, vaultId))
                             && storage.Value() == a.disk
        invariant i == 2 ==> encrypted == Listed(UsableSlot(Readable(a.result), A, vaultId))
                                          + Listed(UsableSlot(Readable(b.result), B, vaultId))
                             && storage.Value() == b.disk
      {
        var text := storage.GetItem(SlotKey(labels[i]));
        var slot := UsableSlot(Readable(text), labels[i], vaultId);
        if slot.Some? {
          encrypted := encrypted + [slot.value];
        }
      }
    }

    method Authenticate(encrypted: seq<Slot>, dek: Dek, createdAt: u64) returns (candidates: seq<Candidate>)
      ensures candidates == Authenticated(encrypted, dek, createdAt)
    {
      hide DecryptContainer;
      candidates := [];
      for i := 0 to |encrypted|
        invariant candidates == Authenticated(encrypted[..i], dek, createdAt)
      {
        var container := DecryptContainer(dek, encrypted[i]);
        if container.Ok? && container.value.createdAt == createdAt {
          candidates := candidates + [Candidate(encrypted[i], container.value)];
        }
        assert encrypted[..i + 1][..i] == encrypted[..i];
      }
      assert encrypted[..|encrypted|] == encrypted;
    }

    /** Authenticates the slots worth decrypting, sorts what survives, and takes the best. */
    method SelectCandidate(
      meta: Meta, pointer: Option<Pointer>, encrypted: seq<Slot>, phrase: Phrase,
      ghost a: Option<Slot>, ghost b: Option<Slot>)
      returns (r: Result<Session, VaultError>)
      requires encrypted == Listed(a) + Listed(b)
      requires a.Some? ==> a.value.slot == A
      requires b.Some? ==> b.value.slot == B
      ensures r == Choose(meta, pointer, a, b, phrase)
    {
      hide DeriveKek, UnwrapDek, SortCandidates, Recovered, Found, Authenticated;
      if encrypted == [] {
        return Err(WrongPasswordOrCorruptedVault);
      }
      assert a.Some? || b.Some?;
      var kek := DeriveKek(phrase, meta.vaultId, meta.kdf);
      if kek.Err? {
        return Err(kek.error);
      }
      var dek := UnwrapDek(kek.value, meta.wrappedDek, meta.vaultId);
      if dek.Err? {
        return Err(dek.error);
      }
      var candidates := Authenticate(encrypted, dek.value, meta.createdAt);
      AuthenticatedOfListed(a, b, dek.value, meta.createdAt);
      SortedChoice(meta, pointer, a, b, phrase, kek.value, dek.value);
      candidates := SortCandidates(pointer, candidates);
      if candidates == [] {
        return Err(WrongPasswordOrCorruptedVault);
      }
      return Ok(Session(candidates[0].container, dek.value, candidates[0].slot.slot));
    }

    method Open(phrase: Phrase) returns (r: Result<bool, VaultError>, vault: UnlockedVault?)
      modifies storage
      ensures var after := AfterOpen(old(storage.Value()), phrase);
              && storage.Value() == after.disk
              && (match after.result
                  case Err(e) => r == Err(e) && vault == null
                  case Ok(o) =>
                    r == Ok(o.repaired) && vault != null && fresh(vault) && vault.Value() == o.session)
    {
      hide WriteVerified, UsableMeta, UsablePointer, UsableSlot, Choose;
      vault := null;
      var metaText := storage.GetItem(MetaKey);
      if metaText.Err? {
        return Err(metaText.error), null;
      }
      var usable := UsableMeta(metaText.value);
      if usable.Err? {
        return Err(usable.error), null;
      }
      var meta := usable.value;
      var pointerText := storage.GetItem(PointerKey);
      var pointer := UsablePointer(Readable(pointerText));

      ghost var a := Get(storage.Value(), SlotKey(A));
      ghost var b := Get(a.disk, SlotKey(B));
      var encrypted := ReadCandidates(meta.vaultId);
      var selected := SelectCandidate(meta, pointer, encrypted, phrase,
                                      UsableSlot(Readable(a.result), A, meta.vaultId),
                                      UsableSlot(Readable(b.result), B, meta.vaultId));
      if selected.Err? {
        return Err(selected.error), null;
      }
      var selectedPointer := PointerTo(selected.value);
      var repaired := pointer != Some(selectedPointer);
      if repaired {
        var written := WriteJsonVerified(PointerKey, PointerDoc(selectedPointer), MAX_ACTIVE_POINTER_BYTES);
        if written.Err? {
          return Err(written.error), null;
        }
      }
      vault := new UnlockedVault(selected.value);
      return Ok(repaired), vault;
    }
  }

  function Listed<T>(o: Option<T>): seq<T> {
    match o
    case None => []
    case Some(v) => [v]
  }

  function Found(slot: Option<Slot>, dek: Dek, createdAt: u64): (r: seq<Candidate>)
    ensures |r| <= 1
  {
    match Recovered(slot, dek, createdAt)
    case None => []
    case Some(c) => [Candidate(slot.value, c)]
  }

  /** The candidates among some slots that decrypt to a container of the metadata's age, in order. */
  function Authenticated(slots: seq<Slot>, dek: Dek, createdAt: u64): (r: seq<Candidate>)
    ensures |r| <= |slots|
  {
    if slots == [] then []
    else
      Authenticated(slots[..|slots| - 1], dek, createdAt) + Found(Some(slots[|slots| - 1]), dek, createdAt)
  }

  lemma AuthenticatedOfListed(a: Option<Slot>, b: Option<Slot>, dek: Dek, createdAt: u64)
    ensures Authenticated(Listed(a) + Listed(b), dek, createdAt)
         == Found(a, dek, createdAt) + Found(b, dek, createdAt)
  {
    hide Recovered;
    assert Authenticated([], dek, createdAt) == [];
    assert Recovered(None, dek, createdAt).None? by { RecoversNothing(dek, createdAt); }
    if a.Some? {
      assert [a.value][..0] == [];
      assert Authenticated([a.value], dek, createdAt) == Found(a, dek, createdAt);
    }
    if b.Some? {
      var both := Listed(a) + Listed(b);
      assert both[..|both| - 1] == Listed(a);
    } else {
      assert Listed(a) + Listed(b) == Listed(a);
    }
  }

  /** Sorting the authenticated candidates and taking the first is the choice `Choose` describes. */
  lemma SortedChoice(
    meta: Meta, pointer: Option<Pointer>, a: Option<Slot>, b: Option<Slot>, phrase: Phrase, kek: Key, dek: Dek)
    requires a.Some? || b.Some?
    requires a.Some? ==> a.value.slot == A
    requires b.Some? ==> b.value.slot == B
    requires DeriveKek(phrase, meta.vaultId, meta.kdf) == Ok(kek)
    requires UnwrapDek(kek, meta.wrappedDek, meta.vaultId) == Ok(dek)
    ensures var sorted := SortCandidates(pointer, Found(a, dek, meta.createdAt) + Found(b, dek, meta.createdAt));
            if sorted == [] then Choose(meta, pointer, a, b, phrase) == Err(WrongPasswordOrCorruptedVault)
            else
              && Choose(meta, pointer, a, b, phrase)
                 == Ok(Session(sorted[0].container, dek, sorted[0].slot.slot))
              && sorted[0].slot.generation == sorted[0].container.generation
  {
    hide DecryptContainer, DeriveKek, UnwrapDek, ValidContainer;
    FoundIsLabelled(a, dek, meta.createdAt);
    FoundIsLabelled(b, dek, meta.createdAt);
  }

  lemma FoundIsLabelled(slot: Option<Slot>, dek: Dek, createdAt: u64)
    ensures Recovered(slot, dek, createdAt).Some? ==>
      slot.Some? && Recovered(slot, dek, createdAt).value.generation == slot.value.generation
  {
  }

  lemma RecoversNothing(dek: Dek, createdAt: u64)
    ensures Recovered(None, dek, createdAt) == None
  {
  }
}
