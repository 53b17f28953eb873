/** Opening against its simple specification: unlock each stored slot on its own and take the newest. */
module OpenProperties {
  import opened Wrappers
  import opened Bytes
  import opened Aad
  import opened Model
  import opened JsonLength
  import opened Validation
  import opened Crypto
  import opened Vault
  import opened Device
  import opened Repository

  /** Unlocking one stored slot by itself, if it is within the limit, well-formed and on its own side. */
  function UnlockOne(meta: Meta, text: Option<Text>, side: SlotId, phrase: Phrase): Option<Session> {
    match text
    case None => None
    case Some(t) =>
      match DecodeSlot(t)
      case Err(_) => None
      case Ok(s) =>
        if s.slot != side then None
        else
          match UnlockVault(phrase, meta, s)
          case Ok(v) => Some(v)
          case Err(_) => None
  }

  lemma UnlockOneRecovers(meta: Meta, text: Option<Text>, side: SlotId, phrase: Phrase)
    requires ValidMeta(meta)
    ensures UnlockOne(meta, text, side, phrase)
         == match UnwrapDek(PhraseKey(phrase, meta.vaultId, meta.kdf), meta.wrappedDek, meta.vaultId)
            case Err(_) => None
            case Ok(dek) =>
              match Recovered(UsableSlot(text, side, meta.vaultId), dek, meta.createdAt)
              case None => None
              case Some(c) => Some(Session(c, dek, side))
  {
    hide DecryptContainer, UnwrapDek, TextLength, ValidContainer;
  }

  lemma PhraseFailureIsOneError(meta: Meta, phrase: Phrase)
    requires ValidMeta(meta)
    ensures var r := UnwrapDek(PhraseKey(phrase, meta.vaultId, meta.kdf), meta.wrappedDek, meta.vaultId);
            r.Err? ==> r.error == WrongPasswordOrCorruptedVault
  {
    hide WrappedDekAad;
  }

  /**
   Opening selects the highest generation among the slots that unlock, slot B of two equals exactly if the
   stored pointer is for it, and fails when none does.
   */
  lemma OpenRefinesUnlockEach(cells: Cells, phrase: Phrase)
    ensures match UsableMeta(cells.meta)
            case Err(e) => Select(cells, phrase) == Err(e)
            case Ok(meta) =>
              var a := UnlockOne(meta, cells.a, A, phrase);
              var b := UnlockOne(meta, cells.b, B, phrase);
              match Select(cells, phrase)
              case Err(e) => a.None? && b.None? && e == WrongPasswordOrCorruptedVault
              case Ok(v) =>
                && (a == Some(v) || b == Some(v))
                && (a.Some? ==> a.value.container.generation <= v.container.generation)
                && (b.Some? ==> b.value.container.generation <= v.container.generation)
                && (a.Some? && b.Some? && a.value.container.generation == b.value.container.generation ==>
                      (v == b.value <==> UsablePointer(cells.pointer) == Some(Pointer(1, B, v.container.generation))))
  {
    hide UsableMeta, UsableSlot, UnwrapDek, Recovered, UnlockOne, DecodePointer;
    match UsableMeta(cells.meta)
    case Err(_) =>
    case Ok(meta) =>
      UnlockOneRecovers(meta, cells.a, A, phrase);
      UnlockOneRecovers(meta, cells.b, B, phrase);
      PhraseFailureIsOneError(meta, phrase);
      NothingRecovered(meta.createdAt);
  }

  lemma NothingRecovered(createdAt: u64)
    ensures forall dek :: Recovered(None, dek, createdAt) == None
  {
  }

  lemma UnusableMetaOpensNothing(cells: Cells, phrase: Phrase)
    ensures UsableMeta(cells.meta).Err? ==> Select(cells, phrase).Err?
  {
    hide UsableMeta, Choose;
  }

  // ---- The pointer ----

  ghost predicate Tied(cells: Cells, phrase: Phrase) {
    && UsableMeta(cells.meta).Ok?
    && var meta := UsableMeta(cells.meta).value;
       var a := UnlockOne(meta, cells.a, A, phrase);
       var b := UnlockOne(meta, cells.b, B, phrase);
       a.Some? && b.Some? && a.value.container.generation == b.value.container.generation
  }

  lemma UntiedIgnoresPointer(cells: Cells, phrase: Phrase, pointer: Option<Text>)
    requires !Tied(cells, phrase)
    ensures Select(cells.(pointer := pointer), phrase) == Select(cells, phrase)
  {
    hide UsableMeta, UsablePointer, UsableSlot, UnwrapDek, Recovered, UnlockOne;
    if UsableMeta(cells.meta).Ok? {
      var meta := UsableMeta(cells.meta).value;
      UnlockOneRecovers(meta, cells.a, A, phrase);
      UnlockOneRecovers(meta, cells.b, B, phrase);
    }
  }

  function PointerText(slot: SlotId, generation: u64): Text {
    Json(PointerDoc(Pointer(FORMAT_VERSION, slot, generation)))
  }

  lemma PointerTextIsUsable(slot: SlotId, generation: u64)
    ensures UsablePointer(Some(PointerText(slot, generation))) == Some(Pointer(FORMAT_VERSION, slot, generation))
  {
    PointerFits(Pointer(FORMAT_VERSION, slot, generation));
  }

  lemma TiedFollowsPointer(cells: Cells, phrase: Phrase, side: SlotId)
    requires Tied(cells, phrase)
    ensures var generation := UnlockOne(UsableMeta(cells.meta).value, cells.a, A, phrase).value.container.generation;
            var r := Select(cells.(pointer := Some(PointerText(side, generation))), phrase);
            r.Ok? && r.value.slot == side
  {
    hide UsableMeta, UsablePointer, UsableSlot, UnwrapDek, Recovered, UnlockOne;
    var meta := UsableMeta(cells.meta).value;
    UnlockOneRecovers(meta, cells.a, A, phrase);
    UnlockOneRecovers(meta, cells.b, B, phrase);
    var generation := UnlockOne(meta, cells.a, A, phrase).value.container.generation;
    PointerTextIsUsable(side, generation);
    NothingRecovered(meta.createdAt);
  }

  /** The pointer cell decides what is opened exactly when both slots unlock at one generation. */
  lemma PointerMattersOnlyInTies(cells: Cells, phrase: Phrase)
    ensures (forall p, q :: Select(cells.(pointer := p), phrase) == Select(cells.(pointer := q), phrase))
       <==> !Tied(cells, phrase)
  {
    hide Select, UsableMeta, UnlockOne;
    if Tied(cells, phrase) {
      TiedFollowsPointer(cells, phrase, A);
      TiedFollowsPointer(cells, phrase, B);
    } else {
      forall p, q ensures Select(cells.(pointer := p), phrase) == Select(cells.(pointer := q), phrase) {
        UntiedIgnoresPointer(cells, phrase, p);
        UntiedIgnoresPointer(cells, phrase, q);
      }
    }
  }

  // ---- Opening on a device ----

  function FaultAt(d: Disk, n: nat): Fault {
    if n < |d.faults| then d.faults[n] else Works
  }

  /** The third and fourth operations of an opening, its two slot reads, meet no fault. */
  predicate SlotReadsWork(d: Disk) {
    FaultAt(d, 2).Works? && FaultAt(d, 3).Works?
  }

  /** The pointer text an opening gets to see. */
  function PointerSeen(d: Disk): Option<Text> {
    if FaultAt(d, 1).Works? then d.cells.pointer else None
  }

  /** The cells as an opening gets to see them: what it cannot read counts as absent. */
  function Seen(d: Disk): Cells {
    Cells(d.cells.meta, if FaultAt(d, 2).Works? then d.cells.a else None,
          if FaultAt(d, 3).Works? then d.cells.b else None, PointerSeen(d))
  }

  /** Whatever faults occur, opening changes no cell but the pointer, and selects among what it could read. */
  lemma OpenOnDevice(d: Disk, phrase: Phrase)
    ensures var after := AfterOpen(d, phrase);
            && after.disk.cells == d.cells.(pointer := after.disk.cells.pointer)
            && (after.result.Ok? ==>
                  && Select(Seen(d), phrase) == Ok(after.result.value.session)
                  && UsablePointer(after.disk.cells.pointer) == Some(PointerTo(after.result.value.session)))
            && (d.faults == [] ==>
                  match Select(d.cells, phrase)
                  case Err(e) => after.result == Err(e)
                  case Ok(v) => after.result == Ok(Opened(v, UsablePointer(d.cells.pointer) != Some(PointerTo(v)))))
  {
    hide WriteVerified, UsableMeta, UsablePointer, UsableSlot, Choose, DocumentLength;
    NoPointerIsUnusable();
    forall v: Session
      ensures UsablePointer(Some(Json(PointerDoc(PointerTo(v))))) == Some(PointerTo(v))
      ensures DocumentLength(PointerDoc(PointerTo(v))) <= MAX_ACTIVE_POINTER_BYTES
    {
      PointerTextIsUsable(v.slot, v.container.generation);
      PointerFits(PointerTo(v));
      assert DocumentLength(PointerDoc(PointerTo(v))) == PointerLength(PointerTo(v)) by {
        PointerDocLength(PointerTo(v));
      }
    }
  }

  lemma PointerDocLength(p: Pointer)
    ensures DocumentLength(PointerDoc(p)) == PointerLength(p)
  {
  }

  /** Once a session is selected, a pointer to it selects it again. */
  lemma SelectedPointerSelectsAgain(cells: Cells, phrase: Phrase, pointer: Option<Text>)
    requires Select(cells, phrase).Ok?
    requires UsablePointer(pointer) == Some(PointerTo(Select(cells, phrase).value))
    ensures Select(cells.(pointer := pointer), phrase) == Select(cells, phrase)
  {
    hide UsableMeta, UsablePointer, UsableSlot, UnwrapDek, Recovered;
    NothingRecovered(UsableMeta(cells.meta).value.createdAt);
  }

  /** A successful opening is repeatable: again the same vault, no repair, and nothing written. */
  lemma OpenIsIdempotent(d: Disk, phrase: Phrase)
    requires SlotReadsWork(d)
    requires AfterOpen(d, phrase).result.Ok?
    ensures var after := AfterOpen(d, phrase);
            && Select(after.disk.cells, phrase) == Ok(after.result.value.session)
            && AfterOpen(Disk(after.disk.cells, []), phrase)
               == Step(Ok(Opened(after.result.value.session, false)), Disk(after.disk.cells, []))
  {
    OpenOnDevice(d, phrase);
    var after := AfterOpen(d, phrase);
    var seen := Seen(d);
    SelectedPointerSelectsAgain(seen, phrase, after.disk.cells.pointer);
    assert seen.(pointer := after.disk.cells.pointer) == after.disk.cells;
    QuietOpen(after.disk.cells, phrase);
  }

  /** With a pointer already naming the selected session, a fault-free opening writes nothing. */
  lemma QuietOpen(cells: Cells, phrase: Phrase)
    requires Select(cells, phrase).Ok?
    requires UsablePointer(cells.pointer) == Some(PointerTo(Select(cells, phrase).value))
    ensures AfterOpen(Disk(cells, []), phrase)
         == Step(Ok(Opened(Select(cells, phrase).value, false)), Disk(cells, []))
  {
    hide UsableMeta, UsablePointer, UsableSlot, Choose;
  }

  /** A slot whose read fails counts as missing: opening then falls back to an older generation. */
  lemma UnreadableSlotIsSkipped(cells: Cells, phrase: Phrase, meta: Meta)
    requires UsableMeta(cells.meta) == Ok(meta)
    requires UnlockOne(meta, cells.a, A, phrase).Some? && UnlockOne(meta, cells.b, B, phrase).Some?
    ensures var a := UnlockOne(meta, cells.a, A, phrase).value;
            var b := UnlockOne(meta, cells.b, B, phrase).value;
            var after := AfterOpen(Disk(cells, [Works, Works, Works, Refuses]), phrase);
            && after.result.Ok? && after.result.value.session == a
            && (a.container.generation < b.container.generation ==> Select(cells, phrase) == Ok(b))
  {
    hide UsableMeta, UsablePointer, UsableSlot, UnwrapDek, Recovered, UnlockOne, WriteVerified, DocumentLength;
    UnlockOneRecovers(meta, cells.a, A, phrase);
    UnlockOneRecovers(meta, cells.b, B, phrase);
    NothingRecovered(meta.createdAt);
    NoTextIsUnusable(B, meta.vaultId);
    var a := UnlockOne(meta, cells.a, A, phrase).value;
    PointerFits(PointerTo(a));
    PointerDocLength(PointerTo(a));
  }

  lemma NoTextIsUnusable(side: SlotId, vaultId: VaultId)
    ensures UsableSlot(None, side, vaultId) == None
  {
  }

  lemma NoPointerIsUnusable()
    ensures UsablePointer(None) == None
  {
  }
}
