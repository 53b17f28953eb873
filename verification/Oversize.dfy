/**
 The split save has no limit on a slot's JSON, while opening skips slots beyond 5 MiB. A save that
 reports success is durable exactly when its slot is within the limit.
 */
module Oversize {
  import opened Wrappers
  import opened Bytes
  import opened Aad
  import opened Model
  import opened JsonLength
  import opened Validation
  import opened Vault
  import opened VaultProperties
  import opened Device
  import opened Repository
  import opened SaveProperties
  import opened Bridge
  import opened BridgeProperties
  import opened Persistence
  import opened Refinement
  import opened Recovery
  import opened Rotation
  import opened Runs
  import opened Creation

  /** A session that stands where another stands, whatever has been edited since. */
  predicate StandsAt(v: Session, stored: Session) {
    && IdentityOf(v) == IdentityOf(stored)
    && v.container.generation == stored.container.generation
    && v.slot == stored.slot
  }

  /** With the new slot in place beside the stored one, opening takes it exactly if it is within the limit. */
  lemma SavedSlotSelects(cells: Cells, after: Cells, stored: Session, v: Session, phrase: Phrase, tape: seq<byte>)
    requires Select(cells, phrase) == Ok(stored) && StandsAt(v, stored) && Sound(v.container)
    requires EncryptForSlot(v, v.slot.Other(), tape).Ok?
    requires after.meta == cells.meta && after.At(SlotKey(v.slot)) == cells.At(SlotKey(v.slot))
    requires after.At(SlotKey(v.slot.Other())) == Some(SlotText(SlotToWrite(v, tape)))
    ensures v.container.generation < U64_MAX
    ensures Select(after, phrase)
         == Ok(if SlotLength(SlotToWrite(v, tape)) <= MAX_SLOT_JSON_BYTES then Advanced(v) else stored)
  {
    hide Select, EncryptForSlot, Held, MetaOf, UsableMeta, UsablePointer, PhraseOf, Sound, Unwraps, SlotLength;
    EncryptsUnless(v, tape);
    SelectedSession(cells, phrase);
    var id, meta, slot := IdentityOf(v), UsableMeta(cells.meta).value, SlotToWrite(v, tape);
    UnwrapsIsMetaOf(meta, phrase, stored);
    SelectByHeld(after, phrase, meta, id);
    if SlotLength(slot) <= MAX_SLOT_JSON_BYTES {
      EncryptedIsHeld(v, tape);
    } else {
      OversizeHoldsNothing(slot, v.slot.Other(), id);
    }
  }

  /**
   After a split save that reports success, opening yields the session just saved if and only if its
   slot, whose length the contents tell in advance, is within the limit; otherwise it still yields the
   session saved before.
   */
  lemma SplitSaveIsDurableWhenItFits(
    d: Disk, b: BridgeState, stored: Session, phrase: Phrase, tape: seq<byte>, lockAt: nat)
    requires BridgeInv(b) && EnsureMutable(b).Ok?
    requires Select(d.cells, phrase) == Ok(stored) && StandsAt(b.vault.value, stored)
    requires AfterSaveSession(d, b, tape, lockAt).result.Ok?
    ensures EncryptForSlot(b.vault.value, b.vault.value.slot.Other(), tape).Ok?
    ensures b.vault.value.container.generation < U64_MAX
    ensures var j := AfterSaveSession(d, b, tape, lockAt);
            var fits := SavedLength(b.vault.value.container) <= 5_242_880;
            && (fits <==> SlotLength(SlotToWrite(b.vault.value, tape)) <= MAX_SLOT_JSON_BYTES)
            && j.bridge.vault.Some?
            && (Select(j.disk.cells, phrase) == Ok(j.bridge.vault.value) <==> fits)
            && Select(j.disk.cells, phrase) == Ok(if fits then j.bridge.vault.value else stored)
  {
    hide Select, AfterSaveSession, EncryptForSlot, SlotLength, SavedLength, Sound, MetaOf;
    var v := b.vault.value;
    if EncryptForSlot(v, v.slot.Other(), tape).Err? {
      RefusedAlike(d, b, tape, lockAt);
    } else {
      SavedLengthIsKnown(v, tape);
      SplitOutcome(d, b, tape, lockAt);
      var j := AfterSaveSession(d, b, tape, lockAt);
      SavedSlotSelects(d.cells, j.disk.cells, stored, v, phrase, tape);
    }
  }

  /** A cell with an oversize slot is of no use to an opening. */
  lemma OversizeIsUnusable(slot: Slot, side: SlotId, vaultId: VaultId)
    requires SlotLength(slot) > MAX_SLOT_JSON_BYTES
    ensures UsableSlot(Some(SlotText(slot)), side, vaultId) == None
  {
    hide SlotLength, ValidSlot;
    SlotDocLength(slot);
  }

  /**
   A session that an acknowledged oversize save has moved on saves next over the committed slot. Two
   such saves in a row, whatever is edited between them, leave a store that no phrase opens.
   */
  lemma TwoOversizeSavesLoseTheVault(
    d: Disk, b: BridgeState, t1: seq<byte>, l1: nat,
    faults: seq<Fault>, edited: BridgeState, t2: seq<byte>, l2: nat, p: Phrase)
    requires BridgeInv(b) && EnsureMutable(b).Ok? && BridgeInv(edited) && EnsureMutable(edited).Ok?
    requires EncryptForSlot(b.vault.value, b.vault.value.slot.Other(), t1).Ok?
    requires EncryptForSlot(edited.vault.value, edited.vault.value.slot.Other(), t2).Ok?
    requires SlotLength(SlotToWrite(b.vault.value, t1)) > MAX_SLOT_JSON_BYTES
    requires SlotLength(SlotToWrite(edited.vault.value, t2)) > MAX_SLOT_JSON_BYTES
    requires edited.vault.value.slot == b.vault.value.slot.Other()
    requires AfterSaveSession(d, b, t1, l1).result.Ok?
    requires AfterSaveSession(Disk(AfterSaveSession(d, b, t1, l1).disk.cells, faults), edited, t2, l2).result.Ok?
    ensures var first := AfterSaveSession(d, b, t1, l1);
            Select(AfterSaveSession(Disk(first.disk.cells, faults), edited, t2, l2).disk.cells, p).Err?
  {
    hide AfterSaveSession, EncryptForSlot, SlotLength, Sound, MetaOf, Select, UsableSlot, StopOfSplit;
    var first := AfterSaveSession(d, b, t1, l1);
    var second := AfterSaveSession(Disk(first.disk.cells, faults), edited, t2, l2);
    SplitOutcome(d, b, t1, l1);
    SplitOutcome(Disk(first.disk.cells, faults), edited, t2, l2);
    NothingUsableOpensNothing(second.disk.cells, p,
                              SlotToWrite(b.vault.value, t1), SlotToWrite(edited.vault.value, t2), b.vault.value.slot);
  }

  lemma NothingUsableOpensNothing(cells: Cells, p: Phrase, one: Slot, two: Slot, side: SlotId)
    requires SlotLength(one) > MAX_SLOT_JSON_BYTES && SlotLength(two) > MAX_SLOT_JSON_BYTES
    requires cells.At(SlotKey(side.Other())) == Some(SlotText(one)) && cells.At(SlotKey(side)) == Some(SlotText(two))
    ensures Select(cells, p).Err?
  {
    hide SlotLength, UsableSlot, UsableMeta, UsablePointer;
    if UsableMeta(cells.meta).Ok? {
      var vaultId := UsableMeta(cells.meta).value.vaultId;
      OversizeIsUnusable(one, side.Other(), vaultId);
      OversizeIsUnusable(two, side, vaultId);
    }
  }

  // ---- An acknowledged save that is lost ----

  function Repeated(n: nat): string {
    if n == 0 then "" else "x" + Repeated(n - 1)
  }

  lemma {:induction false} RepeatedLengths(n: nat)
    ensures Utf8Bytes(Repeated(n)) == n && EscapedBytes(Repeated(n)) == n
  {
    if n > 0 {
      assert Repeated(n)[1..] == Repeated(n - 1);
      RepeatedLengths(n - 1);
    }
  }

  const LARGE := Fields("a", Repeated(4096), None)

  function Numbered(i: nat): Entry {
    Entry(BigEndian(i, 16), LARGE, 0, 0)
  }

  /** `n` entries with the longest secret, numbered in order. */
  function NumberedEntries(n: nat): (entries: seq<Entry>)
    ensures |entries| == n && forall i :: 0 <= i < n ==> entries[i] == Numbered(i)
  {
    if n == 0 then [] else NumberedEntries(n - 1) + [Numbered(n - 1)]
  }

  function WithEntries(vaultId: VaultId, n: nat): Container {
    EmptyContainer(vaultId, 0).(entries := NumberedEntries(n))
  }

  /** The requests that add entries `i` up to `n`, each with a tape that draws its number. */
  function Adding(i: nat, n: nat): seq<Request>
    requires i <= n
    decreases n - i
  {
    if i == n then [] else [Add(LARGE, 0, BigEndian(i, 16))] + Adding(i + 1, n)
  }

  lemma LargeIsValid()
    ensures ValidFields(LARGE)
  {
    hide Repeated;
    RepeatedLengths(4096);
  }

  lemma NumbersDiffer(i: nat, j: nat)
    requires i < j < 0x1_0000
    ensures BigEndian(i, 16) != BigEndian(j, 16)
  {
    assert Pow256(2) == 0x1_0000;
    PowGrows(2, 16);
    BigEndianRoundTrip(i, 16);
    BigEndianRoundTrip(j, 16);
  }

  lemma {:induction false} PowGrows(a: nat, b: nat)
    requires a <= b
    ensures Pow256(a) <= Pow256(b)
    decreases b
  {
    if a < b {
      PowGrows(a, b - 1);
    }
  }

  lemma AddsTheNext(vaultId: VaultId, i: nat)
    requires i < 10_000
    ensures AfterEdit(WithEntries(vaultId, i), Add(LARGE, 0, BigEndian(i, 16))) == WithEntries(vaultId, i + 1)
  {
    hide Repeated, BigEndian, ValidFields;
    LargeIsValid();
    var tape := BigEndian(i, 16);
    assert tape[..16] == tape;
    var entries := NumberedEntries(i);
    forall k | 0 <= k < i ensures entries[k].id != tape {
      NumbersDiffer(k, i);
    }
    assert FreshId(entries, tape, 8) == Ok(tape);
  }

  lemma {:induction false} AddingReaches(vaultId: VaultId, i: nat, n: nat)
    requires i <= n <= 10_000
    ensures AfterEdits(WithEntries(vaultId, i), Adding(i, n)) == WithEntries(vaultId, n)
    decreases n - i
  {
    hide AfterEdit, WithEntries;
    if i < n {
      AddsTheNext(vaultId, i);
      assert Adding(i, n)[1..] == Adding(i + 1, n);
      AddingReaches(vaultId, i + 1, n);
    }
  }

  lemma NumberedLength(i: nat)
    ensures EntryLength(Numbered(i)) == 4179
  {
    hide Repeated, BigEndian;
    RepeatedLengths(4096);
    assert EscapedBytes("a") == 1;
  }

  lemma {:induction false} EntriesLengthAppend(entries: seq<Entry>, e: Entry)
    ensures EntriesLength(entries + [e]) == EntriesLength(entries) + EntryLength(e) + (if entries == [] then 0 else 1)
  {
    hide EntryLength;
    if entries == [] {
      assert EntriesLength([e]) == EntryLength(e) + EntriesLength([]);
    } else {
      EntriesLengthAppend(entries[1..], e);
      assert (entries + [e])[1..] == entries[1..] + [e];
    }
  }

  lemma {:induction false} NumberedEntriesLength(n: nat)
    ensures EntriesLength(NumberedEntries(n)) == if n == 0 then 0 else 4180 * n - 1
  {
    hide EntryLength, Numbered, EntriesLength;
    if n == 0 {
      assert EntriesLength([]) == 0 by { NoEntriesLength(); }
    } else {
      NumberedEntriesLength(n - 1);
      NumberedLength(n - 1);
      EntriesLengthAppend(NumberedEntries(n - 1), Numbered(n - 1));
    }
  }

  lemma NoEntriesLength()
    ensures EntriesLength([]) == 0
  {
  }

  lemma ThousandLength(vaultId: VaultId, generation: u64)
    requires generation < 10
    ensures ContainerLength(WithEntries(vaultId, 1000).(generation := generation)) == 4_180_127
  {
    hide EntriesLength, NumberedEntries;
    FormatLength();
    NumberedEntriesLength(1000);
  }

  /** A vault that holds the thousand entries can be encrypted, but not within the limit. */
  lemma ThousandOverflow(v: Session, vaultId: VaultId, generation: u64, tape: seq<byte>)
    requires v.container == WithEntries(vaultId, 1000).(generation := generation) && generation < 9
    requires Sound(v.container) && |tape| >= NONCE_BYTES
    ensures EncryptForSlot(v, v.slot.Other(), tape).Ok?
    ensures SlotLength(SlotToWrite(v, tape)) > MAX_SLOT_JSON_BYTES
  {
    hide EncryptForSlot, SlotLength, Sound, ContainerLength, WithEntries;
    EncryptsUnless(v, tape);
    ThousandLength(vaultId, generation + 1);
    SavedLengthIsKnown(v, tape);
  }

  /** The vault created on an empty device, with the thousand entries added, and nothing saved yet. */
  function Grown(phrase: Phrase, tape: seq<byte>): JsStep<()> {
    var created := AfterCreateSession(Disk(EMPTY, []), phrase, Some(0), tape);
    if created.bridge.vault.None? then created
    else
      var v := created.bridge.vault.value;
      JsStep(created.result, Disk(created.disk.cells, []),
             created.bridge.(vault := Some(v.(container := AfterEdits(v.container, Adding(0, 1000))))))
  }

  lemma GrownVault(phrase: Phrase, tape: seq<byte>)
    requires CheckNewMasterPassword(phrase).Ok? && |tape| >= 112
    ensures CreateVault(phrase, DEFAULT_KDF_CONFIG, 0, tape).Ok?
    ensures var c := CreateVault(phrase, DEFAULT_KDF_CONFIG, 0, tape).value;
            var g := Grown(phrase, tape);
            && g.result.Ok? && g.disk.faults == [] && Select(g.disk.cells, phrase) == Ok(c.session)
            && g.bridge == Unlocked(c.session.(container := WithEntries(c.meta.vaultId, 1000)), c.meta)
            && BridgeInv(g.bridge) && EnsureMutable(g.bridge).Ok?
            && StandsAt(g.bridge.vault.value, c.session)
            && c.session.container == EmptyContainer(c.meta.vaultId, 0) && c.session.slot == A
  {
    hide CreateVault, Select, BridgeInv, AfterEdits, Adding, Sound, PhraseOf, UnlockVault, CheckNewMasterPassword,
         AfterCreateSession, Inv, WithEntries, Unwraps, EmptyContainer;
    FreshStoreIsInOrder(phrase, 0, tape);
    var c := CreateVault(phrase, DEFAULT_KDF_CONFIG, 0, tape).value;
    CreatedBridgeStarts(phrase, DEFAULT_KDF_CONFIG, 0, tape);
    CreatedShape(phrase, DEFAULT_KDF_CONFIG, 0, tape);
    GrowthIsValid(c);
  }

  lemma GrowthIsValid(c: Created)
    requires BridgeInv(Unlocked(c.session, c.meta))
    requires c.session.container == EmptyContainer(c.meta.vaultId, 0)
    ensures AfterEdits(c.session.container, Adding(0, 1000)) == WithEntries(c.meta.vaultId, 1000)
    ensures var grown := c.session.(container := WithEntries(c.meta.vaultId, 1000));
            && StandsAt(grown, c.session)
            && BridgeInv(Unlocked(grown, c.meta)) && EnsureMutable(Unlocked(grown, c.meta)).Ok?
  {
    hide BridgeInv, AfterEdits, Adding, Sound, NumberedEntries;
    NoEntries();
    AddingReaches(c.meta.vaultId, 0, 1000);
    SoundVault(Unlocked(c.session, c.meta));
    EditsKeepSound(c.session.container, Adding(0, 1000));
    GrownBridge(c, c.session.(container := WithEntries(c.meta.vaultId, 1000)));
  }

  lemma NoEntries()
    ensures NumberedEntries(0) == []
  {
  }

  /**
   On an empty device where every storage step works, a vault is created, a thousand entries of the
   longest secret are added and saved, success is reported, and the store still opens to the empty vault.
   */
  lemma AcknowledgedSaveIsLost(phrase: Phrase, tape: seq<byte>, nonce: seq<byte>)
    requires CheckNewMasterPassword(phrase).Ok? && |tape| >= 112 && |nonce| >= NONCE_BYTES
    ensures var g := Grown(phrase, tape);
            var j := AfterSaveSession(g.disk, g.bridge, nonce, 0);
            && g.result.Ok? && g.bridge.vault.Some? && |g.bridge.vault.value.container.entries| == 1000
            && j.result.Ok? && g.bridge.vault.value.container.generation == 0
            && j.bridge == g.bridge.(vault := Some(Advanced(g.bridge.vault.value)))
            && Select(j.disk.cells, phrase).Ok? && Select(j.disk.cells, phrase).value.container.entries == []
  {
    hide CreateVault, Select, AfterSaveSession, EncryptForSlot, BridgeInv, SlotLength, SavedLength, Sound,
         CheckNewMasterPassword, Grown, EnsureMutable;
    GrownVault(phrase, tape);
    var c := CreateVault(phrase, DEFAULT_KDF_CONFIG, 0, tape).value;
    var g := Grown(phrase, tape);
    SoundVault(g.bridge);
    ThousandOverflow(g.bridge.vault.value, c.meta.vaultId, 0, nonce);
    QuietSplitSaveSucceeds(g.disk, g.bridge, nonce);
    SplitSaveIsDurableWhenItFits(g.disk, g.bridge, c.session, phrase, nonce, 0);
  }

  /** Saved once more without any fault, the vault is lost: success is reported and no phrase opens the store. */
  lemma AcknowledgedSavesLoseTheVault(phrase: Phrase, tape: seq<byte>, n1: seq<byte>, n2: seq<byte>, p: Phrase)
    requires CheckNewMasterPassword(phrase).Ok? && |tape| >= 112 && |n1| >= NONCE_BYTES && |n2| >= NONCE_BYTES
    ensures var g := Grown(phrase, tape);
            var first := AfterSaveSession(g.disk, g.bridge, n1, 0);
            var second := AfterSaveSession(Disk(first.disk.cells, []), first.bridge, n2, 0);
            && g.result.Ok? && first.result.Ok? && second.result.Ok? && Select(second.disk.cells, p).Err?
  {
    hide CreateVault, Select, AfterSaveSession, EncryptForSlot, BridgeInv, SlotLength, Sound, CheckNewMasterPassword,
         Grown, EnsureMutable, WithEntries;
    GrownVault(phrase, tape);
    var c := CreateVault(phrase, DEFAULT_KDF_CONFIG, 0, tape).value;
    var g := Grown(phrase, tape);
    SoundVault(g.bridge);
    ThousandIsUnsaved(c.meta.vaultId);
    ThousandOverflow(g.bridge.vault.value, c.meta.vaultId, 0, n1);
    QuietSplitSaveSucceeds(g.disk, g.bridge, n1);
    var first := AfterSaveSession(g.disk, g.bridge, n1, 0);
    AdvancedBridge(g.bridge);
    SoundVault(first.bridge);
    ThousandOverflow(first.bridge.vault.value, c.meta.vaultId, 1, n2);
    QuietSplitSaveSucceeds(Disk(first.disk.cells, []), first.bridge, n2);
    TwoOversizeSavesLoseTheVault(g.disk, g.bridge, n1, 0, [], first.bridge, n2, 0, p);
  }

  lemma ThousandIsUnsaved(vaultId: VaultId)
    ensures WithEntries(vaultId, 1000).(generation := 0) == WithEntries(vaultId, 1000)
    ensures WithEntries(vaultId, 1000).generation == 0
  {
    hide NumberedEntries;
  }

  lemma SoundVault(b: BridgeState)
    requires BridgeInv(b) && EnsureMutable(b).Ok?
    ensures b.vault.Some? && Sound(b.vault.value.container)
  {
    hide Sound, MetaOf;
  }

  /** A session that a save has advanced is as valid as before. */
  lemma AdvancedBridge(b: BridgeState)
    requires BridgeInv(b) && EnsureMutable(b).Ok? && b.vault.value.container.generation < U64_MAX
    ensures var after := b.(vault := Some(Advanced(b.vault.value)));
            BridgeInv(after) && EnsureMutable(after).Ok?
  {
    hide Unwraps, PhraseOf, GoodEntries;
    NextIsSound(b.vault.value.container);
  }

  lemma GrownBridge(c: Created, grown: Session)
    requires BridgeInv(Unlocked(c.session, c.meta))
    requires grown == c.session.(container := grown.container) && Sound(grown.container)
    requires Continues(c.session.container, grown.container)
    ensures BridgeInv(Unlocked(grown, c.meta))
  {
    hide Sound, Unwraps, PhraseOf;
  }
}
