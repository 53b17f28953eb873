/** Changing the phrase: the data key and the slots stay, and at every crash point one phrase opens. */
module Rotation {
  import opened Wrappers
  import opened Bytes
  import opened Aad
  import opened Model
  import opened Vault
  import opened VaultProperties
  import opened Device
  import opened Repository
  import opened OpenProperties
  import opened Bridge
  import opened BridgeProperties
  import opened Persistence
  import opened Recovery
  import opened Runs
  import opened Creation

  /** The same slots and pointer under other metadata of the vault open for the other phrase alike. */
  lemma OtherMetaOpensAlike(
    cells: Cells, phrase: Phrase, v: Session, text: Option<Text>, meta: Meta, replacement: Phrase, p: Phrase)
    requires Select(cells, phrase) == Ok(v)
    requires UsableMeta(text) == Ok(meta) && MetaOf(meta, IdentityOf(v)) && PhraseOf(meta) == Some(replacement)
    ensures Select(cells.(meta := text), p) == if p == replacement then Ok(v) else Err(WrongPasswordOrCorruptedVault)
  {
    hide Select, Held, MetaOf, UsableMeta, UsablePointer, PhraseOf, Sound, Unwraps;
    SelectedSession(cells, phrase);
    var previous := UsableMeta(cells.meta).value;
    UnwrapsIsMetaOf(previous, phrase, v);
    SelectByHeld(cells, phrase, previous, IdentityOf(v));
    var after := cells.(meta := text);
    assert after.a == cells.a && after.b == cells.b && after.pointer == cells.pointer;
    SelectByHeld(after, p, meta, IdentityOf(v));
  }

  /** Under other text in the metadata cell, a phrase opens the same session exactly if the text wraps its key for it. */
  lemma OpensExactlyIfWrapped(cells: Cells, phrase: Phrase, v: Session, text: Option<Text>, p: Phrase)
    requires Select(cells, phrase) == Ok(v)
    ensures Select(cells.(meta := text), p) == Ok(v) <==> Wraps(text, IdentityOf(v), p)
    ensures Wraps(text, IdentityOf(v), p) ==>
      forall q :: q != p ==> Select(cells.(meta := text), q) == Err(WrongPasswordOrCorruptedVault)
  {
    hide Select, Held, MetaOf, UsableMeta, UsablePointer, PhraseOf, Sound, Unwraps;
    var after := cells.(meta := text);
    if Wraps(text, IdentityOf(v), p) {
      forall q ensures Select(after, q) == if q == p then Ok(v) else Err(WrongPasswordOrCorruptedVault) {
        OtherMetaOpensAlike(cells, phrase, v, text, UsableMeta(text).value, p, q);
      }
    }
    if Select(after, p) == Ok(v) {
      SelectedSession(after, p);
      UnwrapsIsMetaOf(UsableMeta(text).value, p, v);
    }
  }

  /** One of two phrases opens the store, to the given session, and the other does not. */
  predicate OneOpens(cells: Cells, p: Phrase, q: Phrase, v: Session) {
    || (Select(cells, p) == Ok(v) && Select(cells, q) == Err(WrongPasswordOrCorruptedVault))
    || (Select(cells, q) == Ok(v) && Select(cells, p) == Err(WrongPasswordOrCorruptedVault))
  }

  /**
   Wherever a phrase change stops, exactly one of the old and the new phrase opens the store, with the
   same session, if and only if the write of the metadata cell did not tear, or left metadata that wraps
   the same key for one of the two. Slots and pointer are untouched, unusable residue opens to neither,
   and a reported success means it is the new phrase that opens.
   */
  lemma ExactlyOnePhraseOpens(
    d: Disk, b: BridgeState, v: Session, current: Phrase, replacement: Phrase, tape: seq<byte>, lockAt: nat)
    requires BridgeInv(b) && EnsureMutable(b).Ok?
    requires Select(d.cells, current) == Ok(v) && IdentityOf(v) == IdentityOf(b.vault.value)
    requires RewrapVaultKey(current, replacement, b.meta.value, b.vault.value, DEFAULT_KDF_CONFIG, tape).Ok?
    requires current != replacement
    ensures var j := AfterChangePhrase(d, b, current, replacement, tape, lockAt);
            var torn := FaultAt(d, 0);
            && j.disk.cells == d.cells.(meta := j.disk.cells.meta)
            && (OneOpens(j.disk.cells, current, replacement, v) <==>
                  torn.Tears? ==>
                    Wraps(torn.residue, IdentityOf(v), current) || Wraps(torn.residue, IdentityOf(v), replacement))
            && (torn.Tears? && UsableMeta(torn.residue).Err? ==>
                  Select(j.disk.cells, current).Err? && Select(j.disk.cells, replacement).Err?)
            && (j.result.Ok? ==> Select(j.disk.cells, replacement) == Ok(v))
  {
    hide Select, AfterChangePhrase, RewrapVaultKey, UsableMeta, FaultAt, Sound, Wraps;
    var j := AfterChangePhrase(d, b, current, replacement, tape, lockAt);
    ChangeOnDevice(d, b, current, replacement, tape, lockAt);
    ChangeTextsWrap(d.cells, b, v, current, replacement, tape);
    OpensExactlyIfWrapped(d.cells, current, v, j.disk.cells.meta, current);
    OpensExactlyIfWrapped(d.cells, current, v, j.disk.cells.meta, replacement);
    UnusableMetaOpensNothing(j.disk.cells, current);
    UnusableMetaOpensNothing(j.disk.cells, replacement);
  }

  /** The metadata before a change wraps the key for the old phrase, the candidate for the new one. */
  lemma ChangeTextsWrap(cells: Cells, b: BridgeState, v: Session, current: Phrase, replacement: Phrase, tape: seq<byte>)
    requires b.vault.Some? && b.meta.Some?
    requires Select(cells, current) == Ok(v) && IdentityOf(v) == IdentityOf(b.vault.value)
    requires RewrapVaultKey(current, replacement, b.meta.value, b.vault.value, DEFAULT_KDF_CONFIG, tape).Ok?
    ensures var m := RewrapVaultKey(current, replacement, b.meta.value, b.vault.value, DEFAULT_KDF_CONFIG, tape).value;
            && Wraps(cells.meta, IdentityOf(v), current)
            && Wraps(Some(Json(MetaDoc(m))), IdentityOf(v), replacement)
  {
    hide Select, RewrapVaultKey, UsableMeta, MetaOf, PhraseOf, Unwraps, Held, Sound;
    var m := RewrapVaultKey(current, replacement, b.meta.value, b.vault.value, DEFAULT_KDF_CONFIG, tape).value;
    RewrappedMeta(current, replacement, b.meta.value, b.vault.value, tape, IdentityOf(v));
    RewrappedIsUsable(Some(Json(MetaDoc(m))), m, IdentityOf(v));
    SelectedSession(cells, current);
    UnwrapsIsMetaOf(UsableMeta(cells.meta).value, current, v);
  }

  lemma RewrappedIsUsable(text: Option<Text>, meta: Meta, id: Identity)
    requires text == Some(Json(MetaDoc(meta))) && MetaOf(meta, id)
    ensures UsableMeta(text) == Ok(meta)
  {
    hide UsableMeta, MetaOf;
    StoredMetaIsUsable(text, meta, id);
  }

  /** What a change needs, in the order it is asked for: the current phrase, an acceptable new one, 40 random bytes. */
  lemma OnlyTheCurrentPhraseRewraps(b: BridgeState, current: Phrase, replacement: Phrase, tape: seq<byte>)
    requires BridgeInv(b) && EnsureMutable(b).Ok?
    ensures var r := AfterPrepareChange(b, current, replacement, tape);
            && b.meta.Some?
            && if PhraseOf(b.meta.value) != Some(current) then
                 r == Reply(Err(VaultFailure(WrongPasswordOrCorruptedVault)), b)
               else if replacement.NotUtf8? || |replacement.chars| < 16 then
                 r == Reply(Err(VaultFailure(InvalidMasterPassword)), b)
               else if |tape| < 40 then r == Reply(Err(VaultFailure(RandomGenerationFailed)), b)
               else r.result.Ok?
  {
    hide WrappedDekAad, Sound;
  }

  /**
   From an empty device: a vault is created, and a change to an acceptable phrase tears the metadata
   write. Neither the old phrase nor the new one opens the store, nor any other.
   */
  lemma TornChangeLosesTheVault(
    phrase: Phrase, replacement: Phrase, now: u64, tape: seq<byte>, changeTape: seq<byte>, p: Phrase)
    requires CheckNewMasterPassword(phrase).Ok? && CheckNewMasterPassword(replacement).Ok?
    requires |tape| >= 112 && |changeTape| >= SALT_BYTES + NONCE_BYTES
    ensures var created := AfterCreateSession(Disk(EMPTY, []), phrase, Some(now), tape);
            var torn := Disk(created.disk.cells, [Tears(Some(GARBAGE), false)]);
            var j := AfterChangePhrase(torn, created.bridge, phrase, replacement, changeTape, 0);
            && created.result.Ok? && j.result.Err? && j.disk.cells == created.disk.cells.(meta := Some(GARBAGE))
            && Select(created.disk.cells, phrase).Ok? && Select(j.disk.cells, p).Err?
  {
    hide CreateVault, Select, BridgeInv, CheckNewMasterPassword, AfterCreateSession, Inv, AfterChangePhrase, RewrapVaultKey,
         PhraseOf, UsableMeta;
    FreshStoreIsInOrder(phrase, now, tape);
    CreatedBridgeStarts(phrase, DEFAULT_KDF_CONFIG, now, tape);
    var created := AfterCreateSession(Disk(EMPTY, []), phrase, Some(now), tape);
    var torn := Disk(created.disk.cells, [Tears(Some(GARBAGE), false)]);
    OnlyTheCurrentPhraseRewraps(created.bridge, phrase, replacement, changeTape);
    ChangeOnDevice(torn, created.bridge, phrase, replacement, changeTape, 0);
    GarbageIsUnusable();
    UnusableMetaOpensNothing(AfterChangePhrase(torn, created.bridge, phrase, replacement, changeTape, 0).disk.cells, p);
    GarbageIsNoMetadata();
  }

  lemma GarbageIsNoMetadata()
    ensures forall m :: Json(MetaDoc(m)) != GARBAGE
  {
  }
}
