/**
 Symbolic cryptography. Decryption succeeds exactly with the key, nonce and authenticated data of
 encryption; keys derived from a phrase are determined by phrase, vault id and KDF parameters.
 Randomness is a tape of bytes given to each call; a tape too short is a failing random source.
 */
module Crypto {
  import opened Wrappers
  import opened Bytes
  import opened Aad
  import opened Model
  import opened Validation

  /** The next `n` random bytes and the rest of the tape. */
  function RandomArray(tape: seq<byte>, n: nat): (r: Result<(seq<byte>, seq<byte>), VaultError>)
    ensures r.Ok? <==> |tape| >= n
    ensures r.Ok? ==> |r.value.0| == n && r.value.0 + r.value.1 == tape
    ensures r.Err? ==> r.error == RandomGenerationFailed
  {
    if |tape| < n then Err(RandomGenerationFailed) else Ok((tape[..n], tape[n..]))
  }

  function Encrypt(key: Key, nonce: seq<byte>, plaintext: Plaintext, aad: seq<byte>): Ciphertext {
    Sealed(key, nonce, aad, plaintext)
  }

  function Decrypt(key: Key, nonce: seq<byte>, ciphertext: Ciphertext, aad: seq<byte>): Result<Plaintext, VaultError> {
    if ciphertext.Sealed? && ciphertext.key == key && ciphertext.nonce == nonce && ciphertext.aad == aad
    then Ok(ciphertext.plaintext)
    else Err(WrongPasswordOrCorruptedVault)
  }

  function DeriveKek(phrase: Phrase, vaultId: VaultId, kdf: KdfParams): Result<Key, VaultError> {
    if ValidKdf(kdf) then Ok(PhraseKey(phrase, vaultId, kdf)) else Err(InvalidKdfParameters)
  }

  function WrapDek(kek: Key, dek: Dek, vaultId: VaultId, tape: seq<byte>): Result<WrappedDek, VaultError> {
    var (nonce, _) :- RandomArray(tape, NONCE_BYTES);
    Ok(WrappedDek(nonce, Encrypt(kek, nonce, RawBytes(dek, None), WrappedDekAad(vaultId))))
  }

  function UnwrapDek(kek: Key, wrapped: WrappedDek, vaultId: VaultId): Result<Dek, VaultError> {
    if |wrapped.nonce| != NONCE_BYTES then Err(InvalidMetadata)
    else
      var plaintext :- Decrypt(kek, wrapped.nonce, wrapped.ciphertext, WrappedDekAad(vaultId));
      if plaintext.RawBytes? && |plaintext.bytes| == KEY_BYTES then Ok(plaintext.bytes)
      else Err(WrongPasswordOrCorruptedVault)
  }

  function SealSlot(
    dek: Dek, vaultId: VaultId, slot: SlotId, generation: u64, plaintext: Plaintext, nonce: seq<byte>): Slot
  {
    Slot(FORMAT, FORMAT_VERSION, vaultId, slot, generation, nonce,
         Encrypt(DataKey(dek), nonce, plaintext, VaultSlotAad(vaultId, slot, generation)))
  }

  function DecryptSlotPayload(dek: Dek, slot: Slot): Result<Plaintext, VaultError> {
    if |slot.nonce| != NONCE_BYTES then Err(InvalidSlot)
    else Decrypt(DataKey(dek), slot.nonce, slot.ciphertext,
                 VaultSlotAad(slot.vaultId, slot.slot, slot.generation))
  }

  /** A wrapped key comes out exactly under the key, nonce and vault it was wrapped with, and says why it does not. */
  lemma UnwrapsExactly(kek: Key, wrapped: WrappedDek, vaultId: VaultId)
    ensures match UnwrapDek(kek, wrapped, vaultId)
            case Ok(dek) =>
              && |wrapped.nonce| == 24
              && exists parsed ::
                   wrapped.ciphertext == Sealed(kek, wrapped.nonce, WrappedDekAad(vaultId), RawBytes(dek, parsed))
            case Err(e) =>
              if |wrapped.nonce| != 24 then e == InvalidMetadata
              else
                && e == WrongPasswordOrCorruptedVault
                && forall dek: Dek, parsed ::
                     wrapped.ciphertext != Sealed(kek, wrapped.nonce, WrappedDekAad(vaultId), RawBytes(dek, parsed))
  {
    hide WrappedDekAad;
    if UnwrapDek(kek, wrapped, vaultId).Ok? {
      var plaintext := wrapped.ciphertext.plaintext;
      assert plaintext == RawBytes(plaintext.bytes, plaintext.parsed);
    }
  }

  /**
   A ciphertext made for one vault, slot and generation decrypts under no other labels: relabelling
   an envelope is refused whatever else it says.
   */
  lemma RelabelledSlotIsRefused(
    dek: Dek, vaultId: VaultId, slot: SlotId, generation: u64, plaintext: Plaintext, nonce: seq<byte>, forged: Slot)
    requires |nonce| == NONCE_BYTES
    requires forged.ciphertext == SealSlot(dek, vaultId, slot, generation, plaintext, nonce).ciphertext
    ensures DecryptSlotPayload(dek, forged).Ok? <==>
      && forged.nonce == nonce && forged.vaultId == vaultId
      && forged.slot == slot && forged.generation == generation
  {
    VaultSlotAadIsInjective(vaultId, slot, generation, forged.vaultId, forged.slot, forged.generation);
  }
}
