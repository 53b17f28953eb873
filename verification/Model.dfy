/**
 The persistent and decrypted values of a vault, with cryptography kept symbolic: a ciphertext
 remembers the key, nonce, authenticated data and plaintext it was made from, or is junk.
 */
module Model {
  import opened Wrappers
  import opened Bytes
  import opened Aad

  const FORMAT: string := "pocket-vault"
  const DEVICE_STORAGE_LIMIT_BYTES: nat := 5_242_880
  const MAX_METADATA_JSON_BYTES: nat := 16_384
  const MAX_SLOT_JSON_BYTES: nat := DEVICE_STORAGE_LIMIT_BYTES
  const MAX_ACTIVE_POINTER_BYTES: nat := 1024
  const MAX_ENTRIES: nat := 10_000
  const MAX_TITLE_CHARS: nat := 200
  const MAX_SECRET_BYTES: nat := 4096
  const MAX_DESCRIPTION_CHARS: nat := 2000
  const MIN_MASTER_PASSWORD_CHARS: nat := 16
  const MAX_ID_GENERATION_ATTEMPTS: nat := 8
  const KEY_BYTES: nat := 32
  const ID_BYTES: nat := 16
  const SALT_BYTES: nat := 16
  const NONCE_BYTES: nat := 24
  const TAG_BYTES: nat := 16

  datatype StorageError = ReadFailed | WriteFailed | RemoveFailed

  datatype VaultError =
    | InvalidMetadata
    | InvalidSlot
    | InvalidContainer
    | UnsupportedFormatVersion
    | InvalidKdfParameters
    | InvalidMasterPassword
    | WrongPasswordOrCorruptedVault
    | RandomGenerationFailed
    | SerializationFailed
    | EntryNotFound
    | DuplicateEntry
    | VaultTooLarge
    | GenerationOverflow
    | SlotVerificationFailed
    | Uninitialized
    | AlreadyInitialized
    | Storage(cause: StorageError)

  type EntryId = s: seq<byte> | |s| == 16 witness [0, 0, 0, 0, 0, 0, 0, 0, 0, 0, 0, 0, 0, 0, 0, 0]
  type Dek = s: seq<byte> | |s| == 32
    witness [0, 0, 0, 0, 0, 0, 0, 0, 0, 0, 0, 0, 0, 0, 0, 0, 0, 0, 0, 0, 0, 0, 0, 0, 0, 0, 0, 0, 0, 0, 0, 0]

  /** A master password: bytes that are the UTF-8 encoding of some text, or bytes that are not. */
  datatype Phrase = Utf8(chars: string) | NotUtf8(bytes: seq<byte>)

  datatype KdfConfig = KdfConfig(memoryKib: u32, iterations: u32, parallelism: u32)

  const DEFAULT_KDF_CONFIG := KdfConfig(19_456, 2, 1)

  datatype KdfParams = KdfParams(
    salt: seq<byte>, memoryKib: u32, iterations: u32, parallelism: u32, outputBytes: u32)

  /** The editable part of an entry. */
  datatype Fields = Fields(title: string, secret: string, description: Option<string>)

  datatype Entry = Entry(id: EntryId, fields: Fields, createdAt: u64, updatedAt: u64)

  datatype Container = Container(
    format: string, version: u32, vaultId: VaultId, generation: u64,
    createdAt: u64, updatedAt: u64, entries: seq<Entry>)

  datatype Key =
    | DataKey(bytes: Dek)
    | PhraseKey(phrase: Phrase, vaultId: VaultId, kdf: KdfParams)

  /** The serializer's output for a container, or other bytes and the container they parse as, if any. */
  datatype Plaintext =
    | ContainerJson(container: Container)
    | RawBytes(bytes: seq<byte>, parsed: Option<Container>)

  datatype Ciphertext =
    | Sealed(key: Key, nonce: seq<byte>, aad: seq<byte>, plaintext: Plaintext)
    | Junk(bytes: seq<byte>)

  datatype WrappedDek = WrappedDek(nonce: seq<byte>, ciphertext: Ciphertext)

  datatype Meta = Meta(
    format: string, version: u32, vaultId: VaultId, createdAt: u64, kdf: KdfParams, wrappedDek: WrappedDek)

  datatype Slot = Slot(
    format: string, version: u32, vaultId: VaultId, slot: SlotId, generation: u64,
    nonce: seq<byte>, ciphertext: Ciphertext)

  datatype Pointer = Pointer(version: u32, slot: SlotId, generation: u64)

  datatype Document = MetaDoc(meta: Meta) | SlotDoc(slot: Slot) | PointerDoc(pointer: Pointer)

  /**
   A stored string: the serializer's output for a document, or any other string, told apart by
   `tag`, with its length and the document it parses as, if it parses at all.
   */
  datatype Text =
    | Json(doc: Document)
    | Other(tag: nat, parsed: Option<Document>, length: nat)

  function Parse(text: Text): Option<Document> {
    match text
    case Json(doc) => Some(doc)
    case Other(_, parsed, _) => parsed
  }
}
