/**
 Encoded sizes. Every persistent size limit is on the byte length of serialized JSON, and a slot's
 JSON carries its ciphertext as unpadded base64url (section 5 of RFC 4648).
 */
module JsonLength {
  import opened Bytes
  import opened Model

  function Utf8Length(c: char): nat {
    if c as int < 0x80 then 1 else if c as int < 0x800 then 2 else if c as int < 0x1_0000 then 3 else 4
  }

  /** Byte length of a string. */
  function Utf8Bytes(s: string): nat {
    if s == [] then 0 else Utf8Length(s[0]) + Utf8Bytes(s[1..])
  }

  /** JSON escapes quotes, backslashes and control characters; five control characters have short forms. */
  function EscapedLength(c: char): nat {
    var n := c as int;
    if n == 0x22 || n == 0x5C || n == 8 || n == 9 || n == 10 || n == 12 || n == 13 then 2
    else if n < 0x20 then 6
    else Utf8Length(c)
  }

  function EscapedBytes(s: string): nat {
    if s == [] then 0 else EscapedLength(s[0]) + EscapedBytes(s[1..])
  }

  function StringLength(s: string): nat {
    2 + EscapedBytes(s)
  }

  function DecimalLength(n: nat): nat {
    if n < 10 then 1 else 1 + DecimalLength(n / 10)
  }

  /** ceil(4n/3) */
  function Base64UrlLength(n: nat): nat {
    (4 * n + 2) / 3
  }

  // The constants below are the lengths of the fixed JSON text around each value, in field order.

  function EntryLength(e: Entry): nat {
    7 + Base64UrlLength(16) + 1
    + 9 + StringLength(e.fields.title)
    + 10 + StringLength(e.fields.secret)
    + (match e.fields.description case None => 0 case Some(d) => 15 + StringLength(d))
    + 13 + DecimalLength(e.createdAt)
    + 13 + DecimalLength(e.updatedAt)
    + 1
  }

  function EntriesLength(entries: seq<Entry>): nat {
    if entries == [] then 0
    else EntryLength(entries[0]) + (if |entries| > 1 then 1 else 0) + EntriesLength(entries[1..])
  }

  function ContainerLength(c: Container): nat {
    10 + StringLength(c.format)
    + 11 + DecimalLength(c.version)
    + 12 + Base64UrlLength(16) + 1
    + 14 + DecimalLength(c.generation)
    + 13 + DecimalLength(c.createdAt)
    + 13 + DecimalLength(c.updatedAt)
    + 12 + EntriesLength(c.entries) + 2
  }

  function PlaintextLength(p: Plaintext): nat {
    match p
    case ContainerJson(c) => ContainerLength(c)
    case RawBytes(bytes, _) => |bytes|
  }

  function CiphertextLength(c: Ciphertext): nat {
    match c
    case Sealed(_, _, _, plaintext) => PlaintextLength(plaintext) + TAG_BYTES
    case Junk(bytes) => |bytes|
  }

  function KdfLength(k: KdfParams): nat {
    23 + 9 + Base64UrlLength(|k.salt|) + 1
    + 13 + DecimalLength(k.memoryKib)
    + 14 + DecimalLength(k.iterations)
    + 15 + DecimalLength(k.parallelism)
    + 15 + DecimalLength(k.outputBytes)
    + 1
  }

  function WrappedDekLength(w: WrappedDek): nat {
    33 + 10 + Base64UrlLength(|w.nonce|) + 1 + 15 + Base64UrlLength(CiphertextLength(w.ciphertext)) + 1 + 1
  }

  function MetaLength(m: Meta): nat {
    10 + StringLength(m.format)
    + 11 + DecimalLength(m.version)
    + 12 + Base64UrlLength(16) + 1
    + 13 + DecimalLength(m.createdAt)
    + 7 + KdfLength(m.kdf)
    + 14 + WrappedDekLength(m.wrappedDek)
    + 1
  }

  /** Everything in a slot's JSON but its base64url ciphertext. */
  function EnvelopeLength(s: Slot): nat {
    10 + StringLength(s.format)
    + 11 + DecimalLength(s.version)
    + 12 + Base64UrlLength(16) + 1
    + 11
    + 14 + DecimalLength(s.generation)
    + 33
    + 10 + Base64UrlLength(|s.nonce|) + 1
    + 15 + 1 + 1
  }

  function SlotLength(s: Slot): nat {
    EnvelopeLength(s) + Base64UrlLength(CiphertextLength(s.ciphertext))
  }

  function PointerLength(p: Pointer): nat {
    11 + DecimalLength(p.version) + 11 + 14 + DecimalLength(p.generation) + 1
  }

  function DocumentLength(doc: Document): nat {
    match doc
    case MetaDoc(m) => MetaLength(m)
    case SlotDoc(s) => SlotLength(s)
    case PointerDoc(p) => PointerLength(p)
  }

  function TextLength(text: Text): nat {
    match text
    case Json(doc) => DocumentLength(doc)
    case Other(_, _, length) => length
  }

  function Pow10(k: nat): nat {
    if k == 0 then 1 else 10 * Pow10(k - 1)
  }

  lemma {:induction false} DecimalLengthBound(n: nat, k: nat)
    requires 0 < k && n < Pow10(k)
    ensures 1 <= DecimalLength(n) <= k
  {
    if n >= 10 {
      assert k > 1;
      DecimalLengthBound(n / 10, k - 1);
    }
  }

  lemma U64Digits(n: u64)
    ensures 1 <= DecimalLength(n) <= 20
  {
    assert Pow10(4) == 10_000;
    assert Pow10(8) == 100_000_000;
    assert Pow10(12) == 1_000_000_000_000;
    assert Pow10(16) == 10_000_000_000_000_000;
    assert Pow10(20) == 100_000_000_000_000_000_000;
    DecimalLengthBound(n, 20);
  }

  predicate Plain(c: char) {
    ' ' <= c < 0x7F as char && c != '"' && c != '\\'
  }

  /** Plain ASCII text is written as itself. */
  lemma {:induction false} PlainLength(s: string)
    requires forall i :: 0 <= i < |s| ==> Plain(s[i])
    ensures EscapedBytes(s) == |s|
  {
    if s != [] {
      PlainLength(s[1..]);
    }
  }

  lemma FormatLength()
    ensures StringLength(FORMAT) == 14
  {
    hide EscapedBytes;
    PlainLength(FORMAT);
  }

  /** No pointer is ever refused for its size. */
  lemma PointerFits(p: Pointer)
    ensures PointerLength(p) <= MAX_ACTIVE_POINTER_BYTES
  {
    U64Digits(p.version);
    U64Digits(p.generation);
  }
}
