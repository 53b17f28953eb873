/**
 The JSON itself, character by character, as the serializer writes each document: the lengths that every
 size limit is about are the byte lengths of these texts.
 */
module JsonText {
  import opened Bytes
  import opened Model
  import opened JsonLength

  // ---- Characters ----

  predicate IsAscii(s: string) {
    forall i :: 0 <= i < |s| ==> s[i] < 0x80 as char
  }

  lemma {:induction false} AsciiLength(s: string)
    requires IsAscii(s)
    ensures Utf8Bytes(s) == |s|
  {
    if s != [] {
      AsciiLength(s[1..]);
    }
  }

  lemma {:induction false} JoinedLength(a: string, b: string)
    ensures Utf8Bytes(a + b) == Utf8Bytes(a) + Utf8Bytes(b)
  {
    if a == [] {
      assert a + b == b;
    } else {
      JoinedLength(a[1..], b);
      assert (a + b)[1..] == a[1..] + b;
    }
  }

  function Sextet(n: nat): (c: char)
    requires n < 64
    ensures c < 0x80 as char
  {
    if n < 26 then 'A' + n as char
    else if n < 52 then 'a' + (n - 26) as char
    else if n < 62 then '0' + (n - 52) as char
    else if n == 62 then '-'
    else '_'
  }

  /** Section 5 of RFC 4648, without padding: four characters for three bytes, three for two, two for one. */
  function Base64Url(bytes: seq<byte>): (s: string)
    ensures IsAscii(s) && |s| == Base64UrlLength(|bytes|)
  {
    if |bytes| == 0 then ""
    else if |bytes| == 1 then [Sextet(bytes[0] / 4), Sextet(bytes[0] % 4 * 16)]
    else if |bytes| == 2 then
      [Sextet(bytes[0] / 4), Sextet(bytes[0] % 4 * 16 + bytes[1] / 16), Sextet(bytes[1] % 16 * 4)]
    else
      [Sextet(bytes[0] / 4), Sextet(bytes[0] % 4 * 16 + bytes[1] / 16),
       Sextet(bytes[1] % 16 * 4 + bytes[2] / 64), Sextet(bytes[2] % 64)] + Base64Url(bytes[3..])
  }

  function Digit(n: nat): char
    requires n < 10
  {
    "0123456789"[n]
  }

  function Decimal(n: nat): (s: string)
    ensures IsAscii(s) && |s| == DecimalLength(n)
  {
    if n < 10 then [Digit(n)] else Decimal(n / 10) + [Digit(n % 10)]
  }

  /** A character inside a JSON string. */
  function Escaped(c: char): string {
    var n := c as int;
    if c == '"' then "\\\""
    else if c == '\\' then "\\\\"
    else if n == 8 then "\\b"
    else if n == 9 then "\\t"
    else if n == 10 then "\\n"
    else if n == 12 then "\\f"
    else if n == 13 then "\\r"
    else if n < 0x20 then "\\u00" + ["0123456789abcdef"[n / 16], "0123456789abcdef"[n % 16]]
    else [c]
  }

  function EscapedText(s: string): string {
    if s == [] then "" else Escaped(s[0]) + EscapedText(s[1..])
  }

  lemma EscapedCharLength(c: char)
    ensures Utf8Bytes(Escaped(c)) == EscapedLength(c)
  {
    var e := Escaped(c);
    if IsAscii(e) {
      AsciiLength(e);
    } else {
      assert e == [c] && e[1..] == [];
    }
  }

  lemma {:induction false} EscapedTextLength(s: string)
    ensures Utf8Bytes(EscapedText(s)) == EscapedBytes(s)
  {
    if s != [] {
      EscapedCharLength(s[0]);
      EscapedTextLength(s[1..]);
      JoinedLength(Escaped(s[0]), EscapedText(s[1..]));
    }
  }

  // ---- Values ----

  lemma WrappedLength(before: string, s: string, after: string)
    requires IsAscii(before) && IsAscii(after)
    ensures Utf8Bytes(before + s + after) == |before| + Utf8Bytes(s) + |after|
  {
    hide Utf8Bytes;
    AsciiLength(before);
    AsciiLength(after);
    JoinedLength(before + s, after);
    JoinedLength(before, s);
  }

  /** The fixed words of the format: member names, algorithms and slot labels. */
  datatype Word =
    | Version | SlotName | Generation | Format | VaultId | Algorithm | Nonce | Ciphertext | CreatedAt | Kdf
    | WrappedKey | Salt | MemoryKiB | Iterations | Parallelism | OutputBytes | Id | Title | Secret
    | Description | UpdatedAt | Entries | SlotA | SlotB | XChaCha20Poly1305 | Argon2id

  function Spelled(word: Word): string {
    match word
    case Version => "version"
    case SlotName => "slot"
    case Generation => "generation"
    case Format => "format"
    case VaultId => "vaultId"
    case Algorithm => "algorithm"
    case Nonce => "nonce"
    case Ciphertext => "ciphertext"
    case CreatedAt => "createdAt"
    case Kdf => "kdf"
    case WrappedKey => "wrappedDek"
    case Salt => "salt"
    case MemoryKiB => "memoryKiB"
    case Iterations => "iterations"
    case Parallelism => "parallelism"
    case OutputBytes => "outputBytes"
    case Id => "id"
    case Title => "title"
    case Secret => "secret"
    case Description => "description"
    case UpdatedAt => "updatedAt"
    case Entries => "entries"
    case SlotA => "a"
    case SlotB => "b"
    case XChaCha20Poly1305 => "xchacha20-poly1305"
    case Argon2id => "argon2id"
  }

  function SpelledLength(word: Word): nat {
    match word
    case Version => 7
    case SlotName => 4
    case Generation => 10
    case Format => 6
    case VaultId => 7
    case Algorithm => 9
    case Nonce => 5
    case Ciphertext => 10
    case CreatedAt => 9
    case Kdf => 3
    case WrappedKey => 10
    case Salt => 4
    case MemoryKiB => 9
    case Iterations => 10
    case Parallelism => 11
    case OutputBytes => 11
    case Id => 2
    case Title => 5
    case Secret => 6
    case Description => 11
    case UpdatedAt => 9
    case Entries => 7
    case SlotA => 1
    case SlotB => 1
    case XChaCha20Poly1305 => 18
    case Argon2id => 8
  }

  lemma WordsAreSpelled(word: Word)
    ensures |Spelled(word)| == SpelledLength(word)
  {
  }

  lemma WordsAreAscii(word: Word)
    ensures IsAscii(Spelled(word))
  {
    hide IsAscii, Spelled;
    if SpelledLength(word) <= 7 {
      ShortWordsAreAscii(word);
    } else if SpelledLength(word) <= 10 {
      LongerWordsAreAscii(word);
    } else {
      LongestWordsAreAscii(word);
    }
  }

  lemma ShortWordsAreAscii(word: Word)
    requires SpelledLength(word) <= 7
    ensures IsAscii(Spelled(word))
  {
  }

  lemma LongerWordsAreAscii(word: Word)
    requires 7 < SpelledLength(word) <= 10
    ensures IsAscii(Spelled(word))
  {
  }

  lemma LongestWordsAreAscii(word: Word)
    requires SpelledLength(word) > 10
    ensures IsAscii(Spelled(word))
  {
  }

  function Quoted(s: string): (r: string)
    ensures Utf8Bytes(r) == StringLength(s)
  {
    EscapedTextLength(s);
    WrappedLength("\"", EscapedText(s), "\"");
    "\"" + EscapedText(s) + "\""
  }

  /** A string that needs no escaping. */
  function Bare(s: string): (r: string)
    requires IsAscii(s)
    ensures Utf8Bytes(r) == |s| + 2
  {
    AsciiLength(s);
    WrappedLength("\"", s, "\"");
    "\"" + s + "\""
  }

  function Number(n: nat): (r: string)
    ensures Utf8Bytes(r) == DecimalLength(n)
  {
    AsciiLength(Decimal(n));
    Decimal(n)
  }

  function Fixed(word: Word): (r: string)
    ensures Utf8Bytes(r) == SpelledLength(word) + 2
  {
    WordsAreSpelled(word);
    WordsAreAscii(word);
    Bare(Spelled(word))
  }

  function Member(name: Word, value: string): (r: string)
    ensures Utf8Bytes(r) == SpelledLength(name) + 3 + Utf8Bytes(value)
  {
    WordsAreSpelled(name);
    JoinedLength(Fixed(name), ":" + value);
    JoinedLength(":", value);
    Fixed(name) + (":" + value)
  }

  function Next(members: string, member: string): (r: string)
    ensures Utf8Bytes(r) == Utf8Bytes(members) + 1 + Utf8Bytes(member)
  {
    WrappedLength("", members, ",");
    JoinedLength("" + members + ",", member);
    "" + members + "," + member
  }

  function Object(members: string): (r: string)
    ensures Utf8Bytes(r) == Utf8Bytes(members) + 2
  {
    WrappedLength("{", members, "}");
    "{" + members + "}"
  }

  function Array(values: string): (r: string)
    ensures Utf8Bytes(r) == Utf8Bytes(values) + 2
  {
    WrappedLength("[", values, "]");
    "[" + values + "]"
  }

  // ---- Documents ----

  function PointerJson(p: Pointer): string {
    Object(Next(Next(
      Member(Version, Number(p.version)),
      Member(SlotName, Fixed(if p.slot.A? then SlotA else SlotB))),
      Member(Generation, Number(p.generation))))
  }

  lemma PointerJsonLength(p: Pointer)
    ensures Utf8Bytes(PointerJson(p)) == PointerLength(p)
  {
    hide Utf8Bytes, IsAscii, Fixed, Bare, Number, Member, Next, Object, DecimalLength;
  }

  function SlotJson(s: Slot, ciphertext: seq<byte>): string {
    Object(Next(Next(Next(Next(Next(Next(Next(
      Member(Format, Quoted(s.format)),
      Member(Version, Number(s.version))),
      Member(VaultId, Bare(Base64Url(s.vaultId)))),
      Member(SlotName, Fixed(if s.slot.A? then SlotA else SlotB))),
      Member(Generation, Number(s.generation))),
      Member(Algorithm, Fixed(XChaCha20Poly1305))),
      Member(Nonce, Bare(Base64Url(s.nonce)))),
      Member(Ciphertext, Bare(Base64Url(ciphertext)))))
  }

  lemma SlotJsonLength(s: Slot, ciphertext: seq<byte>)
    requires |ciphertext| == CiphertextLength(s.ciphertext)
    ensures Utf8Bytes(SlotJson(s, ciphertext)) == SlotLength(s)
  {
    hide Utf8Bytes, IsAscii, Fixed, Bare, Quoted, Number, Member, Next, Object, DecimalLength, StringLength,
         Base64Url, CiphertextLength, Base64UrlLength;
  }

  function MetaJson(m: Meta, wrapped: seq<byte>): string {
    Object(Next(Next(Next(Next(Next(
      Member(Format, Quoted(m.format)),
      Member(Version, Number(m.version))),
      Member(VaultId, Bare(Base64Url(m.vaultId)))),
      Member(CreatedAt, Number(m.createdAt))),
      Member(Kdf, KdfJson(m.kdf))),
      Member(WrappedKey, WrappedDekJson(m.wrappedDek, wrapped))))
  }

  function KdfJson(k: KdfParams): string {
    Object(Next(Next(Next(Next(Next(
      Member(Algorithm, Fixed(Argon2id)),
      Member(Salt, Bare(Base64Url(k.salt)))),
      Member(MemoryKiB, Number(k.memoryKib))),
      Member(Iterations, Number(k.iterations))),
      Member(Parallelism, Number(k.parallelism))),
      Member(OutputBytes, Number(k.outputBytes))))
  }

  function WrappedDekJson(w: WrappedDek, wrapped: seq<byte>): string {
    Object(Next(Next(
      Member(Algorithm, Fixed(XChaCha20Poly1305)),
      Member(Nonce, Bare(Base64Url(w.nonce)))),
      Member(Ciphertext, Bare(Base64Url(wrapped)))))
  }

  lemma KdfJsonLength(k: KdfParams)
    ensures Utf8Bytes(KdfJson(k)) == KdfLength(k)
  {
    hide Utf8Bytes, IsAscii, Fixed, Bare, Number, Member, Next, Object, DecimalLength, Base64Url, Base64UrlLength;
  }

  lemma WrappedDekJsonLength(w: WrappedDek, wrapped: seq<byte>)
    requires |wrapped| == CiphertextLength(w.ciphertext)
    ensures Utf8Bytes(WrappedDekJson(w, wrapped)) == WrappedDekLength(w)
  {
    hide Utf8Bytes, IsAscii, Fixed, Bare, Member, Next, Object, Base64Url, CiphertextLength, Base64UrlLength;
  }

  lemma MetaJsonLength(m: Meta, wrapped: seq<byte>)
    requires |wrapped| == CiphertextLength(m.wrappedDek.ciphertext)
    ensures Utf8Bytes(MetaJson(m, wrapped)) == MetaLength(m)
  {
    hide Utf8Bytes, IsAscii, Fixed, Bare, Quoted, Number, Member, Next, Object, DecimalLength, StringLength, Base64Url,
         CiphertextLength, Base64UrlLength, KdfJson, KdfLength, WrappedDekJson, WrappedDekLength;
    KdfJsonLength(m.kdf);
    WrappedDekJsonLength(m.wrappedDek, wrapped);
  }

  function EntryJson(e: Entry): string {
    var secret := Next(Next(
      Member(Id, Bare(Base64Url(e.id))),
      Member(Title, Quoted(e.fields.title))),
      Member(Secret, Quoted(e.fields.secret)));
    var described := match e.fields.description
      case None => secret
      case Some(d) => Next(secret, Member(Description, Quoted(d)));
    Object(Next(Next(described,
      Member(CreatedAt, Number(e.createdAt))),
      Member(UpdatedAt, Number(e.updatedAt))))
  }

  lemma EntryJsonLength(e: Entry)
    ensures Utf8Bytes(EntryJson(e)) == EntryLength(e)
  {
    hide Utf8Bytes, IsAscii, Fixed, Bare, Quoted, Number, Member, Next, Object, DecimalLength, StringLength,
         Base64Url, Base64UrlLength;
  }

  function EntriesJson(entries: seq<Entry>): string {
    if entries == [] then ""
    else if |entries| == 1 then EntryJson(entries[0])
    else Next(EntryJson(entries[0]), EntriesJson(entries[1..]))
  }

  lemma {:induction false} EntriesJsonLength(entries: seq<Entry>)
    ensures Utf8Bytes(EntriesJson(entries)) == EntriesLength(entries)
  {
    hide Utf8Bytes, Next, Object, EntryJson, EntryLength, Array, Bare, Quoted;
    if entries == [] {
      AsciiLength("");
    } else {
        EntryJsonLength(entries[0]);
      EntriesJsonLength(entries[1..]);
    }
  }

  function ContainerJsonText(c: Container): string {
    Object(Next(Next(Next(Next(Next(Next(
      Member(Format, Quoted(c.format)),
      Member(Version, Number(c.version))),
      Member(VaultId, Bare(Base64Url(c.vaultId)))),
      Member(Generation, Number(c.generation))),
      Member(CreatedAt, Number(c.createdAt))),
      Member(UpdatedAt, Number(c.updatedAt))),
      Member(Entries, Array(EntriesJson(c.entries)))))
  }

  lemma ContainerJsonLength(c: Container)
    ensures Utf8Bytes(ContainerJsonText(c)) == ContainerLength(c)
  {
    hide Utf8Bytes, IsAscii, Fixed, Bare, Quoted, Number, Member, Next, Object, Array, DecimalLength, StringLength,
         Base64Url, Base64UrlLength, EntriesLength, EntriesJson;
    EntriesJsonLength(c.entries);
  }
}
