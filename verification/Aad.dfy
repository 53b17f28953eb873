/** Additional authenticated data: length-prefixed framing of byte fields. */
module Aad {
  import opened Wrappers
  import opened Bytes

  datatype SlotId = A | B {
    function Other(): SlotId {
      match this
      case A => B
      case B => A
    }

    /** The label authenticated with a slot: the ASCII letter `a` or `b`. */
    function AadByte(): byte {
      match this
      case A => 97
      case B => 98
    }
  }

  type VaultId = s: seq<byte> | |s| == 16 witness [0, 0, 0, 0, 0, 0, 0, 0, 0, 0, 0, 0, 0, 0, 0, 0]

  /** `pocket-vault` */
  const FORMAT_BYTES: seq<byte> := [112, 111, 99, 107, 101, 116, 45, 118, 97, 117, 108, 116]
  /** `wrapped-dek` */
  const WRAPPED_DEK_OBJECT: seq<byte> := [119, 114, 97, 112, 112, 101, 100, 45, 100, 101, 107]
  /** `vault-slot` */
  const VAULT_SLOT_OBJECT: seq<byte> := [118, 97, 117, 108, 116, 45, 115, 108, 111, 116]
  const FORMAT_VERSION: u32 := 1

  function Field(value: seq<byte>): seq<byte> {
    BigEndian(|value|, 4) + value
  }

  function Frame(fields: seq<seq<byte>>): seq<byte> {
    if fields == [] then [] else Field(fields[0]) + Frame(fields[1..])
  }

  ghost predicate Framable(fields: seq<seq<byte>>) {
    forall i :: 0 <= i < |fields| ==> |fields[i]| < 0x1_0000_0000
  }

  /** An independent reader of framed bytes: a length, that many bytes, and so on to the end. */
  function Unframe(bytes: seq<byte>): Option<seq<seq<byte>>>
    decreases |bytes|
  {
    if bytes == [] then Some([])
    else if |bytes| < 4 then None
    else
      var n := FromBigEndian(bytes[..4]);
      if |bytes| < 4 + n then None
      else
        match Unframe(bytes[4 + n..])
        case None => None
        case Some(rest) => Some([bytes[4..4 + n]] + rest)
  }

  /** Framing is uniquely decodable. */
  lemma {:induction false} UnframeFrame(fields: seq<seq<byte>>)
    requires Framable(fields)
    ensures Unframe(Frame(fields)) == Some(fields)
  {
    if fields != [] {
      var value, rest := fields[0], Frame(fields[1..]);
      var bytes := Frame(fields);
      WidthsOfCounters();
      BigEndianRoundTrip(|value|, 4);
      assert bytes[..4] == BigEndian(|value|, 4);
      assert bytes[4..4 + |value|] == value;
      assert bytes[4 + |value|..] == rest;
      UnframeFrame(fields[1..]);
      assert fields == [value] + fields[1..];
    }
  }

  /** Nothing but a frame is accepted, and it is the frame of what was read. */
  lemma {:induction false} FrameUnframe(bytes: seq<byte>)
    requires Unframe(bytes).Some?
    ensures Framable(Unframe(bytes).value)
    ensures Frame(Unframe(bytes).value) == bytes
    decreases |bytes|
  {
    if bytes != [] {
      var n := FromBigEndian(bytes[..4]);
      WidthsOfCounters();
      FromBigEndianRoundTrip(bytes[..4]);
      FrameUnframe(bytes[4 + n..]);
      assert bytes == bytes[..4] + bytes[4..4 + n] + bytes[4 + n..];
    }
  }

  function WrappedDekFields(vaultId: VaultId): seq<seq<byte>> {
    [FORMAT_BYTES, WRAPPED_DEK_OBJECT, BigEndian(FORMAT_VERSION, 4), vaultId]
  }

  function VaultSlotFields(vaultId: VaultId, slot: SlotId, generation: u64): seq<seq<byte>> {
    [FORMAT_BYTES, VAULT_SLOT_OBJECT, BigEndian(FORMAT_VERSION, 4), vaultId, [slot.AadByte()],
     BigEndian(generation, 8)]
  }

  function WrappedDekAad(vaultId: VaultId): seq<byte> {
    Frame(WrappedDekFields(vaultId))
  }

  function VaultSlotAad(vaultId: VaultId, slot: SlotId, generation: u64): seq<byte> {
    Frame(VaultSlotFields(vaultId, slot, generation))
  }

  /** A slot's authenticated data determines its vault, its slot and its 64-bit generation. */
  lemma VaultSlotAadIsInjective(v1: VaultId, s1: SlotId, g1: u64, v2: VaultId, s2: SlotId, g2: u64)
    ensures VaultSlotAad(v1, s1, g1) == VaultSlotAad(v2, s2, g2) <==> v1 == v2 && s1 == s2 && g1 == g2
  {
    if VaultSlotAad(v1, s1, g1) == VaultSlotAad(v2, s2, g2) {
      var f1, f2 := VaultSlotFields(v1, s1, g1), VaultSlotFields(v2, s2, g2);
      UnframeFrame(f1);
      UnframeFrame(f2);
      assert f1 == f2;
      assert f1[3] == f2[3] && f1[4][0] == f2[4][0] && f1[5] == f2[5];
      WidthsOfCounters();
      BigEndianRoundTrip(g1, 8);
      BigEndianRoundTrip(g2, 8);
    }
  }

  lemma WrappedDekAadIsInjective(v1: VaultId, v2: VaultId)
    ensures WrappedDekAad(v1) == WrappedDekAad(v2) <==> v1 == v2
  {
    UnframeFrame(WrappedDekFields(v1));
    UnframeFrame(WrappedDekFields(v2));
    assert WrappedDekFields(v1)[3] == v1 && WrappedDekFields(v2)[3] == v2;
  }

  /** A slot never authenticates as a wrapped key, nor the reverse. */
  lemma SlotAadIsNeverWrappedDekAad(v1: VaultId, slot: SlotId, generation: u64, v2: VaultId)
    ensures VaultSlotAad(v1, slot, generation) != WrappedDekAad(v2)
  {
    UnframeFrame(VaultSlotFields(v1, slot, generation));
    UnframeFrame(WrappedDekFields(v2));
    assert |VaultSlotFields(v1, slot, generation)| != |WrappedDekFields(v2)|;
  }

  // ---- The bytes themselves ----

  function Ascii(s: string): seq<byte>
    requires forall i :: 0 <= i < |s| ==> s[i] < 128 as char
  {
    seq(|s|, i requires 0 <= i < |s| => s[i] as int)
  }

  /** Eight bytes with the most significant first. */
  predicate Spells(bytes: seq<byte>, n: u64) {
    && |bytes| == 8
    && var high := 0x100_0000 * bytes[0] as int + 0x1_0000 * bytes[1] as int + 0x100 * bytes[2] as int + bytes[3] as int;
       var low := 0x100_0000 * bytes[4] as int + 0x1_0000 * bytes[5] as int + 0x100 * bytes[6] as int + bytes[7] as int;
       n as int == 0x1_0000_0000 * high + low
  }

  lemma BigEndianSpells(n: u64)
    ensures Spells(BigEndian(n, 8), n)
  {
    var s := BigEndian(n, 8);
    WidthsOfCounters();
    BigEndianRoundTrip(n, 8);
    forall k | 0 < k <= 8 ensures FromBigEndian(s[..k]) == 256 * FromBigEndian(s[..k - 1]) + s[k - 1] {
      assert s[..k][..k - 1] == s[..k - 1];
    }
    assert s[..8] == s;
  }

  lemma SmallBigEndian()
    ensures forall n: byte :: BigEndian(n, 4) == [0, 0, 0, n]
  {
    assert BigEndian(0, 2) == [0, 0];
    assert BigEndian(0, 3) == [0, 0, 0];
  }

  lemma FrameStep(fields: seq<seq<byte>>, k: nat)
    requires k < |fields|
    ensures Frame(fields[k..]) == Field(fields[k]) + Frame(fields[k + 1..])
  {
    assert fields[k..][1..] == fields[k + 1..];
  }

  lemma FourFields(fields: seq<seq<byte>>)
    requires |fields| == 4
    ensures Frame(fields) == Field(fields[0]) + (Field(fields[1]) + (Field(fields[2]) + Field(fields[3])))
  {
    hide Field;
    FrameStep(fields, 3);
    FrameStep(fields, 2);
    FrameStep(fields, 1);
    assert fields[4..] == [] && Field(fields[3]) + [] == Field(fields[3]);
  }

  /** A field shorter than 256 bytes. */
  lemma SmallField(value: seq<byte>)
    requires |value| < 256
    ensures Field(value) == [0, 0, 0, |value|] + value
  {
    hide BigEndian;
    SmallBigEndian();
  }

  lemma LabelsAreAscii()
    ensures Ascii("pocket-vault") == FORMAT_BYTES
    ensures Ascii("vault-slot") == VAULT_SLOT_OBJECT
    ensures Ascii("wrapped-dek") == WRAPPED_DEK_OBJECT
  {
  }

  lemma SixFields(fields: seq<seq<byte>>)
    requires |fields| == 6
    ensures Frame(fields) == Field(fields[0]) + (Field(fields[1]) + Frame(fields[2..]))
  {
    hide Frame, Field;
    FrameStep(fields, 1);
    FrameStep(fields, 0);
    assert fields[0..] == fields;
  }

  lemma Regrouped(a: seq<byte>, b: seq<byte>, c: seq<byte>, d: seq<byte>, e: seq<byte>, f: seq<byte>, g: seq<byte>)
    ensures var whole := a + (b + (c + (d + (e + (f + g)))));
            var before := a + b + c + d + e + f;
            whole == before + g && whole[..|before|] == before && whole[|before|..] == g
  {
    assert a + (b + (c + (d + (e + (f + g))))) == a + b + c + d + e + f + g;
  }

  /** What is authenticated with a slot, byte by byte: six fields behind their lengths, in this order. */
  lemma VaultSlotAadBytes(vaultId: VaultId, slot: SlotId, generation: u64)
    ensures var aad := VaultSlotAad(vaultId, slot, generation);
            && |aad| == 75 && Spells(aad[67..], generation)
            && aad[..67]
               == ([0, 0, 0, 12] + Ascii("pocket-vault")) + ([0, 0, 0, 10] + Ascii("vault-slot"))
                  + ([0, 0, 0, 4] + [0, 0, 0, 1]) + ([0, 0, 0, 16] + vaultId)
                  + ([0, 0, 0, 1] + [if slot.A? then 97 else 98]) + [0, 0, 0, 8]
  {
    hide BigEndian, Frame, Field, Ascii, Spells;
    LabelsAreAscii();
    SmallBigEndian();
    BigEndianSpells(generation);
    var fields := VaultSlotFields(vaultId, slot, generation);
    SixFields(fields);
    FourFields(fields[2..]);
    SmallField(fields[0]);
    SmallField(fields[1]);
    SmallField(fields[2]);
    SmallField(fields[3]);
    SmallField(fields[4]);
    SmallField(fields[5]);
    Regrouped(Field(fields[0]), Field(fields[1]), Field(fields[2]), Field(fields[3]), Field(fields[4]), [0, 0, 0, 8],
              fields[5]);
  }

  /** What is authenticated with a wrapped key: four fields behind their lengths. */
  lemma WrappedDekAadBytes(vaultId: VaultId)
    ensures WrappedDekAad(vaultId)
         == ([0, 0, 0, 12] + Ascii("pocket-vault"))
            + (([0, 0, 0, 11] + Ascii("wrapped-dek")) + (([0, 0, 0, 4] + [0, 0, 0, 1]) + ([0, 0, 0, 16] + vaultId)))
  {
    hide BigEndian, Frame, Field, Ascii;
    LabelsAreAscii();
    SmallBigEndian();
    var fields := WrappedDekFields(vaultId);
    FourFields(fields);
    SmallField(fields[0]);
    SmallField(fields[1]);
    SmallField(fields[2]);
    SmallField(fields[3]);
  }

  /** A growable byte vector, as the builders below fill it. */
  class ByteVec {
    var bytes: seq<byte>

    constructor ()
      ensures bytes == []
    {
      bytes := [];
    }

    method ExtendFromSlice(more: seq<byte>)
      modifies this
      ensures bytes == old(bytes) + more
    {
      bytes := bytes + more;
    }
  }

  method PushAadField(output: ByteVec, value: seq<byte>)
    requires |value| < 0x1_0000_0000
    modifies output
    ensures output.bytes == old(output.bytes) + Field(value)
  {
    output.ExtendFromSlice(BigEndian(|value|, 4));
    output.ExtendFromSlice(value);
    assert old(output.bytes) + BigEndian(|value|, 4) + value == old(output.bytes) + Field(value);
  }

  lemma {:induction false} FrameAppend(fields: seq<seq<byte>>, value: seq<byte>)
    ensures Frame(fields + [value]) == Frame(fields) + Field(value)
  {
    if fields == [] {
      assert Frame([value]) == Field(value) + Frame([]);
    } else {
      FrameAppend(fields[1..], value);
      assert (fields + [value])[1..] == fields[1..] + [value];
      assert Frame(fields + [value]) == Field(fields[0]) + (Frame(fields[1..]) + Field(value));
    }
  }

  /** Pushing field `k` after the frame of the fields before it frames one field more. */
  method PushFramed(output: ByteVec, ghost fields: seq<seq<byte>>, ghost k: nat, value: seq<byte>)
    requires |value| < 0x1_0000_0000
    requires k < |fields| && fields[k] == value
    requires output.bytes == Frame(fields[..k])
    modifies output
    ensures output.bytes == Frame(fields[..k + 1])
  {
    FrameAppend(fields[..k], value);
    assert fields[..k + 1] == fields[..k] + [value];
    PushAadField(output, value);
  }

  method BuildWrappedDekAad(vaultId: VaultId) returns (aad: seq<byte>)
    ensures aad == WrappedDekAad(vaultId)
  {
    var output := new ByteVec();
    ghost var fields := WrappedDekFields(vaultId);
    PushFramed(output, fields, 0, FORMAT_BYTES);
    PushFramed(output, fields, 1, WRAPPED_DEK_OBJECT);
    PushFramed(output, fields, 2, BigEndian(FORMAT_VERSION, 4));
    PushFramed(output, fields, 3, vaultId);
    assert fields[..4] == fields;
    aad := output.bytes;
  }

  method BuildVaultSlotAad(vaultId: VaultId, slot: SlotId, generation: u64) returns (aad: seq<byte>)
    ensures aad == VaultSlotAad(vaultId, slot, generation)
  {
    var output := new ByteVec();
    ghost var fields := VaultSlotFields(vaultId, slot, generation);
    PushFramed(output, fields, 0, FORMAT_BYTES);
    PushFramed(output, fields, 1, VAULT_SLOT_OBJECT);
    PushFramed(output, fields, 2, BigEndian(FORMAT_VERSION, 4));
    PushFramed(output, fields, 3, vaultId);
    PushFramed(output, fields, 4, [slot.AadByte()]);
    PushFramed(output, fields, 5, BigEndian(generation, 8));
    assert fields[..6] == fields;
    aad := output.bytes;
  }
}
