/** Tag observations inside active-tag frames (bridge_core/reader_protocol.py:181-281). */
module TagData {
  import opened Wrappers
  import opened Crc

  datatype Tag = Tag(
    protocolType: byte,
    antenna: Option<byte>,
    pc: Option<int>,
    epc: string,
    tid: string,
    count: Option<int>)

  /** The optional fields of a payload as they travel, before decoding. */
  datatype Fields = Fields(
    antenna: Option<seq<byte>>,
    pc: Option<seq<byte>>,
    epc: Option<seq<byte>>,
    tid: Option<seq<byte>>,
    count: Option<seq<byte>>)

  function Digit(n: nat): char
    requires n < 16
  {
    "0123456789ABCDEF"[n]
  }

  /** bytes.hex().upper() */
  function Hex(data: seq<byte>): (s: string)
    ensures |s| == 2 * |data|
  {
    if data == [] then "" else [Digit(data[0] as nat / 16), Digit(data[0] as nat % 16)] + Hex(data[1..])
  }

  /** Big-endian two's complement. */
  function Signed(data: seq<byte>): int
    requires data != []
  {
    var n := Unsigned(data);
    if data[0] >= 128 then n - Range(|data|) else n
  }

  function Unsigned(data: seq<byte>): nat {
    if data == [] then 0 else data[0] as nat * Range(|data| - 1) + Unsigned(data[1..])
  }

  function Range(k: nat): nat {
    if k == 0 then 1 else 256 * Range(k - 1)
  }

  /** _take: the next `length` bytes and the offset behind them. */
  function Take(payload: seq<byte>, offset: nat, length: nat): (r: Result<(seq<byte>, nat)>)
    requires offset <= |payload|
    ensures r.Ok? ==> r.value.1 == offset + length <= |payload| && |r.value.0| == length
  {
    if offset + length > |payload| then Err("Tag payload ended.")
    else Ok((payload[offset..offset + length], offset + length))
  }

  /** A length byte and that many bytes. */
  function TakeCounted(payload: seq<byte>, offset: nat): (r: Result<(seq<byte>, nat)>)
    requires offset <= |payload|
    ensures r.Ok? ==> offset < r.value.1 <= |payload|
  {
    var (length, next) :- Take(payload, offset, 1);
    Take(payload, next, length[0] as nat)
  }

  /** What a payload of tag fields says. */
  function Decode(protocolType: byte, f: Fields): Tag
    requires f.antenna.Some? ==> |f.antenna.value| == 1
    requires f.pc.Some? ==> |f.pc.value| == 2
    requires f.count.Some? ==> |f.count.value| == 4
  {
    Tag(
      protocolType,
      match f.antenna case Some(raw) => Some(raw[0]) case None => None,
      match f.pc case Some(raw) => Some(Signed(raw)) case None => None,
      match f.epc case Some(raw) => Hex(raw) case None => "",
      match f.tid case Some(raw) => Hex(raw) case None => "",
      match f.count case Some(raw) => Some(Signed(raw)) case None => None)
  }

  function Present(mask: byte, bit: nat): bool {
    mask as nat / (if bit == 0 then 1 else if bit == 1 then 2 else if bit == 2 then 4 else if bit == 3 then 8 else 16) % 2 == 1
  }

  /** parse_tag_data, as one expression. The mask bits in use are all in payload[3]. */
  function ParsedTag(payload: seq<byte>): Result<Tag> {
    if |payload| < 5 then Err("Tag payload is shorter than its mask and protocol fields.")
    else
      var mask := payload[3];
      var (antenna, o1) :- Optional(Present(mask, 0), payload, 5, 1);
      var (pc, o2) :- Optional(Present(mask, 1), payload, o1, 2);
      var (epc, o3) :- OptionalCounted(Present(mask, 2), payload, o2);
      var (tid, o4) :- OptionalCounted(Present(mask, 3), payload, o3);
      var (count, _) :- Optional(Present(mask, 4), payload, o4, 4);
      Ok(Decode(payload[4], Fields(antenna, pc, epc, tid, count)))
  }

  function Optional(present: bool, payload: seq<byte>, offset: nat, length: nat): (r: Result<(Option<seq<byte>>, nat)>)
    requires offset <= |payload|
    ensures r.Ok? ==> r.value.1 <= |payload|
    ensures r.Ok? && r.value.0.Some? ==> |r.value.0.value| == length
  {
    if !present then Ok((None, offset))
    else
      var (raw, next) :- Take(payload, offset, length);
      Ok((Some(raw), next))
  }

  function OptionalCounted(present: bool, payload: seq<byte>, offset: nat): (r: Result<(Option<seq<byte>>, nat)>)
    requires offset <= |payload|
    ensures r.Ok? ==> r.value.1 <= |payload|
  {
    if !present then Ok((None, offset))
    else
      var (raw, next) :- TakeCounted(payload, offset);
      Ok((Some(raw), next))
  }

  /** parse_tag_data, advancing one offset over the payload. */
  method ParseTagData(payload: seq<byte>) returns (r: Result<Tag>)
    ensures r == ParsedTag(payload)
  {
    if |payload| < 5 {
      return Err("Tag payload is shorter than its mask and protocol fields.");
    }
    var mask, protocolType := payload[3], payload[4];
    var offset: nat := 5;
    var antenna: Option<byte>, pc: Option<int>, epc, tid, count: Option<int> := None, None, "", "", None;
    if Present(mask, 0) {
      var raw :- Take(payload, offset, 1);
      antenna, offset := Some(raw.0[0]), raw.1;
    }
    if Present(mask, 1) {
      var raw :- Take(payload, offset, 2);
      pc, offset := Some(Signed(raw.0)), raw.1;
    }
    if Present(mask, 2) {
      var rawLength :- Take(payload, offset, 1);
      var raw :- Take(payload, rawLength.1, rawLength.0[0] as nat);
      epc, offset := Hex(raw.0), raw.1;
    }
    if Present(mask, 3) {
      var rawLength :- Take(payload, offset, 1);
      var raw :- Take(payload, rawLength.1, rawLength.0[0] as nat);
      tid, offset := Hex(raw.0), raw.1;
    }
    if Present(mask, 4) {
      var raw :- Take(payload, offset, 4);
      count := Some(Signed(raw.0));
    }
    return Ok(Tag(protocolType, antenna, pc, epc, tid, count));
  }

  // ------------------------------------------------------------- round trip

  ghost predicate Fits(f: Fields) {
    && (f.antenna.Some? ==> |f.antenna.value| == 1)
    && (f.pc.Some? ==> |f.pc.value| == 2)
    && (f.epc.Some? ==> |f.epc.value| <= 255)
    && (f.tid.Some? ==> |f.tid.value| <= 255)
    && (f.count.Some? ==> |f.count.value| == 4)
  }

  function Plain(f: Option<seq<byte>>): seq<byte> {
    match f case Some(raw) => raw case None => []
  }

  function Counted(f: Option<seq<byte>>): seq<byte>
    requires f.Some? ==> |f.value| <= 255
  {
    match f case Some(raw) => [|raw| as byte] + raw case None => []
  }

  /** The mask that a reader sends with these fields. */
  function Mask(f: Fields): nat {
    (if f.antenna.Some? then 1 else 0) + (if f.pc.Some? then 2 else 0) + (if f.epc.Some? then 4 else 0)
    + (if f.tid.Some? then 8 else 0) + (if f.count.Some? then 16 else 0)
  }

  /**
    The first five bytes: a mask of 32 bits, of which the lowest five tell the
    fields that follow and the others mean nothing, and the protocol type.
   */
  ghost predicate Announces(header: seq<byte>, f: Fields) {
    |header| == 5 && header[3] as nat % 32 == Mask(f)
  }

  /** One field's bit in the mask. */
  lemma MaskBits(mask: byte, f: Fields)
    ensures
      mask as nat % 32 == Mask(f) <==>
      && Present(mask, 0) == f.antenna.Some?
      && Present(mask, 1) == f.pc.Some?
      && Present(mask, 2) == f.epc.Some?
      && Present(mask, 3) == f.tid.Some?
      && Present(mask, 4) == f.count.Some?
  {
    var m := mask as nat;
    LowBits(m);
    assert m % 32 == m % 2 + 2 * (m / 2 % 2) + 4 * (m / 4 % 2) + 8 * (m / 8 % 2) + 16 * (m / 16 % 2);
  }

  lemma LowBits(m: nat)
    ensures m % 32 == m % 2 + 2 * (m / 2 % 2) + 4 * (m / 4 % 2) + 8 * (m / 8 % 2) + 16 * (m / 16 % 2)
  {
    FourBits(m);
    assert m % 16 == m % 2 + 2 * (m / 2 % 2) + 4 * (m / 4 % 2) + 8 * (m / 8 % 2);
    assert m / 16 == 2 * (m / 32) + m / 16 % 2;
  }

  lemma FourBits(m: nat)
    ensures m % 16 == m % 2 + 2 * (m / 2 % 2) + 4 * (m / 4 % 2) + 8 * (m / 8 % 2)
  {
    assert m % 4 == m % 2 + 2 * (m / 2 % 2);
    assert m / 4 == 2 * (m / 8) + m / 4 % 2;
    assert m / 8 == 2 * (m / 16) + m / 8 % 2;
  }

  /** The payload of these fields. */
  function Encode(header: seq<byte>, f: Fields): seq<byte>
    requires Fits(f)
  {
    Front(header, f, 5)
  }

  lemma OptionalReads(front: seq<byte>, f: Option<seq<byte>>, back: seq<byte>, length: nat)
    requires f.Some? ==> |f.value| == length
    ensures Optional(f.Some?, front + Plain(f) + back, |front|, length) == Ok((f, |front + Plain(f)|))
  {
    if f.Some? {
      assert (front + f.value + back)[|front|..|front| + length] == f.value;
    }
  }

  lemma CountedReads(front: seq<byte>, f: Option<seq<byte>>, back: seq<byte>)
    requires f.Some? ==> |f.value| <= 255
    ensures OptionalCounted(f.Some?, front + Counted(f) + back, |front|) == Ok((f, |front + Counted(f)|))
  {
    if f.Some? {
      var payload := front + Counted(f) + back;
      assert payload[|front|..|front| + 1] == [|f.value| as byte];
      assert payload[|front| + 1..|front| + 1 + |f.value|] == f.value;
    }
  }

  /** The payload in front of field `k`, for k from 0 to 4, and the whole of it for 5. */
  function Front(header: seq<byte>, f: Fields, k: nat): (front: seq<byte>)
    requires Fits(f)
    ensures |header| <= |front|
  {
    if k == 0 then header
    else Front(header, f, k - 1) + Piece(f, k - 1)
  }

  function Piece(f: Fields, k: nat): seq<byte>
    requires Fits(f)
  {
    if k == 0 then Plain(f.antenna)
    else if k == 1 then Plain(f.pc)
    else if k == 2 then Counted(f.epc)
    else if k == 3 then Counted(f.tid)
    else Plain(f.count)
  }

  lemma Layout(header: seq<byte>, f: Fields, trailing: seq<byte>, k: nat) returns (back: seq<byte>)
    requires Fits(f) && k <= 4
    ensures Encode(header, f) + trailing == Front(header, f, k) + Piece(f, k) + back
    decreases 4 - k
  {
    if k == 4 {
      back := trailing;
    } else {
      var rest := Layout(header, f, trailing, k + 1);
      back := Piece(f, k + 1) + rest;
      assert Front(header, f, k + 1) + Piece(f, k + 1) + rest
          == Front(header, f, k) + Piece(f, k) + (Piece(f, k + 1) + rest);
    }
  }

  /** Every well-sized combination of fields is read back as sent, whatever follows it. */
  lemma {:induction false} EncodeThenParse(header: seq<byte>, f: Fields, trailing: seq<byte>)
    requires Fits(f) && Announces(header, f)
    ensures ParsedTag(Encode(header, f) + trailing) == Ok(Decode(header[4], f))
  {
    var payload := Encode(header, f) + trailing;
    var b0 := Layout(header, f, trailing, 0);
    var b1 := Layout(header, f, trailing, 1);
    var b2 := Layout(header, f, trailing, 2);
    var b3 := Layout(header, f, trailing, 3);
    var b4 := Layout(header, f, trailing, 4);
    MaskBits(header[3], f);
    hide Encode, Optional, OptionalCounted, Plain, Counted, Present, Decode, Piece, Mask;
    assert payload == header + (Piece(f, 0) + b0);
    OptionalReads(Front(header, f, 0), f.antenna, b0, 1);
    OptionalReads(Front(header, f, 1), f.pc, b1, 2);
    CountedReads(Front(header, f, 2), f.epc, b2);
    CountedReads(Front(header, f, 3), f.tid, b3);
    OptionalReads(Front(header, f, 4), f.count, b4, 4);
  }

  lemma OptionalTakes(present: bool, payload: seq<byte>, offset: nat, length: nat)
    requires offset <= |payload|
    ensures
      var r := Optional(present, payload, offset, length);
      r.Ok? ==>
        && present == r.value.0.Some? && offset <= r.value.1
        && payload[..r.value.1] == payload[..offset] + Plain(r.value.0)
  {
  }

  lemma CountedTakes(present: bool, payload: seq<byte>, offset: nat)
    requires offset <= |payload|
    ensures
      var r := OptionalCounted(present, payload, offset);
      r.Ok? ==>
        && present == r.value.0.Some? && offset <= r.value.1
        && (present ==> |r.value.0.value| <= 255)
        && payload[..r.value.1] == payload[..offset] + Counted(r.value.0)
  {
    if present && OptionalCounted(present, payload, offset).Ok? {
      var raw := OptionalCounted(present, payload, offset).value.0.value;
      assert |raw| == payload[offset..offset + 1][0] as nat;
      assert payload[offset..offset + 1] == [|raw| as byte];
    }
  }

  lemma FrontIs(header: seq<byte>, f: Fields)
    requires Fits(f)
    ensures
      Encode(header, f) == header + Plain(f.antenna) + Plain(f.pc) + Counted(f.epc) + Counted(f.tid) + Plain(f.count)
  {
    hide Plain, Counted;
    assert Front(header, f, 1) == header + Plain(f.antenna);
    assert Front(header, f, 2) == header + Plain(f.antenna) + Plain(f.pc);
    assert Front(header, f, 3) == header + Plain(f.antenna) + Plain(f.pc) + Counted(f.epc);
    assert Front(header, f, 4) == header + Plain(f.antenna) + Plain(f.pc) + Counted(f.epc) + Counted(f.tid);
  }

  /** Whatever parse_tag_data accepts starts with the encoding of the fields it returns. */
  lemma {:induction false} ParseThenEncode(payload: seq<byte>) returns (f: Fields, trailing: seq<byte>)
    requires ParsedTag(payload).Ok?
    ensures |payload| >= 5 && Fits(f) && Announces(payload[..5], f)
    ensures payload == Encode(payload[..5], f) + trailing
    ensures ParsedTag(payload) == Ok(Decode(payload[4], f))
  {
    hide Optional, OptionalCounted, Plain, Counted, Present, Decode, Encode, Mask;
    var header, mask := payload[..5], payload[3];
    var (antenna, o1) := Optional(Present(mask, 0), payload, 5, 1).value;
    OptionalTakes(Present(mask, 0), payload, 5, 1);
    var (pc, o2) := Optional(Present(mask, 1), payload, o1, 2).value;
    OptionalTakes(Present(mask, 1), payload, o1, 2);
    var (epc, o3) := OptionalCounted(Present(mask, 2), payload, o2).value;
    CountedTakes(Present(mask, 2), payload, o2);
    var (tid, o4) := OptionalCounted(Present(mask, 3), payload, o3).value;
    CountedTakes(Present(mask, 3), payload, o3);
    var (count, o5) := Optional(Present(mask, 4), payload, o4, 4).value;
    OptionalTakes(Present(mask, 4), payload, o4, 4);
    f := Fields(antenna, pc, epc, tid, count);
    MaskBits(mask, f);
    FrontIs(header, f);
    assert payload == payload[..o5] + payload[o5..];
    trailing := payload[o5..];
  }

  // ------------------------------------------------- what the fields say

  /** The value of a hexadecimal digit in upper case, read off the character. */
  function DigitValue(c: char): int {
    if '0' <= c <= '9' then c as int - '0' as int
    else if 'A' <= c <= 'F' then c as int - 'A' as int + 10
    else -1
  }

  predicate HexPair(high: char, low: char, b: byte) {
    DigitValue(high) >= 0 && DigitValue(low) >= 0 && DigitValue(high) * 16 + DigitValue(low) == b as int
  }

  /** Two upper-case digits for every byte, in order. */
  ghost predicate IsHex(s: string, data: seq<byte>) {
    |s| == 2 * |data| && forall i :: 0 <= i < |data| ==> HexPair(s[2 * i], s[2 * i + 1], data[i])
  }

  lemma DigitIs(n: nat)
    requires n < 16
    ensures DigitValue(Digit(n)) == n
  {
  }

  lemma {:induction false} HexIsHex(data: seq<byte>)
    ensures IsHex(Hex(data), data)
  {
    if data != [] {
      var rest := Hex(data[1..]);
      HexIsHex(data[1..]);
      DigitIs(data[0] as nat / 16);
      DigitIs(data[0] as nat % 16);
      hide DigitValue, Digit;
      forall i | 0 <= i < |data| ensures HexPair(Hex(data)[2 * i], Hex(data)[2 * i + 1], data[i]) {
        if i > 0 {
          assert HexPair(rest[2 * (i - 1)], rest[2 * (i - 1) + 1], data[1..][i - 1]);
        }
      }
    }
  }

  /** A byte has one pair of digits, and a pair one byte. */
  lemma HexPairUnique(high: char, low: char, b: byte, high': char, low': char, b': byte)
    requires HexPair(high, low, b) && HexPair(high', low', b')
    ensures b == b' <==> high == high' && low == low'
  {
  }

  lemma {:induction false} HexUnique(s: string, data: seq<byte>, t: string, other: seq<byte>)
    requires IsHex(s, data) && IsHex(t, other)
    ensures s == t <==> data == other
  {
    hide HexPair;
    if s == t {
      forall i | 0 <= i < |data| ensures data[i] == other[i] {
        HexPairUnique(s[2 * i], s[2 * i + 1], data[i], t[2 * i], t[2 * i + 1], other[i]);
      }
    }
    if data == other {
      forall k | 0 <= k < |s| ensures s[k] == t[k] {
        var i := k / 2;
        assert 0 <= i < |data| && (k == 2 * i || k == 2 * i + 1);
        HexPairUnique(s[2 * i], s[2 * i + 1], data[i], t[2 * i], t[2 * i + 1], other[i]);
      }
    }
  }

  /** The 16-bit two's complement number of two bytes, high byte first. */
  predicate IsInt16(n: int, data: seq<byte>) {
    |data| == 2 && -0x8000 <= n < 0x8000 && n % 0x1_0000 == data[0] as int * 0x100 + data[1] as int
  }

  /** The same of four bytes and 32 bits. */
  predicate IsInt32(n: int, data: seq<byte>) {
    && |data| == 4 && -0x8000_0000 <= n < 0x8000_0000
    && n % 0x1_0000_0000 ==
       data[0] as int * 0x100_0000 + data[1] as int * 0x1_0000 + data[2] as int * 0x100 + data[3] as int
  }

  lemma SignedIsInt16(data: seq<byte>, n: int)
    requires |data| == 2
    ensures n == Signed(data) <==> IsInt16(n, data)
  {
    assert Unsigned(data) == data[0] as nat * 256 + data[1] as nat by {
      assert Unsigned(data[1..]) == data[1] as nat;
    }
    assert Range(2) == 0x1_0000;
  }

  lemma SignedIsInt32(data: seq<byte>, n: int)
    requires |data| == 4
    ensures n == Signed(data) <==> IsInt32(n, data)
  {
    assert Range(1) == 0x100 && Range(2) == 0x1_0000 && Range(3) == 0x100_0000 && Range(4) == 0x1_0000_0000;
    assert Unsigned(data[3..]) == data[3] as nat;
    assert data[2..][1..] == data[3..] && data[1..][1..] == data[2..];
    assert Unsigned(data[2..]) == data[2] as nat * 0x100 + data[3] as nat;
    assert Unsigned(data[1..]) == data[1] as nat * 0x1_0000 + data[2] as nat * 0x100 + data[3] as nat;
  }

  /** The tag that these fields describe, without the decoder's functions. */
  ghost predicate Says(tag: Tag, protocolType: byte, f: Fields) {
    && tag.protocolType == protocolType
    && (match tag.antenna case Some(n) => f.antenna == Some([n]) case None => f.antenna.None?)
    && (match tag.pc case Some(n) => f.pc.Some? && IsInt16(n, f.pc.value) case None => f.pc.None?)
    && IsHex(tag.epc, Plain(f.epc)) && IsHex(tag.tid, Plain(f.tid))
    && (match tag.count case Some(n) => f.count.Some? && IsInt32(n, f.count.value) case None => f.count.None?)
  }

  lemma {:induction false} DecodeIffSays(protocolType: byte, f: Fields, tag: Tag)
    requires Fits(f)
    ensures tag == Decode(protocolType, f) <==> Says(tag, protocolType, f)
  {
    HexIsHex(Plain(f.epc));
    HexIsHex(Plain(f.tid));
    hide Signed, IsInt16, IsInt32, IsHex;
    if Says(tag, protocolType, f) {
      HexUnique(tag.epc, Plain(f.epc), Hex(Plain(f.epc)), Plain(f.epc));
      HexUnique(tag.tid, Plain(f.tid), Hex(Plain(f.tid)), Plain(f.tid));
    }
    if f.pc.Some? {
      SignedIsInt16(f.pc.value, Signed(f.pc.value));
      if tag.pc.Some? { SignedIsInt16(f.pc.value, tag.pc.value); }
    }
    if f.count.Some? {
      SignedIsInt32(f.count.value, Signed(f.count.value));
      if tag.count.Some? { SignedIsInt32(f.count.value, tag.count.value); }
    }
    assert f.antenna.Some? ==> f.antenna.value == [f.antenna.value[0]];
  }

  /** The payloads that parse_tag_data accepts with this result: those that start with the fields it describes. */
  lemma {:induction false} ParseIffEncodes(payload: seq<byte>, tag: Tag)
    ensures
      ParsedTag(payload) == Ok(tag) <==>
      exists header, f, trailing ::
        Fits(f) && Announces(header, f) && payload == Encode(header, f) + trailing && Says(tag, header[4], f)
  {
    hide ParsedTag, Encode, Decode, Says, Mask;
    if ParsedTag(payload) == Ok(tag) {
      var f, trailing := ParseThenEncode(payload);
      DecodeIffSays(payload[4], f, tag);
      assert payload[..5][4] == payload[4];
    }
    if header, f, trailing :|
      Fits(f) && Announces(header, f) && payload == Encode(header, f) + trailing && Says(tag, header[4], f)
    {
      DecodeIffSays(header[4], f, tag);
      EncodeThenParse(header, f, trailing);
    }
  }

  /** Two payloads that parse to equal tags had equal fields; an absent text field reads like an empty one. */
  lemma {:induction false} EqualTagsEqualFields(header: seq<byte>, f: Fields, other: seq<byte>, f': Fields)
    requires Fits(f) && Announces(header, f) && Fits(f') && Announces(other, f')
    requires ParsedTag(Encode(header, f)) == ParsedTag(Encode(other, f'))
    ensures header[4] == other[4]
    ensures f.antenna == f'.antenna && f.pc == f'.pc && f.count == f'.count
    ensures Plain(f.epc) == Plain(f'.epc) && Plain(f.tid) == Plain(f'.tid)
  {
    hide Encode, ParsedTag, Decode, IsHex, Mask;
    EncodeThenParse(header, f, []);
    EncodeThenParse(other, f', []);
    assert Encode(header, f) + [] == Encode(header, f) && Encode(other, f') + [] == Encode(other, f');
    var tag := ParsedTag(Encode(header, f)).value;
    DecodeIffSays(header[4], f, tag);
    DecodeIffSays(other[4], f', tag);
    HexUnique(tag.epc, Plain(f.epc), tag.epc, Plain(f'.epc));
    HexUnique(tag.tid, Plain(f.tid), tag.tid, Plain(f'.tid));
    if f.pc.Some? { assert f.pc.value == [f.pc.value[0], f.pc.value[1]] && f'.pc.value == [f'.pc.value[0], f'.pc.value[1]]; }
    if f.count.Some? { SameInt32(tag.count.value, f.count.value, f'.count.value); }
  }

  lemma SameInt32(n: int, data: seq<byte>, other: seq<byte>)
    requires IsInt32(n, data) && IsInt32(n, other)
    ensures data == other
  {
    assert data[0] == other[0] && data[1] == other[1] && data[2] == other[2] && data[3] == other[3];
  }
}
