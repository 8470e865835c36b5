/** Frames of the reader protocol (bridge_core/reader_protocol.py:1-156). */
module ReaderProtocol {
  import opened Wrappers
  import opened Crc
  import opened BitStrings

  const SOF: byte := 0xFE
  const MIN_FRAME_LENGTH: nat := 9
  const MAX_FRAME_LENGTH: nat := 65535

  const COMMAND_STOP: byte := 0x7F
  const COMMAND_START_INVENTORY: byte := 0x81
  const COMMAND_ACTIVE_TAG: byte := 0xF9

  datatype Frame = Frame(
    address: byte,
    sequence: byte,
    command: byte,
    status: byte,
    payload: seq<byte>,
    raw: seq<byte>)

  /** struct.pack(">H", n) */
  function PackWord(n: nat): (w: seq<byte>)
    requires n < 0x10000
    ensures |w| == 2
  {
    [(n / 256) as byte, (n % 256) as byte]
  }

  /** struct.unpack(">H", [hi, lo]) */
  function UnpackWord(hi: byte, lo: byte): (n: nat)
    ensures n < 0x10000
  {
    hi as nat * 256 + lo as nat
  }

  predicate IsByte(n: int) {
    0 <= n <= 255
  }

  function BuildFrame(address: int, sequence: int, command: int, payload: seq<byte>, status: int): Result<seq<byte>> {
    if !IsByte(address) then Err("address must be between 0 and 255.")
    else if !IsByte(sequence) then Err("sequence must be between 0 and 255.")
    else if !IsByte(command) then Err("command must be between 0 and 255.")
    else if !IsByte(status) then Err("status must be between 0 and 255.")
    else if MIN_FRAME_LENGTH + |payload| > MAX_FRAME_LENGTH then Err("Frame exceeds the two-byte length field.")
    else
      var body := [SOF] + PackWord(MIN_FRAME_LENGTH + |payload|)
                  + [address as byte, sequence as byte, command as byte, status as byte] + payload;
      Ok(body + PackWord(Checksum(body)))
  }

  function ParseFrame(raw: seq<byte>): Result<Frame> {
    if |raw| < MIN_FRAME_LENGTH then Err("Frame is shorter than nine bytes.")
    else if raw[0] != SOF then Err("Frame does not start with 0xFE.")
    else
      var declared := UnpackWord(raw[1], raw[2]);
      if declared < MIN_FRAME_LENGTH then Err("Declared frame length is invalid.")
      else if declared != |raw| then Err("Declared frame length does not match received bytes.")
      else if Checksum(raw[..|raw| - 2]) != UnpackWord(raw[|raw| - 2], raw[|raw| - 1]) then
        Err("Frame CRC validation failed.")
      else
        Ok(Frame(raw[3], raw[4], raw[5], raw[6], raw[7..|raw| - 2], raw))
  }

  /** What build_frame writes, field by field, for arguments it accepts. */
  ghost predicate Encodes(raw: seq<byte>, frame: Frame) {
    && |raw| == 9 + |frame.payload| <= 65535
    && raw[0] == 0xFE
    && raw[1] as nat * 256 + raw[2] as nat == |raw|
    && raw[3..7] == [frame.address, frame.sequence, frame.command, frame.status]
    && raw[7..|raw| - 2] == frame.payload
    && raw[|raw| - 2] as nat * 256 + raw[|raw| - 1] as nat == Checksum(raw[..|raw| - 2])
    && frame.raw == raw
  }

  /** parse_frame accepts exactly the strings that encode a frame. */
  lemma {:induction false} ParseIffEncodes(raw: seq<byte>, frame: Frame)
    ensures ParseFrame(raw) == Ok(frame) <==> Encodes(raw, frame)
  {
    hide Checksum;
    if Encodes(raw, frame) {
      assert raw[3] == raw[3..7][0] && raw[4] == raw[3..7][1] && raw[5] == raw[3..7][2] && raw[6] == raw[3..7][3];
    }
  }

  lemma {:induction false} BuildEncodes(address: byte, sequence: byte, command: byte, payload: seq<byte>, status: byte, raw: seq<byte>)
    requires BuildFrame(address as int, sequence as int, command as int, payload, status as int) == Ok(raw)
    ensures Encodes(raw, Frame(address, sequence, command, status, payload, raw))
  {
    hide Checksum;
    var n := MIN_FRAME_LENGTH + |payload|;
    var body := [SOF] + PackWord(n) + [address, sequence, command, status] + payload;
    assert raw == body + PackWord(Checksum(body));
    assert raw[..|raw| - 2] == body;
    assert raw[7..|raw| - 2] == payload;
  }

  /** Building and then parsing returns the fields that were built. */
  lemma {:induction false} BuildThenParse(address: int, sequence: int, command: int, payload: seq<byte>, status: int)
    ensures
      var built := BuildFrame(address, sequence, command, payload, status);
      && (built.Ok? <==> IsByte(address) && IsByte(sequence) && IsByte(command) && IsByte(status) && |payload| <= 65526)
      && (built.Ok? ==>
          ParseFrame(built.value) ==
          Ok(Frame(address as byte, sequence as byte, command as byte, status as byte, payload, built.value)))
  {
    var built := BuildFrame(address, sequence, command, payload, status);
    if built.Ok? {
      var a, s, c, t := address as byte, sequence as byte, command as byte, status as byte;
      BuildEncodes(a, s, c, payload, t, built.value);
      ParseIffEncodes(built.value, Frame(a, s, c, t, payload, built.value));
    }
  }

  /** Parsing and then building returns the bytes that were parsed. */
  lemma {:induction false} ParseThenBuild(raw: seq<byte>)
    requires ParseFrame(raw).Ok?
    ensures
      var f := ParseFrame(raw).value;
      BuildFrame(f.address as int, f.sequence as int, f.command as int, f.payload, f.status as int) == Ok(raw)
  {
    hide Checksum;
    var f := ParseFrame(raw).value;
    ParseIffEncodes(raw, f);
    var n := |raw|;
    var body := [SOF] + PackWord(n) + [f.address, f.sequence, f.command, f.status] + f.payload;
    WordRoundTrip(raw[1], raw[2]);
    WordRoundTrip(raw[n - 2], raw[n - 1]);
    assert raw[..n - 2] == [raw[0]] + [raw[1], raw[2]] + raw[3..7] + raw[7..n - 2];
    assert raw[..n - 2] == body;
    assert raw == raw[..n - 2] + [raw[n - 2], raw[n - 1]];
  }

  lemma WordRoundTrip(hi: byte, lo: byte)
    ensures PackWord(UnpackWord(hi, lo)) == [hi, lo]
  {
  }

  // ------------------------------------------------------------- corruption

  lemma {:induction false} ParsedResidue(raw: seq<byte>)
    requires ParseFrame(raw).Ok?
    ensures IsZero(Residue(raw))
  {
    hide Checksum, Residue;
    var n := |raw|;
    assert raw == raw[..n - 2] + [raw[n - 2], raw[n - 1]];
    ResidueZero(raw[..n - 2], raw[n - 2], raw[n - 1]);
  }

  lemma ZerosEqual(r: seq<bool>, s: seq<bool>)
    requires |r| == |s| && IsZero(r) && IsZero(s)
    ensures r == s
  {
  }

  lemma {:induction false} DifferentResidueRejected(raw: seq<byte>, corrupt: seq<byte>)
    requires ParseFrame(raw).Ok? && |corrupt| == |raw|
    requires Residue(corrupt) != Residue(raw)
    ensures ParseFrame(corrupt).Err?
  {
    ParsedResidue(raw);
    if ParseFrame(corrupt).Ok? {
      ParsedResidue(corrupt);
      ZerosEqual(Residue(corrupt), Residue(raw));
    }
  }

  /**
    parse_frame rejects a valid frame damaged within any window of at most 16
    consecutive bits, whichever bytes the window covers.
   */
  lemma {:induction false} BurstRejected(raw: seq<byte>, corrupt: seq<byte>, start: nat)
    requires ParseFrame(raw).Ok? && |corrupt| == |raw|
    requires Burst(MessageBits(raw), MessageBits(corrupt), start)
    ensures ParseFrame(corrupt).Err?
  {
    BurstChangesResidue(raw, corrupt, start);
    DifferentResidueRejected(raw, corrupt);
  }

  /** In particular after changing one byte, or two adjacent bytes. */
  lemma {:induction false} AdjacentBytesRejected(raw: seq<byte>, corrupt: seq<byte>, k: nat)
    requires ParseFrame(raw).Ok? && |corrupt| == |raw| && corrupt != raw
    requires forall i :: 0 <= i < |raw| && i != k && i != k + 1 ==> raw[i] == corrupt[i]
    ensures ParseFrame(corrupt).Err?
  {
    AdjacentBytesAreBurst(raw, corrupt, k);
    BurstRejected(raw, corrupt, 8 * k);
  }

  /** parse_frame rejects a valid frame with an odd number of flipped bits. */
  lemma {:induction false} OddFlipsRejected(raw: seq<byte>, corrupt: seq<byte>)
    requires ParseFrame(raw).Ok? && |corrupt| == |raw|
    requires Parity(Add(MessageBits(raw), MessageBits(corrupt)))
    ensures ParseFrame(corrupt).Err?
  {
    OddFlipsChangeResidue(raw, corrupt);
    DifferentResidueRejected(raw, corrupt);
  }
}
