/** The resynchronising stream decoder (bridge_core/reader_protocol.py:284-340). */
module FrameStream {
  import opened Wrappers
  import opened Crc
  import opened ReaderProtocol

  datatype Decoded = Decoded(frames: seq<Frame>, pending: seq<byte>)

  /** What the decoder can tell about the front of a nonempty buffer. */
  datatype Front =
    | Discard                       // the first byte cannot start a frame
    | Hold                          // a candidate that is still incomplete
    | Emit(frame: Frame, length: nat)

  function Examine(s: seq<byte>): (f: Front)
    requires s != []
    ensures f.Emit? ==> MIN_FRAME_LENGTH <= f.length <= |s|
    ensures f.Emit? ==> ParseFrame(s[..f.length]) == Ok(f.frame)
  {
    if s[0] != SOF then Discard
    else if |s| < 3 then Hold
    else
      var declared := UnpackWord(s[1], s[2]);
      if declared < MIN_FRAME_LENGTH then Discard
      else if |s| < declared then Hold
      else
        match ParseFrame(s[..declared])
        case Ok(frame) => Emit(frame, declared)
        case Err(_) => Discard
  }

  /** One left-to-right pass over the whole string. */
  function Scan(s: seq<byte>): (d: Decoded)
    ensures |d.pending| <= |s|
    decreases |s|
  {
    if s == [] then Decoded([], [])
    else
      match Examine(s)
      case Discard => Scan(s[1..])
      case Hold => Decoded([], s)
      case Emit(frame, length) =>
        var rest := Scan(s[length..]);
        Decoded([frame] + rest.frames, rest.pending)
  }

  lemma ScanStep(s: seq<byte>)
    requires s != []
    ensures Examine(s).Discard? ==> Scan(s) == Scan(s[1..])
    ensures Examine(s).Hold? ==> Scan(s) == Decoded([], s)
    ensures Examine(s).Emit? ==>
      var f := Examine(s);
      var rest := Scan(s[f.length..]);
      Scan(s) == Decoded([f.frame] + rest.frames, rest.pending)
  {
    hide Examine;
  }

  /** Bytes that a decoder may hold between two calls of feed. */
  ghost predicate Settled(buffer: seq<byte>) {
    Scan(buffer) == Decoded([], buffer)
  }

  class FrameStreamDecoder {
    var buffer: seq<byte>

    constructor ()
      ensures buffer == [] && Settled(buffer)
    {
      buffer := [];
    }

    /** self._buffer.find(SOF): the first start byte, or -1. */
    static method FindSof(s: seq<byte>) returns (position: int)
      ensures -1 <= position < |s|
      ensures position >= 0 ==> s[position] == SOF
      ensures forall i :: 0 <= i < (if position < 0 then |s| else position) ==> s[i] != SOF
    {
      var i := 0;
      while i < |s|
        invariant 0 <= i <= |s|
        invariant forall k :: 0 <= k < i ==> s[k] != SOF
      {
        if s[i] == SOF {
          return i;
        }
        i := i + 1;
      }
      return -1;
    }

    method Feed(data: seq<byte>) returns (frames: seq<Frame>)
      requires Settled(buffer)
      modifies this
      ensures Decoded(frames, buffer) == Scan(old(buffer) + data)
      ensures Settled(buffer)
    {
      hide ParseFrame, Scan;
      ghost var all := Scan(buffer + data);
      ScanSettles(buffer + data);
      buffer := buffer + data;
      frames := [];
      while buffer != []
        invariant frames + Scan(buffer).frames == all.frames
        invariant Scan(buffer).pending == all.pending
        decreases |buffer|
      {
        var sof := FindSof(buffer);
        if sof < 0 {
          SkipNoise(buffer, []);
          assert buffer + [] == buffer;
          buffer := [];
          break;
        }
        if sof > 0 {
          SkipNoise(buffer[..sof], buffer[sof..]);
          assert buffer[..sof] + buffer[sof..] == buffer;
          buffer := buffer[sof..];
        }
        ScanStep(buffer);
        if |buffer| < 3 {
          break;
        }
        var declared := UnpackWord(buffer[1], buffer[2]);
        if declared < MIN_FRAME_LENGTH || declared > MAX_FRAME_LENGTH {
          buffer := buffer[1..];
          continue;
        }
        if |buffer| < declared {
          break;
        }
        var parsed := ParseFrame(buffer[..declared]);
        if parsed.Err? {
          buffer := buffer[1..];
          continue;
        }
        assert Examine(buffer) == Emit(parsed.value, declared);
        frames := frames + [parsed.value];
        buffer := buffer[declared..];
      }
    }
  }

  // ------------------------------------------------------ chunks do not matter

  lemma {:induction false} ScanSettles(s: seq<byte>)
    ensures Settled(Scan(s).pending)
    decreases |s|
  {
    hide Examine;
    if s != [] {
      match Examine(s)
      case Discard => ScanSettles(s[1..]);
      case Hold =>
      case Emit(_, length) => ScanSettles(s[length..]);
    }
  }

  lemma {:induction false} SkipNoise(noise: seq<byte>, rest: seq<byte>)
    requires forall i :: 0 <= i < |noise| ==> noise[i] != SOF
    ensures Scan(noise + rest) == Scan(rest)
    decreases |noise|
  {
    hide ParseFrame;
    if noise == [] {
      assert noise + rest == rest;
    } else {
      assert (noise + rest)[1..] == noise[1..] + rest;
      SkipNoise(noise[1..], rest);
    }
  }

  /** A decision about the front stands when more bytes arrive. */
  lemma {:induction false} ExamineExtends(a: seq<byte>, b: seq<byte>)
    requires a != [] && !Examine(a).Hold?
    ensures Examine(a + b) == Examine(a)
  {
    hide ParseFrame;
    if a[0] == SOF {
      var declared := UnpackWord(a[1], a[2]);
      if declared <= |a| {
        assert (a + b)[..declared] == a[..declared];
      }
    }
  }

  /** Scanning in two chunks equals scanning once. */
  lemma {:induction false} ScanConcat(a: seq<byte>, b: seq<byte>)
    ensures
      var first := Scan(a);
      var second := Scan(first.pending + b);
      Scan(a + b) == Decoded(first.frames + second.frames, second.pending)
    decreases |a|
  {
    hide Examine;
    if a == [] {
      assert a + b == b && [] + b == b;
    } else {
      match Examine(a)
      case Hold =>
      case Discard =>
        ExamineExtends(a, b);
        assert (a + b)[1..] == a[1..] + b;
        ScanConcat(a[1..], b);
      case Emit(frame, length) =>
        ExamineExtends(a, b);
        assert (a + b)[length..] == a[length..] + b;
        ScanConcat(a[length..], b);
        var rest := Scan(a[length..]);
        var second := Scan(rest.pending + b);
        assert [frame] + (rest.frames + second.frames) == ([frame] + rest.frames) + second.frames;
    }
  }

  /** What successive calls of feed return in all, from an empty decoder. */
  function FeedAll(buffer: seq<byte>, chunks: seq<seq<byte>>): Decoded
    decreases |chunks|
  {
    if chunks == [] then Decoded([], buffer)
    else
      var first := Scan(buffer + chunks[0]);
      var rest := FeedAll(first.pending, chunks[1..]);
      Decoded(first.frames + rest.frames, rest.pending)
  }

  function Concat(chunks: seq<seq<byte>>): seq<byte> {
    if chunks == [] then [] else chunks[0] + Concat(chunks[1..])
  }

  lemma {:induction false} FeedAllFrom(buffer: seq<byte>, chunks: seq<seq<byte>>)
    requires Settled(buffer)
    ensures FeedAll(buffer, chunks) == Scan(buffer + Concat(chunks))
    decreases |chunks|
  {
    hide Scan;
    if chunks == [] {
      assert buffer + [] == buffer;
    } else {
      var joined := buffer + chunks[0];
      ScanSettles(joined);
      FeedAllFrom(Scan(joined).pending, chunks[1..]);
      ScanConcat(joined, Concat(chunks[1..]));
      assert buffer + Concat(chunks) == joined + Concat(chunks[1..]);
    }
  }

  /** Any cutting into chunks decodes to the one-pass scan of the stream. */
  lemma {:induction false} ChunksDoNotMatter(chunks: seq<seq<byte>>)
    ensures FeedAll([], chunks) == Scan(Concat(chunks))
  {
    FeedAllFrom([], chunks);
    assert [] + Concat(chunks) == Concat(chunks);
  }

  // ------------------------------------------- what a scan finds, by position

  /** What starts at position `p`. */
  function Look(s: seq<byte>, p: nat): (f: Front)
    requires p < |s|
    ensures f.Emit? ==> MIN_FRAME_LENGTH <= f.length <= |s| - p
    ensures f.Emit? ==> ParseFrame(s[p..][..f.length]) == Ok(f.frame)
  {
    Examine(s[p..])
  }

  /**
    An independent description of greedy decoding. The frames lie between
    `from` and `stop` without overlapping; no position before `stop` outside them
    starts a valid or an incomplete frame; and decoding stops at the end of the
    string or at an incomplete frame.
   */
  ghost predicate GreedyCover(s: seq<byte>, from: nat, starts: seq<nat>, stop: nat)
    decreases |starts|
  {
    && from <= stop <= |s|
    && if starts == [] then
         && (forall p :: from <= p < stop ==> Look(s, p).Discard?)
         && (stop == |s| || Look(s, stop).Hold?)
       else
         && from <= starts[0] < |s|
         && (forall p :: from <= p < starts[0] ==> Look(s, p).Discard?)
         && Look(s, starts[0]).Emit?
         && GreedyCover(s, starts[0] + Look(s, starts[0]).length, starts[1..], stop)
  }

  /** The frames at the given positions. */
  function Selected(s: seq<byte>, starts: seq<nat>): seq<Frame> {
    if starts == [] then []
    else
      var rest := Selected(s, starts[1..]);
      if starts[0] < |s| then
        match Look(s, starts[0])
        case Emit(frame, _) => [frame] + rest
        case _ => rest
      else rest
  }

  /** Where a left-to-right pass finds frames. */
  function Starts(s: seq<byte>, from: nat): seq<nat>
    requires from <= |s|
    decreases |s| - from
  {
    if from == |s| then []
    else
      match Look(s, from)
      case Discard => Starts(s, from + 1)
      case Hold => []
      case Emit(_, length) => [from] + Starts(s, from + length)
  }

  /** Where a left-to-right pass stops. */
  function Stop(s: seq<byte>, from: nat): (stop: nat)
    requires from <= |s|
    ensures from <= stop <= |s|
    decreases |s| - from
  {
    if from == |s| then from
    else
      match Look(s, from)
      case Discard => Stop(s, from + 1)
      case Hold => from
      case Emit(_, length) => Stop(s, from + length)
  }

  lemma CoverAfterDiscard(s: seq<byte>, from: nat, starts: seq<nat>, stop: nat)
    requires from < |s| && Look(s, from).Discard?
    ensures GreedyCover(s, from, starts, stop) <==> GreedyCover(s, from + 1, starts, stop)
  {
    hide Look;
  }

  lemma {:induction false} CoverAtEmit(s: seq<byte>, from: nat, starts: seq<nat>, stop: nat)
    requires from < |s| && Look(s, from).Emit?
    ensures
      GreedyCover(s, from, starts, stop) <==>
      && starts != [] && starts[0] == from
      && GreedyCover(s, from + Look(s, from).length, starts[1..], stop)
  {
    hide Look;
    if starts != [] && starts[0] == from {
      CoverBelow(s, from + Look(s, from).length, starts[1..], stop);
    }
  }

  lemma CoverAtHold(s: seq<byte>, from: nat, starts: seq<nat>, stop: nat)
    requires from < |s| && Look(s, from).Hold?
    ensures GreedyCover(s, from, starts, stop) <==> starts == [] && stop == from
  {
    hide Look;
  }

  lemma CoverBelow(s: seq<byte>, from: nat, starts: seq<nat>, stop: nat)
    ensures GreedyCover(s, from, starts, stop) ==> from <= stop <= |s|
  {
  }

  lemma CoverAtEnd(s: seq<byte>, starts: seq<nat>, stop: nat)
    ensures GreedyCover(s, |s|, starts, stop) <==> starts == [] && stop == |s|
  {
    hide Look;
  }

  /** Every stream has exactly one greedy cover. */
  lemma {:induction false} GreedyCoverUnique(s: seq<byte>, from: nat, starts: seq<nat>, stop: nat)
    requires from <= |s|
    ensures GreedyCover(s, from, starts, stop) <==> starts == Starts(s, from) && stop == Stop(s, from)
    decreases |s| - from
  {
    hide Look, GreedyCover, ParseFrame, Scan;
    if from == |s| {
      CoverAtEnd(s, starts, stop);
    } else {
      match Look(s, from)
      case Hold => CoverAtHold(s, from, starts, stop);
      case Discard =>
        CoverAfterDiscard(s, from, starts, stop);
        GreedyCoverUnique(s, from + 1, starts, stop);
      case Emit(_, length) =>
        CoverAtEmit(s, from, starts, stop);
        if starts != [] {
          GreedyCoverUnique(s, from + length, starts[1..], stop);
          assert starts == [starts[0]] + starts[1..];
        }
    }
  }

  function ScanFrom(s: seq<byte>, from: nat): Decoded
    requires from <= |s|
  {
    Scan(s[from..])
  }

  lemma ScanFromStep(s: seq<byte>, from: nat)
    requires from < |s|
    ensures
      match Look(s, from)
      case Discard => ScanFrom(s, from) == ScanFrom(s, from + 1)
      case Hold => ScanFrom(s, from) == Decoded([], s[from..])
      case Emit(frame, length) =>
        var rest := ScanFrom(s, from + length);
        ScanFrom(s, from) == Decoded([frame] + rest.frames, rest.pending)
  {
    hide Examine, Scan;
    var tail := s[from..];
    ScanStep(tail);
    match Examine(tail)
    case Hold =>
    case Discard => assert tail[1..] == s[from + 1..];
    case Emit(_, length) => assert tail[length..] == s[from + length..];
  }

  lemma {:induction false} SelectedCons(s: seq<byte>, from: nat, rest: seq<nat>)
    requires from < |s| && Look(s, from).Emit?
    ensures Selected(s, [from] + rest) == [Look(s, from).frame] + Selected(s, rest)
  {
    hide Look;
    assert ([from] + rest)[1..] == rest;
  }

  lemma {:induction false} ScanFollowsStarts(s: seq<byte>, from: nat)
    requires from <= |s|
    ensures ScanFrom(s, from) == Decoded(Selected(s, Starts(s, from)), s[Stop(s, from)..])
    decreases |s| - from
  {
    hide Look, ScanFrom, Selected;
    if from == |s| {
      ScanFromEnd(s);
      SelectedNone(s);
    } else {
      ScanFromStep(s, from);
      match Look(s, from)
      case Hold => SelectedNone(s);
      case Discard => ScanFollowsStarts(s, from + 1);
      case Emit(frame, length) =>
        ScanFollowsStarts(s, from + length);
        SelectedCons(s, from, Starts(s, from + length));
    }
  }

  lemma ScanFromEnd(s: seq<byte>)
    ensures ScanFrom(s, |s|) == Decoded([], [])
  {
    assert s[|s|..] == [];
  }

  lemma SelectedNone(s: seq<byte>)
    ensures Selected(s, []) == []
  {
  }

  /**
    The decoder returns the frames of the greedy cover of the stream, and keeps
    exactly what follows it: nothing, or an incomplete frame.
   */
  lemma {:induction false} ScanIsGreedy(s: seq<byte>, starts: seq<nat>, stop: nat)
    requires GreedyCover(s, 0, starts, stop)
    ensures Scan(s) == Decoded(Selected(s, starts), s[stop..])
  {
    assert s[0..] == s;
    GreedyCoverUnique(s, 0, starts, stop);
    ScanFollowsStarts(s, 0);
  }

  /** Pending bytes are empty, or an incomplete candidate of bounded size. */
  lemma {:induction false} PendingShape(s: seq<byte>)
    ensures
      var pending := Scan(s).pending;
      pending == [] || (pending[0] == SOF && |pending| <= 65534)
    decreases |s|
  {
    hide ParseFrame;
    if s != [] {
      match Examine(s)
      case Discard => PendingShape(s[1..]);
      case Hold =>
      case Emit(_, length) => PendingShape(s[length..]);
    }
  }

  // ------------------------------------------------------------- round trip

  /** A piece of a clean stream: noise without a start byte, or a built frame. */
  datatype Piece = Noise(bytes: seq<byte>) | Built(frame: Frame)

  ghost predicate ValidPiece(p: Piece) {
    match p
    case Noise(bytes) => forall i :: 0 <= i < |bytes| ==> bytes[i] != SOF
    case Built(f) =>
      BuildFrame(f.address as int, f.sequence as int, f.command as int, f.payload, f.status as int) == Ok(f.raw)
  }

  function Transmit(pieces: seq<Piece>): seq<byte> {
    if pieces == [] then []
    else (match pieces[0] case Noise(bytes) => bytes case Built(f) => f.raw) + Transmit(pieces[1..])
  }

  function FramesOf(pieces: seq<Piece>): seq<Frame> {
    if pieces == [] then []
    else (match pieces[0] case Noise(_) => [] case Built(f) => [f]) + FramesOf(pieces[1..])
  }

  lemma {:induction false} ScanBuilt(f: Frame, rest: seq<byte>)
    requires ValidPiece(Built(f))
    ensures Scan(f.raw + rest) == Decoded([f] + Scan(rest).frames, Scan(rest).pending)
  {
    hide Checksum, ParseFrame, BuildFrame;
    BuildEncodes(f.address, f.sequence, f.command, f.payload, f.status, f.raw);
    ParseIffEncodes(f.raw, f);
    var s := f.raw + rest;
    assert s[..|f.raw|] == f.raw && s[|f.raw|..] == rest;
    assert Examine(s) == Emit(f, |f.raw|);
    assert s != [];
    var after := Scan(s[|f.raw|..]);
    assert Scan(s) == Decoded([f] + after.frames, after.pending);
  }

  lemma {:induction false} ScanTransmit(pieces: seq<Piece>)
    requires forall i :: 0 <= i < |pieces| ==> ValidPiece(pieces[i])
    ensures Scan(Transmit(pieces)) == Decoded(FramesOf(pieces), [])
  {
    if pieces != [] {
      hide Scan;
      assert ValidPiece(pieces[0]);
      ScanTransmit(pieces[1..]);
      match pieces[0]
      case Noise(bytes) => SkipNoise(bytes, Transmit(pieces[1..]));
      case Built(f) => ScanBuilt(f, Transmit(pieces[1..]));
    }
  }

  /**
    Built frames mixed with noise that holds no start byte, cut into chunks in
    any way, decode to exactly those frames with nothing left pending.
   */
  lemma {:induction false} StreamRoundTrip(pieces: seq<Piece>, chunks: seq<seq<byte>>)
    requires forall i :: 0 <= i < |pieces| ==> ValidPiece(pieces[i])
    requires Concat(chunks) == Transmit(pieces)
    ensures FeedAll([], chunks) == Decoded(FramesOf(pieces), [])
  {
    ChunksDoNotMatter(chunks);
    ScanTransmit(pieces);
  }
}
