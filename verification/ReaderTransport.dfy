/** The receiving half of the reader's TCP session (bridge_core/reader_transport.py:53-179). */
module ReaderTransport {
  import opened Wrappers
  import opened Crc
  import opened ReaderProtocol
  import opened FrameStream

  /** What one socket.recv call does. An empty chunk is the peer closing. */
  datatype Receipt = Chunk(data: seq<byte>) | Timeout | Failed

  /** The frames whose command is in the set, in order. */
  function Only(frames: seq<Frame>, commands: set<byte>): seq<Frame> {
    if frames == [] then []
    else if frames[0].command in commands then [frames[0]] + Only(frames[1..], commands)
    else Only(frames[1..], commands)
  }

  function BytesOf(receipts: seq<Receipt>): seq<byte> {
    if receipts == [] then []
    else (match receipts[0] case Chunk(data) => data case _ => []) + BytesOf(receipts[1..])
  }

  /** The k-th socket.recv from here on. */
  function ReceiptAt(receipts: seq<Receipt>, k: nat): Receipt {
    if k < |receipts| then receipts[k] else Timeout
  }

  function Received(receipts: seq<Receipt>, calls: nat): seq<Receipt> {
    if calls <= |receipts| then receipts[..calls] else receipts
  }

  const RECEIVE_FAILED := "RFID TCP receive failed."
  const INCOMPLETE := "Connection ended with an incomplete RFID frame."
  const NO_RESPONSE := "No expected RFID response frame was received."

  /** How a read ends that has heard no expected frame. */
  function Unanswered(pending: seq<byte>): Result<seq<Frame>> {
    if pending != [] then Err(INCOMPLETE) else Err(NO_RESPONSE)
  }

  /** How a read ends whose last socket.recv gave `last`, with these frames matched and these bytes pending. */
  function EndOf(last: Receipt, matched: seq<Frame>, pending: seq<byte>, polling: bool): Result<seq<Frame>> {
    match last
    case Timeout => if polling then Ok([]) else Err(RECEIVE_FAILED)
    case Failed => Err(RECEIVE_FAILED)
    case Chunk(_) => if matched != [] then Ok(matched) else Unanswered(pending)
  }

  predicate Nonempty(receipt: Receipt) {
    receipt.Chunk? && receipt.data != []
  }

  /** After this many calls of socket.recv the decoder has seen no expected frame. */
  predicate Unmatched(buffer: seq<byte>, receipts: seq<Receipt>, calls: nat, expected: set<byte>) {
    Only(Scan(buffer + BytesOf(Received(receipts, calls))).frames, expected) == []
  }

  function Pending(buffer: seq<byte>, receipts: seq<Receipt>, calls: nat): seq<byte> {
    Scan(buffer + BytesOf(Received(receipts, calls))).pending
  }

  ghost predicate Goes(buffer: seq<byte>, receipts: seq<Receipt>, calls: nat, expected: set<byte>) {
    forall k: nat :: k < calls ==> Nonempty(ReceiptAt(receipts, k)) && Unmatched(buffer, receipts, k + 1, expected)
  }

  /**
    A read with `calls` calls of socket.recv: each but the last brings bytes and
    still no expected frame; the last one brings an expected frame, or no bytes, or
    is the last that is allowed.
   */
  ghost predicate Reads(
    buffer: seq<byte>, receipts: seq<Receipt>, calls: nat, expected: set<byte>, maximumReads: int, polling: bool,
    r: Result<seq<Frame>>)
  {
    && 1 <= calls <= maximumReads
    && Goes(buffer, receipts, calls - 1, expected)
    && var last := ReceiptAt(receipts, calls - 1);
       var d := Scan(buffer + BytesOf(Received(receipts, calls)));
       && (Nonempty(last) && Unmatched(buffer, receipts, calls, expected) ==> calls == maximumReads)
       && r == EndOf(last, Only(d.frames, expected), d.pending, polling)
  }

  function FramesIn(r: Result<seq<Frame>>): seq<Frame> {
    match r case Ok(frames) => frames case Err(_) => []
  }

  /** One completed call: what it expected, the bytes it read, what it returned. */
  datatype Call = Call(expected: set<byte>, bytes: seq<byte>, frames: seq<Frame>)

  /** The decoder's buffer after the calls, starting from `buffer`. */
  function BufferAfter(buffer: seq<byte>, log: seq<Call>): seq<byte>
    decreases |log|
  {
    if log == [] then buffer else BufferAfter(Scan(buffer + log[0].bytes).pending, log[1..])
  }

  /** Every call returned the expected part of what it decoded. */
  ghost predicate Faithful(buffer: seq<byte>, log: seq<Call>)
    decreases |log|
  {
    log == []
    || (var d := Scan(buffer + log[0].bytes);
        log[0].frames == Only(d.frames, log[0].expected) && Faithful(d.pending, log[1..]))
  }

  class TCPReaderSession {
    var isOpen: bool
    var inbox: seq<Receipt>          // what the peer will deliver; a timeout once exhausted
    const decoder: FrameStreamDecoder
    ghost var log: seq<Call>

    ghost predicate Valid()
      reads this, decoder
    {
      && decoder.buffer == BufferAfter([], log)
      && Settled(decoder.buffer)
      && Faithful([], log)
    }

    constructor (inbox: seq<Receipt>)
      ensures Valid() && isOpen && fresh(decoder) && this.inbox == inbox && log == []
    {
      this.isOpen := true;
      this.inbox := inbox;
      this.decoder := new FrameStreamDecoder();
      this.log := [];
    }

    method Recv() returns (r: Receipt)
      modifies this`inbox
      ensures old(inbox) == [] ==> r == Timeout && inbox == []
      ensures old(inbox) != [] ==> r == old(inbox)[0] && inbox == old(inbox)[1..]
    {
      if inbox == [] {
        return Timeout;
      }
      r := inbox[0];
      inbox := inbox[1..];
    }

    /**
      However the call ends, what it returns is exactly the expected part of what
      it decoded: in particular a timeout or an error drops no expected frame.
     */
    method Receive(expected: set<byte>, maximumReads: int, timeoutReturnsEmpty: bool) returns (r: Result<seq<Frame>>)
      requires Valid()
      modifies this, decoder
      ensures Valid() && isOpen == old(isOpen)
      ensures !isOpen || expected == {} || maximumReads < 1 ==> r.Err? && log == old(log) && inbox == old(inbox)
      ensures isOpen && expected != {} && maximumReads >= 1 ==>
                exists calls: nat ::
                  && Reads(old(decoder.buffer), old(inbox), calls, expected, maximumReads, timeoutReturnsEmpty, r)
                  && inbox == old(inbox)[|Received(old(inbox), calls)|..]
                  && log == old(log) + [Call(expected, BytesOf(Received(old(inbox), calls)), FramesIn(r))]
      ensures r == Ok([]) ==> timeoutReturnsEmpty
      ensures r == Err(INCOMPLETE) ==> decoder.buffer != []
      ensures r == Err(NO_RESPONSE) ==> decoder.buffer == []
    {
      hide Scan, Only, BytesOf, Faithful, BufferAfter, Received, Goes, Reads;
      if !isOpen {
        return Err("RFID TCP session is not open.");
      }
      if expected == {} {
        return Err("At least one expected response command is required.");
      }
      if maximumReads < 1 {
        return Err("Maximum reads must be at least one.");
      }
      ghost var inbox0, buffer0 := inbox, decoder.buffer;
      ReadStarts(buffer0, inbox0, expected);
      var calls := 0;
      while calls < maximumReads
        invariant 0 <= calls <= maximumReads && calls <= |inbox0|
        invariant isOpen && log == old(log) && Settled(decoder.buffer)
        invariant inbox == inbox0[calls..] && |Received(inbox0, calls)| == calls
        invariant Goes(buffer0, inbox0, calls, expected) && Unmatched(buffer0, inbox0, calls, expected)
        invariant decoder.buffer == Pending(buffer0, inbox0, calls)
        invariant calls == maximumReads ==>
          Reads(buffer0, inbox0, calls, expected, maximumReads, timeoutReturnsEmpty, Unanswered(decoder.buffer))
      {
        ghost var before := calls;
        ReadEnds(buffer0, inbox0, before, expected, maximumReads, timeoutReturnsEmpty);
        ReceivedLength(inbox0, before);
        var receipt := Recv();
        calls := calls + 1;
        match receipt
        case Timeout =>
          r := if timeoutReturnsEmpty then Ok([]) else Err(RECEIVE_FAILED);
          Log(expected, BytesOf(Received(inbox0, calls)), []);
          return;
        case Failed =>
          r := Err(RECEIVE_FAILED);
          Log(expected, BytesOf(Received(inbox0, calls)), []);
          return;
        case Chunk(data) =>
          if data == [] {
            break;
          }
          var frames := decoder.Feed(data);
          var matched := Matching(frames, expected);
          if matched != [] {
            r := Ok(matched);
            Log(expected, BytesOf(Received(inbox0, calls)), matched);
            return;
          }
      }
      Log(expected, BytesOf(Received(inbox0, calls)), []);
      r := if decoder.buffer != [] then Err(INCOMPLETE) else Err(NO_RESPONSE);
      assert Reads(buffer0, inbox0, calls, expected, maximumReads, timeoutReturnsEmpty, r);
    }

    ghost method Log(expected: set<byte>, bytes: seq<byte>, frames: seq<Frame>)
      requires Faithful([], log) && Settled(decoder.buffer)
      requires Only(Scan(BufferAfter([], log) + bytes).frames, expected) == frames
      requires decoder.buffer == Scan(BufferAfter([], log) + bytes).pending
      modifies this`log
      ensures Valid() && log == old(log) + [Call(expected, bytes, frames)]
    {
      LogGrows([], log, Call(expected, bytes, frames));
      log := log + [Call(expected, bytes, frames)];
    }

    /** The inner loop of receive. */
    static method Matching(frames: seq<Frame>, expected: set<byte>) returns (matched: seq<Frame>)
      ensures matched == Only(frames, expected)
    {
      matched := [];
      var i := 0;
      while i < |frames|
        invariant 0 <= i <= |frames|
        invariant matched + Only(frames[i..], expected) == Only(frames, expected)
      {
        assert frames[i..][1..] == frames[i + 1..];
        if frames[i].command in expected {
          matched := matched + [frames[i]];
        }
        i := i + 1;
      }
    }
  }

  lemma {:induction false} OnlyConcat(a: seq<Frame>, b: seq<Frame>, commands: set<byte>)
    ensures Only(a + b, commands) == Only(a, commands) + Only(b, commands)
  {
    if a == [] {
      assert a + b == b;
    } else {
      assert (a + b)[1..] == a[1..] + b;
      OnlyConcat(a[1..], b, commands);
      var x, y := Only(a[1..], commands), Only(b, commands);
      assert ([a[0]] + x) + y == [a[0]] + (x + y);
    }
  }

  lemma {:induction false} OnlyNarrower(frames: seq<Frame>, wide: set<byte>, narrow: set<byte>)
    requires narrow <= wide
    ensures Only(Only(frames, wide), narrow) == Only(frames, narrow)
  {
    if frames != [] {
      OnlyNarrower(frames[1..], wide, narrow);
      var rest := Only(frames[1..], wide);
      assert ([frames[0]] + rest)[1..] == rest;
    }
  }

  lemma {:induction false} BytesOfPrefix(receipts: seq<Receipt>, n: nat)
    requires n < |receipts|
    ensures BytesOf(receipts[..n + 1]) ==
            BytesOf(receipts[..n]) + (match receipts[n] case Chunk(data) => data case _ => [])
  {
    if n == 0 {
      assert receipts[..1][1..] == [];
    } else {
      assert receipts[..n + 1][1..] == receipts[1..][..n];
      assert receipts[..n][1..] == receipts[1..][..n - 1];
      BytesOfPrefix(receipts[1..], n - 1);
    }
  }

  /** What one more socket.recv adds to the decoded stream. */
  lemma {:induction false} NextReceipt(buffer: seq<byte>, receipts: seq<Receipt>, k: nat, expected: set<byte>)
    requires k <= |receipts| && Unmatched(buffer, receipts, k, expected)
    ensures
      var first := Scan(buffer + BytesOf(Received(receipts, k)));
      var all := Scan(buffer + BytesOf(Received(receipts, k + 1)));
      match ReceiptAt(receipts, k)
      case Chunk(data) =>
        var second := Scan(first.pending + data);
        all.pending == second.pending && Only(all.frames, expected) == Only(second.frames, expected)
      case _ => all == first
    ensures !Nonempty(ReceiptAt(receipts, k)) ==> BytesOf(Received(receipts, k + 1)) == BytesOf(Received(receipts, k))
  {
    hide Scan, Only, BytesOf;
    var earlier := BytesOf(Received(receipts, k));
    if k < |receipts| {
      BytesOfPrefix(receipts, k);
      assert earlier + [] == earlier;
      if receipts[k].Chunk? {
        Continue(buffer, earlier, receipts[k].data, expected);
      }
    } else {
      assert receipts[..k] == receipts;
    }
  }

  lemma ReadStarts(buffer: seq<byte>, receipts: seq<Receipt>, expected: set<byte>)
    requires Settled(buffer)
    ensures Goes(buffer, receipts, 0, expected) && Unmatched(buffer, receipts, 0, expected)
    ensures Pending(buffer, receipts, 0) == buffer && Received(receipts, 0) == []
  {
    assert buffer + [] == buffer;
  }

  lemma ReceivedLength(receipts: seq<Receipt>, k: nat)
    requires k <= |receipts|
    ensures |Received(receipts, k + 1)| == if k < |receipts| then k + 1 else k
  {
  }

  /** What the next socket.recv makes of a read that goes on. */
  lemma ReadEnds(
    buffer: seq<byte>, receipts: seq<Receipt>, k: nat, expected: set<byte>, maximumReads: int, polling: bool)
    requires k <= |receipts| && k < maximumReads
    requires Goes(buffer, receipts, k, expected) && Unmatched(buffer, receipts, k, expected)
    ensures
      var last := ReceiptAt(receipts, k);
      var pending, pending' := Pending(buffer, receipts, k), Pending(buffer, receipts, k + 1);
      if !Nonempty(last) then
        && pending' == pending && Unmatched(buffer, receipts, k + 1, expected)
        && Reads(buffer, receipts, k + 1, expected, maximumReads, polling,
                 if last.Chunk? then Unanswered(pending) else if last.Timeout? && polling then Ok([]) else Err(RECEIVE_FAILED))
      else
        var d := Scan(pending + last.data);
        var matched := Only(d.frames, expected);
        && pending' == d.pending && matched == Only(Scan(buffer + BytesOf(Received(receipts, k + 1))).frames, expected)
        && (matched == [] ==> Goes(buffer, receipts, k + 1, expected))
        && (matched != [] || k + 1 == maximumReads ==>
            Reads(buffer, receipts, k + 1, expected, maximumReads, polling, if matched != [] then Ok(matched) else Unanswered(pending')))
  {
    hide Scan, Only, BytesOf, Received;
    NextReceipt(buffer, receipts, k, expected);
  }

  /** Feeding one more chunk to what a prefix of the stream left pending. */
  lemma {:induction false} Continue(buffer: seq<byte>, earlier: seq<byte>, data: seq<byte>, expected: set<byte>)
    ensures
      var first := Scan(buffer + earlier);
      var second := Scan(first.pending + data);
      var all := Scan(buffer + (earlier + data));
      && all.pending == second.pending
      && Only(all.frames, expected) == Only(first.frames, expected) + Only(second.frames, expected)
  {
    hide Scan, Only;
    ScanConcat(buffer + earlier, data);
    assert buffer + (earlier + data) == (buffer + earlier) + data;
    OnlyConcat(Scan(buffer + earlier).frames, Scan(Scan(buffer + earlier).pending + data).frames, expected);
  }

  lemma {:induction false} LogGrows(buffer: seq<byte>, log: seq<Call>, call: Call)
    requires Faithful(buffer, log)
    ensures
      var d := Scan(BufferAfter(buffer, log) + call.bytes);
      && BufferAfter(buffer, log + [call]) == d.pending
      && (call.frames == Only(d.frames, call.expected) ==> Faithful(buffer, log + [call]))
    decreases |log|
  {
    hide Scan, Only;
    if log == [] {
      assert [call][1..] == [];
    } else {
      assert (log + [call])[1..] == log[1..] + [call];
      LogGrows(Scan(buffer + log[0].bytes).pending, log[1..], call);
    }
  }

  function AllBytes(log: seq<Call>): seq<byte> {
    if log == [] then [] else log[0].bytes + AllBytes(log[1..])
  }

  function AllFrames(log: seq<Call>): seq<Frame> {
    if log == [] then [] else log[0].frames + AllFrames(log[1..])
  }

  lemma {:induction false} FaithfulFrom(buffer: seq<byte>, log: seq<Call>, commands: set<byte>)
    requires Settled(buffer) && Faithful(buffer, log)
    requires forall i :: 0 <= i < |log| ==> commands <= log[i].expected
    ensures Only(AllFrames(log), commands) == Only(Scan(buffer + AllBytes(log)).frames, commands)
    decreases |log|
  {
    hide Scan;
    if log == [] {
      assert buffer + [] == buffer;
    } else {
      hide Only, Settled;
      var joined := buffer + log[0].bytes;
      var d := Scan(joined);
      ScanSettles(joined);
      FaithfulFrom(d.pending, log[1..], commands);
      ScanConcat(joined, AllBytes(log[1..]));
      assert buffer + AllBytes(log) == joined + AllBytes(log[1..]);
      OnlyNarrower(d.frames, log[0].expected, commands);
      OnlyConcat(log[0].frames, AllFrames(log[1..]), commands);
      OnlyConcat(d.frames, Scan(d.pending + AllBytes(log[1..])).frames, commands);
    }
  }

  /**
    Over any run of calls, whatever their outcomes and however the bytes were cut
    or delayed, the frames returned for commands that every call expected are
    exactly those frames of the decoded byte stream, in order.
   */
  lemma {:induction false} NoExpectedFrameLost(log: seq<Call>, commands: set<byte>)
    requires Faithful([], log)
    requires forall i :: 0 <= i < |log| ==> commands <= log[i].expected
    ensures Only(AllFrames(log), commands) == Only(Scan(AllBytes(log)).frames, commands)
  {
    FaithfulFrom([], log, commands);
    assert [] + AllBytes(log) == AllBytes(log);
  }
}
