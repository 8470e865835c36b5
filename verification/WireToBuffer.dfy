/**
  From the byte stream to the executor's buffer: the receiving session and the
  wait loops of the executor put together (bridge_core/reader_transport.py:123-179,
  bridge_core/final_reader_executor.py:102-188, 344-362).
 */
module WireToBuffer {
  import opened Wrappers
  import opened Crc
  import opened ReaderProtocol
  import opened Store
  import opened FrameStream
  import opened ReaderTransport
  import opened ReaderExecutor

  /** The commands that a wait loop asks the session for. */
  function Asked(q: Request): set<byte> {
    {q.command, COMMAND_ACTIVE_TAG}
  }

  /** Every call asked for these commands. */
  ghost predicate Asks(log: seq<Call>, commands: set<byte>) {
    forall i :: 0 <= i < |log| ==> log[i].expected == commands
  }

  /** What the executor gets from calls that returned, and from one that raised at the end. */
  function Delivered(log: seq<Call>, raised: Option<string>): seq<Reception> {
    if log == [] then (match raised case Some(m) => [Lost(m)] case None => [])
    else [Frames(log[0].frames)] + Delivered(log[1..], raised)
  }

  lemma {:induction false} HeardIsAll(log: seq<Call>, raised: Option<string>, budget: nat)
    requires |log| <= budget
    ensures Heard(Delivered(log, raised), budget) == AllFrames(log)
  {
    if log != [] {
      HeardIsAll(log[1..], raised, budget - 1);
      assert Delivered(log, raised)[1..] == Delivered(log[1..], raised);
    }
  }

  lemma {:induction false} NothingElse(pending: seq<byte>, log: seq<Call>, commands: set<byte>)
    requires Faithful(pending, log) && Asks(log, commands)
    ensures Only(AllFrames(log), commands) == AllFrames(log)
    decreases |log|
  {
    hide Scan, Only;
    if log == [] {
      assert Only([], commands) == [] by { OnlyNone(commands); }
    } else {
      var d := Scan(pending + log[0].bytes);
      NothingElse(d.pending, log[1..], commands);
      OnlyNarrower(d.frames, commands, commands);
      OnlyConcat(log[0].frames, AllFrames(log[1..]), commands);
    }
  }

  lemma OnlyNone(commands: set<byte>)
    ensures Only([], commands) == []
  {
  }

  /** A session's log, taken up in the middle: the later calls start from what the earlier ones left pending. */
  lemma {:induction false} FaithfulSuffix(pending: seq<byte>, log: seq<Call>, k: nat)
    requires Settled(pending) && Faithful(pending, log) && k <= |log|
    ensures
      var pending' := BufferAfter(pending, log[..k]);
      Settled(pending') && Faithful(pending', log[k..])
    decreases |log|
  {
    hide Scan, Only, Settled;
    if k == 0 {
      assert log[0..] == log && log[..0] == [];
    } else {
      var d := Scan(pending + log[0].bytes);
      ScanSettles(pending + log[0].bytes);
      FaithfulSuffix(d.pending, log[1..], k - 1);
      assert log[..k][1..] == log[1..][..k - 1] && log[1..][k - 1..] == log[k..];
    }
  }

  /** All that the calls returned is what the stream decodes to, for these commands. */
  lemma StreamFrames(pending: seq<byte>, log: seq<Call>, commands: set<byte>)
    requires Settled(pending) && Faithful(pending, log) && Asks(log, commands)
    ensures AllFrames(log) == Only(Scan(pending + AllBytes(log)).frames, commands)
  {
    hide Scan, Only, Settled;
    FaithfulFrom(pending, log, commands);
    NothingElse(pending, log, commands);
  }

  /**
    A wait loop on a byte stream: what it buffers are the tag frames of the decoded
    stream in front of the first frame that decides, and it succeeds exactly if
    that frame is the accepted answer. The cutting into chunks and calls and the
    timeouts between them do not occur in this.
   */
  lemma {:induction false} WaitOnStream(
    address: byte, q: Request, pending: seq<byte>, log: seq<Call>, raised: Option<string>, budget: nat, buffer: seq<Frame>)
    requires Settled(pending) && Faithful(pending, log) && Asks(log, Asked(q)) && |log| <= budget
    ensures
      var w := OnReceptions(address, q, Delivered(log, raised), budget, buffer);
      var stream := Only(Scan(pending + AllBytes(log)).frames, Asked(q));
      var n := FirstDecision(address, q, stream);
      && w.buffer == buffer + Tags(q, stream[..n])
      && (w.Answered? <==> n < |stream| && Accepts(address, q, stream[n]))
  {
    hide Scan, Only, Settled, Faithful, OnReceptions, FirstDecision, Accepts, Tags, Asks;
    StreamFrames(pending, log, Asked(q));
    HeardIsAll(log, raised, budget);
    WaitMeans(address, q, Delivered(log, raised), budget, buffer);
  }

  /** Two ways of cutting one stream leave the same buffer and the same answer. */
  lemma {:induction false} ChunksDoNotReachBuffer(
    address: byte, q: Request, pending: seq<byte>, log: seq<Call>, other: seq<Call>,
    raised: Option<string>, raisedToo: Option<string>, budget: nat, buffer: seq<Frame>)
    requires Settled(pending) && Faithful(pending, log) && Faithful(pending, other)
    requires Asks(log, Asked(q)) && Asks(other, Asked(q)) && |log| <= budget && |other| <= budget
    requires AllBytes(log) == AllBytes(other)
    ensures
      var w := OnReceptions(address, q, Delivered(log, raised), budget, buffer);
      var w' := OnReceptions(address, q, Delivered(other, raisedToo), budget, buffer);
      w.buffer == w'.buffer && w.Answered? == w'.Answered?
  {
    hide Scan, Only, Settled, Faithful, OnReceptions, FirstDecision, Accepts, Tags, Asks, AllBytes;
    WaitOnStream(address, q, pending, log, raised, budget, buffer);
    WaitOnStream(address, q, pending, other, raisedToo, budget, buffer);
  }

  /** poll_tag_frames again and again, until it raises: the executor, all that was returned, and whether it raised. */
  function Polls(e: Executor, device: Device, log: seq<Call>): (Executor, seq<Frame>, bool)
    decreases |log|
  {
    if log == [] then (e, [], true)
    else
      match Poll(e, device, Frames(log[0].frames))
      case (e1, Err(_)) => (e1, [], false)
      case (e1, Ok(frames)) =>
        var (e2, returned, ok) := Polls(e1, device, log[1..]);
        (e2, frames + returned, ok)
  }

  /** One poll returns what it received, or leaves pending what came before the refused frame. */
  lemma PollMeans(e: Executor, device: Device, frames: seq<Frame>)
    requires Running(e) && e.pending == []
    ensures
      var n := FirstDecision(device.address, POLL_REQUEST, frames);
      var (e', r) := Poll(e, device, Frames(frames));
      if n == |frames| then e' == e && r == Ok(Tags(POLL_REQUEST, frames))
      else r.Err? && e'.pending == Tags(POLL_REQUEST, frames[..n])
  {
    hide OnFrames, FirstDecision, Tags;
    OnFramesMeans(device.address, POLL_REQUEST, frames, []);
    NeverAnswered(device.address, frames);
    if FirstDecision(device.address, POLL_REQUEST, frames) == |frames| {
      assert frames[..|frames|] == frames;
      assert [] + Tags(POLL_REQUEST, frames) == Tags(POLL_REQUEST, frames);
    }
  }

  lemma {:induction false} PollsMean(e: Executor, device: Device, log: seq<Call>)
    requires Running(e) && e.pending == []
    ensures
      var (e', returned, ok) := Polls(e, device, log);
      var n := FirstDecision(device.address, POLL_REQUEST, AllFrames(log));
      && returned + e'.pending == Tags(POLL_REQUEST, AllFrames(log)[..n])
      && (ok <==> n == |AllFrames(log)|) && (ok ==> e' == e)
    decreases |log|
  {
    hide OnFrames, FirstDecision, Tags, Poll;
    if log == [] {
      NoTags(POLL_REQUEST);
      assert AllFrames(log) == [];
    } else {
      var frames, rest := log[0].frames, AllFrames(log[1..]);
      PollMeans(e, device, frames);
      DecisionInFront(device.address, POLL_REQUEST, frames, rest);
      var n, m := FirstDecision(device.address, POLL_REQUEST, frames), FirstDecision(device.address, POLL_REQUEST, rest);
      if n == |frames| {
        PollsMean(e, device, log[1..]);
        assert (frames + rest)[..n + m] == frames + rest[..m];
        TagsConcat(POLL_REQUEST, frames, rest[..m]);
      } else {
        assert (frames + rest)[..n] == frames[..n];
      }
    }
  }

  lemma NeverAnswered(address: byte, frames: seq<Frame>)
    ensures !OnFrames(address, POLL_REQUEST, frames, []).Answered?
  {
    OnFramesMeans(address, POLL_REQUEST, frames, []);
  }

  /**
    Polling a byte stream: the frames returned, and those left pending by the call
    that raised, are the tag frames of the decoded stream in front of the first
    one that is refused, in order; polling raises exactly if there is one.
   */
  lemma {:induction false} PollsOnStream(e: Executor, device: Device, pending: seq<byte>, log: seq<Call>)
    requires Running(e) && e.pending == []
    requires Settled(pending) && Faithful(pending, log) && Asks(log, {COMMAND_ACTIVE_TAG})
    ensures
      var (e', returned, ok) := Polls(e, device, log);
      var stream := Only(Scan(pending + AllBytes(log)).frames, {COMMAND_ACTIVE_TAG});
      var n := FirstDecision(device.address, POLL_REQUEST, stream);
      returned + e'.pending == stream[..n] && (ok <==> n == |stream|)
  {
    hide Scan, Only, Settled, Faithful, Polls, FirstDecision, Tags, Asks;
    StreamFrames(pending, log, {COMMAND_ACTIVE_TAG});
    PollsMean(e, device, log);
    var stream := Only(Scan(pending + AllBytes(log)).frames, {COMMAND_ACTIVE_TAG});
    var n := FirstDecision(device.address, POLL_REQUEST, stream);
    AllTags(Scan(pending + AllBytes(log)).frames, n);
  }

  lemma {:induction false} AllTags(frames: seq<Frame>, n: nat)
    requires n <= |Only(frames, {COMMAND_ACTIVE_TAG})|
    ensures Tags(POLL_REQUEST, Only(frames, {COMMAND_ACTIVE_TAG})[..n]) == Only(frames, {COMMAND_ACTIVE_TAG})[..n]
  {
    if n > 0 {
      if frames[0].command == COMMAND_ACTIVE_TAG {
        var rest := Only(frames[1..], {COMMAND_ACTIVE_TAG});
        AllTags(frames[1..], n - 1);
        assert Only(frames, {COMMAND_ACTIVE_TAG})[..n] == [frames[0]] + rest[..n - 1];
        assert ([frames[0]] + rest[..n - 1])[1..] == rest[..n - 1];
      } else {
        AllTags(frames[1..], n);
      }
    }
  }
}
