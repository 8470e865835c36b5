/**
  The persistent reader connection (bridge_core/final_reader_executor.py): what
  each call does to the executor's fields, given what the socket delivers.
 */
module ReaderExecutor {
  import opened Wrappers
  import opened Crc
  import opened ReaderProtocol
  import opened Store

  const MAX_RECEIVES: nat := 32

  /** `open`: a TCP session is held. `pending`: tag frames not yet taken. */
  datatype Executor = Executor(open: bool, key: Option<string>, pending: seq<Frame>)

  const INACTIVE := Executor(false, None, [])

  /** is_active */
  predicate Running(e: Executor) {
    e.open && e.key.Some?
  }

  /** What one call of `receive` delivers, or the error it raises. */
  datatype Reception = Frames(frames: seq<Frame>) | Lost(message: string)

  /** What connecting and sending the request comes to. */
  datatype Link = Up | Refused(message: string) | SendFailed(message: string)

  /** What a wait loop looks for, and whether it buffers tag frames meanwhile. */
  datatype Request = Request(command: byte, statuses: set<byte>, buffering: bool)

  const START_REQUEST := Request(COMMAND_START_INVENTORY, {0, 0x99}, true)
  const STOP_REQUEST := Request(COMMAND_STOP, {0}, true)
  const VERIFY_REQUEST := Request(COMMAND_STOP, {0}, false)

  /** poll_tag_frames: nothing is an answer. */
  const POLL_REQUEST := Request(COMMAND_ACTIVE_TAG, {}, true)

  datatype Wait =
    | Waiting(buffer: seq<Frame>)
    | Answered(buffer: seq<Frame>)
    | Failed(buffer: seq<Frame>, message: string)

  function OnFrame(address: byte, q: Request, frame: Frame, buffer: seq<Frame>): Wait {
    if frame.address != address then Failed(buffer, "RFID response address does not match configured reader.")
    else if q.buffering && frame.command == COMMAND_ACTIVE_TAG then
      if frame.status != 0 then Failed(buffer, "RFID reader returned a failed active-tag frame.")
      else Waiting(buffer + [frame])
    else if frame.command != q.command then Waiting(buffer)
    else if frame.status !in q.statuses then Failed(buffer, "RFID reader rejected the request.")
    else Answered(buffer)
  }

  function OnFrames(address: byte, q: Request, frames: seq<Frame>, buffer: seq<Frame>): (w: Wait)
    ensures buffer <= w.buffer
    decreases |frames|
  {
    if frames == [] then Waiting(buffer)
    else
      var w := OnFrame(address, q, frames[0], buffer);
      if w.Waiting? then OnFrames(address, q, frames[1..], w.buffer) else w
  }

  /** The bounded receive loop; receptions that are not listed are timeouts. */
  function OnReceptions(address: byte, q: Request, receptions: seq<Reception>, budget: nat, buffer: seq<Frame>): (w: Wait)
    ensures !w.Waiting? && buffer <= w.buffer
    decreases budget, |receptions|
  {
    if budget == 0 || receptions == [] then Failed(buffer, "No response was received.")
    else
      match receptions[0]
      case Lost(m) => Failed(buffer, m)
      case Frames(frames) =>
        var w := OnFrames(address, q, frames, buffer);
        if w.Waiting? then OnReceptions(address, q, receptions[1..], budget - 1, w.buffer) else w
  }

  /** What sending a request did to the executor, and whether the request went out. */
  datatype Begun<T> = Begun(exec: Executor, sent: bool, result: Result<T>)

  /** start, up to sending START. Ok(false): the session is already running. */
  function SendStart(e: Executor, device: Device, key: string, reader: string, link: Link): Begun<bool> {
    if reader != device.code then Begun(e, false, Err("START reader identity mismatch."))
    else if key == "" then Begun(e, false, Err("START requires a session key."))
    else if Running(e) then
      if e.key == Some(key) then Begun(e, false, Ok(false))
      else Begun(e, false, Err("Reader already has a different active session."))
    else
      match link
      case Refused(m) => Begun(e.(open := false, key := None), false, Err(m))
      case SendFailed(m) => Begun(e.(open := false, key := None), true, Err(m))
      case Up => Begun(e.(open := true, key := None), true, Ok(true))
  }

  /** start, from the wait loop on. */
  function AwaitStart(e: Executor, device: Device, key: string, receptions: seq<Reception>): (Executor, Result<()>) {
    match OnReceptions(device.address, START_REQUEST, receptions, MAX_RECEIVES, e.pending)
    case Answered(buffer) => (Executor(true, Some(key), buffer), Ok(()))
    case Failed(buffer, m) => (Executor(false, None, buffer), Err(m))
  }

  /** stop, up to sending STOP. */
  function SendStop(e: Executor, device: Device, key: string, reader: string, link: Link): Begun<()> {
    if reader != device.code then Begun(e, false, Err("STOP reader identity mismatch."))
    else if !Running(e) then Begun(e, false, Err("Reader has no active persistent session."))
    else if e.key != Some(key) then Begun(e, false, Err("STOP session key does not match active reader session."))
    else
      match link
      case Up => Begun(e, true, Ok(()))
      case Refused(m) => Begun(e.(open := false, key := None), false, Err(m))
      case SendFailed(m) => Begun(e.(open := false, key := None), true, Err(m))
  }

  /** stop, from the wait loop on: the session is closed whatever happens. */
  function AwaitStop(e: Executor, device: Device, receptions: seq<Reception>): (Executor, Result<()>) {
    match OnReceptions(device.address, STOP_REQUEST, receptions, MAX_RECEIVES, e.pending)
    case Answered(buffer) => (Executor(false, None, buffer), Ok(()))
    case Failed(buffer, m) => (Executor(false, None, buffer), Err(m))
  }

  /** verify_idle, from the wait loop on, in a TCP session of its own. */
  function AwaitVerify(device: Device, receptions: seq<Reception>): Result<()> {
    match OnReceptions(device.address, VERIFY_REQUEST, receptions, MAX_RECEIVES, [])
    case Answered(_) => Ok(())
    case Failed(_, m) => Err(m)
  }

  /** poll_tag_frames: the executor afterwards, and the frames returned. */
  function Poll(e: Executor, device: Device, reception: Reception): (Executor, Result<seq<Frame>>) {
    if e.pending != [] then (e.(pending := []), Ok(e.pending))
    else if !Running(e) then (e, Ok([]))
    else
      match reception
      case Lost(m) => (e, Err(m))
      case Frames(frames) =>
        var w := OnFrames(device.address, POLL_REQUEST, frames, []);
        if w.Failed? then (e.(pending := w.buffer), Err(w.message)) else (e.(pending := []), Ok(w.buffer))
  }

  // ------------------------------------------------ what the wait loops mean

  /** The frames the loop gets to see: until the budget or an error ends it. */
  function Heard(receptions: seq<Reception>, budget: nat): seq<Frame>
    decreases budget, |receptions|
  {
    if budget == 0 || receptions == [] || receptions[0].Lost? then []
    else receptions[0].frames + Heard(receptions[1..], budget - 1)
  }

  /** A frame that ends the loop, one way or the other. */
  predicate Decides(address: byte, q: Request, frame: Frame) {
    || frame.address != address
    || (if q.buffering && frame.command == COMMAND_ACTIVE_TAG then frame.status != 0 else frame.command == q.command)
  }

  /** The answer that the caller hopes for. */
  predicate Accepts(address: byte, q: Request, frame: Frame) {
    && frame.address == address
    && frame.command == q.command && frame.status in q.statuses
    && !(q.buffering && frame.command == COMMAND_ACTIVE_TAG)
  }

  function FirstDecision(address: byte, q: Request, frames: seq<Frame>): (n: nat)
    ensures n <= |frames|
    ensures n < |frames| ==> Decides(address, q, frames[n])
    ensures forall i :: 0 <= i < n ==> !Decides(address, q, frames[i])
  {
    if frames == [] || Decides(address, q, frames[0]) then 0 else 1 + FirstDecision(address, q, frames[1..])
  }

  function Tags(q: Request, frames: seq<Frame>): seq<Frame> {
    if frames == [] then []
    else (if q.buffering && frames[0].command == COMMAND_ACTIVE_TAG then [frames[0]] else []) + Tags(q, frames[1..])
  }

  lemma OnFrameMeans(address: byte, q: Request, frame: Frame, buffer: seq<Frame>)
    ensures
      var w := OnFrame(address, q, frame, buffer);
      && (w.Waiting? <==> !Decides(address, q, frame))
      && (w.Answered? <==> Accepts(address, q, frame))
      && (Accepts(address, q, frame) ==> Decides(address, q, frame))
      && w.buffer == buffer + if w.Waiting? then Tags(q, [frame]) else []
  {
  }

  lemma {:induction false} OnFramesMeans(address: byte, q: Request, frames: seq<Frame>, buffer: seq<Frame>)
    ensures
      var w := OnFrames(address, q, frames, buffer);
      var n := FirstDecision(address, q, frames);
      && w.buffer == buffer + Tags(q, frames[..n])
      && (w.Waiting? <==> n == |frames|)
      && (w.Answered? <==> n < |frames| && Accepts(address, q, frames[n]))
    decreases |frames|
  {
    hide OnFrame, Decides, Accepts;
    if frames != [] {
      OnFrameMeans(address, q, frames[0], buffer);
      if !Decides(address, q, frames[0]) {
        OnFramesMeans(address, q, frames[1..], OnFrame(address, q, frames[0], buffer).buffer);
        var n := FirstDecision(address, q, frames);
        assert frames[..n][1..] == frames[1..][..n - 1];
      }
    }
  }

  lemma {:induction false} DecisionInFront(address: byte, q: Request, a: seq<Frame>, b: seq<Frame>)
    ensures
      var n := FirstDecision(address, q, a);
      FirstDecision(address, q, a + b) == if n < |a| then n else |a| + FirstDecision(address, q, b)
    decreases |a|
  {
    if a == [] {
      assert a + b == b;
    } else {
      assert (a + b)[1..] == a[1..] + b;
      DecisionInFront(address, q, a[1..], b);
    }
  }

  lemma {:induction false} TagsConcat(q: Request, a: seq<Frame>, b: seq<Frame>)
    ensures Tags(q, a + b) == Tags(q, a) + Tags(q, b)
  {
    if a == [] {
      assert a + b == b;
    } else {
      assert (a + b)[1..] == a[1..] + b;
      TagsConcat(q, a[1..], b);
    }
  }

  /**
    The wait loop, over all it hears: it buffers exactly the tag frames before the
    first frame that decides, and succeeds exactly if that frame is the answer.
   */
  lemma {:induction false} WaitMeans(address: byte, q: Request, receptions: seq<Reception>, budget: nat, buffer: seq<Frame>)
    ensures
      var w := OnReceptions(address, q, receptions, budget, buffer);
      var heard := Heard(receptions, budget);
      var n := FirstDecision(address, q, heard);
      && w.buffer == buffer + Tags(q, heard[..n])
      && (w.Answered? <==> n < |heard| && Accepts(address, q, heard[n]))
    decreases budget, |receptions|
  {
    hide OnFrames, FirstDecision, Decides, Accepts, Tags;
    var heard := Heard(receptions, budget);
    if heard == [] && (budget == 0 || receptions == [] || receptions[0].Lost?) {
      assert heard[..FirstDecision(address, q, heard)] == [];
      assert Tags(q, []) == [] by { NoTags(q); }
    } else {
      var frames, rest := receptions[0].frames, Heard(receptions[1..], budget - 1);
      var n, m := FirstDecision(address, q, frames), FirstDecision(address, q, rest);
      OnFramesMeans(address, q, frames, buffer);
      DecisionInFront(address, q, frames, rest);
      if n == |frames| {
        WaitMeans(address, q, receptions[1..], budget - 1, OnFrames(address, q, frames, buffer).buffer);
        assert heard[..n + m] == frames + rest[..m];
        assert frames[..n] == frames;
        TagsConcat(q, frames, rest[..m]);
      } else {
        assert heard[..n] == frames[..n];
      }
    }
  }

  lemma {:induction false} NothingBuffered(address: byte, q: Request, frames: seq<Frame>)
    requires !q.buffering
    ensures OnFrames(address, q, frames, []).buffer == []
    decreases |frames|
  {
    if frames != [] {
      NothingBuffered(address, q, frames[1..]);
    }
  }

  lemma NoTags(q: Request)
    ensures Tags(q, []) == []
  {
  }

  /** The reader's answer is accepted: the first frame that decides, in 32 receives, is one that the request hopes for. */
  predicate Accepted(address: byte, q: Request, receptions: seq<Reception>) {
    var heard := Heard(receptions, 32);
    var n := FirstDecision(address, q, heard);
    n < |heard| && Accepts(address, q, heard[n])
  }

  /** The tag frames heard in front of the frame that decides. */
  function TagsHeard(address: byte, q: Request, receptions: seq<Reception>): seq<Frame> {
    var heard := Heard(receptions, 32);
    Tags(q, heard[..FirstDecision(address, q, heard)])
  }

  lemma WaitIs(address: byte, q: Request, receptions: seq<Reception>, buffer: seq<Frame>)
    ensures
      var w := OnReceptions(address, q, receptions, MAX_RECEIVES, buffer);
      (w.Answered? <==> Accepted(address, q, receptions)) && w.buffer == buffer + TagsHeard(address, q, receptions)
  {
    hide OnReceptions, FirstDecision, Accepts, Tags, Heard;
    WaitMeans(address, q, receptions, MAX_RECEIVES, buffer);
  }

  lemma PollIs(address: byte, frames: seq<Frame>)
    ensures
      var w := OnFrames(address, POLL_REQUEST, frames, []);
      var n := FirstDecision(address, POLL_REQUEST, frames);
      !w.Answered? && w.buffer == Tags(POLL_REQUEST, frames[..n]) && (w.Waiting? <==> n == |frames|)
  {
    hide OnFrames, FirstDecision, Tags;
    OnFramesMeans(address, POLL_REQUEST, frames, []);
    assert [] + Tags(POLL_REQUEST, frames[..FirstDecision(address, POLL_REQUEST, frames)])
        == Tags(POLL_REQUEST, frames[..FirstDecision(address, POLL_REQUEST, frames)]);
  }

  /**
    The answers: START is accepted with status 0 or 0x99, STOP and the verification
    with status 0 alone. A frame of another reader decides every wait, and a failed
    tag frame those that buffer tags.
   */
  lemma {:induction false} WhatDecides(address: byte, f: Frame)
    ensures Accepts(address, START_REQUEST, f) <==> f.address == address && f.command == 0x81 && (f.status == 0 || f.status == 0x99)
    ensures Accepts(address, STOP_REQUEST, f) <==> f.address == address && f.command == 0x7F && f.status == 0
    ensures Accepts(address, VERIFY_REQUEST, f) <==> f.address == address && f.command == 0x7F && f.status == 0
    ensures !Accepts(address, POLL_REQUEST, f)
    ensures Decides(address, START_REQUEST, f) <==> f.address != address || f.command == 0x81 || (f.command == 0xF9 && f.status != 0)
    ensures Decides(address, STOP_REQUEST, f) <==> f.address != address || f.command == 0x7F || (f.command == 0xF9 && f.status != 0)
    ensures Decides(address, VERIFY_REQUEST, f) <==> f.address != address || f.command == 0x7F
    ensures Decides(address, POLL_REQUEST, f) <==> f.address != address || (f.command == 0xF9 && f.status != 0)
    ensures Tags(POLL_REQUEST, [f]) == Tags(START_REQUEST, [f]) == Tags(STOP_REQUEST, [f]) == if f.command == 0xF9 then [f] else []
    ensures Tags(VERIFY_REQUEST, [f]) == []
  {
    assert [f][1..] == [];
    assert [f] + [] == [f];
  }

  // -------------------------------------------------------------- the class

  class PersistentActiveReaderExecutor {
    const device: Device
    var open: bool
    var key: Option<string>
    var pending: seq<Frame>

    ghost function View(): Executor
      reads this
    {
      Executor(open, key, pending)
    }

    constructor (device: Device)
      ensures this.device == device && View() == INACTIVE
    {
      this.device := device;
      open, key, pending := false, None, [];
    }

    predicate IsActive()
      reads this
    {
      open && key.Some?
    }

    method Close()
      modifies this
      ensures View() == old(View()).(open := false, key := None)
    {
      open, key := false, None;
    }

    method TakePendingTagFrames() returns (frames: seq<Frame>)
      modifies this
      ensures frames == old(pending) && View() == old(View()).(pending := [])
    {
      frames := pending;
      pending := [];
    }

    /** One batch of frames: the body of each wait loop, and of poll_tag_frames. */
    method HandleFrames(q: Request, frames: seq<Frame>) returns (w: Wait)
      modifies this`pending
      ensures w == OnFrames(device.address, q, frames, old(pending)) && pending == w.buffer
    {
      var k := 0;
      assert frames[0..] == frames;
      while k < |frames|
        invariant 0 <= k <= |frames|
        invariant OnFrames(device.address, q, frames[k..], pending) == OnFrames(device.address, q, frames, old(pending))
      {
        assert frames[k..][1..] == frames[k + 1..];
        w := OnFrame(device.address, q, frames[k], pending);
        pending := w.buffer;
        if !w.Waiting? {
          return;
        }
        k := k + 1;
      }
      return Waiting(pending);
    }

    /** _wait_for_start_response and _wait_for_stop_response. */
    method WaitForResponse(q: Request, receptions: seq<Reception>) returns (r: Result<()>)
      modifies this`pending
      ensures
        var w := OnReceptions(device.address, q, receptions, MAX_RECEIVES, old(pending));
        pending == w.buffer && r == if w.Answered? then Ok(()) else Err(w.message)
    {
      var k := 0;
      assert receptions[0..] == receptions;
      while k < MAX_RECEIVES && k < |receptions|
        invariant 0 <= k <= MAX_RECEIVES && k <= |receptions|
        invariant OnReceptions(device.address, q, receptions[k..], MAX_RECEIVES - k, pending)
               == OnReceptions(device.address, q, receptions, MAX_RECEIVES, old(pending))
      {
        assert receptions[k..][1..] == receptions[k + 1..];
        match receptions[k] {
          case Lost(m) => return Err(m);
          case Frames(frames) =>
            var w := HandleFrames(q, frames);
            if w.Answered? {
              return Ok(());
            }
            if w.Failed? {
              return Err(w.message);
            }
        }
        k := k + 1;
      }
      return Err("No response was received.");
    }

    /** start, up to sending START. */
    method SendStartRequest(sessionKey: string, reader: string, link: Link) returns (r: Result<bool>, sent: bool)
      modifies this
      ensures SendStart(old(View()), device, sessionKey, reader, link) == Begun(View(), sent, r)
    {
      if reader != device.code {
        return Err("START reader identity mismatch."), false;
      }
      if sessionKey == "" {
        return Err("START requires a session key."), false;
      }
      if IsActive() {
        if key == Some(sessionKey) {
          return Ok(false), false;
        }
        return Err("Reader already has a different active session."), false;
      }
      match link
      case Refused(m) =>
        open, key := false, None;
        return Err(m), false;
      case SendFailed(m) =>
        open, key := false, None;
        return Err(m), true;
      case Up =>
        open, key := true, None;
        return Ok(true), true;
    }

    /**
      start. A refused request changes nothing and sends nothing; for the session
      that is running there is nothing to do; otherwise the session is held under
      its key if the reader accepts, and no session is held if it does not.
     */
    method Start(sessionKey: string, reader: string, link: Link, receptions: seq<Reception>)
      returns (r: Result<()>, sent: bool)
      modifies this
      ensures
        var begun := SendStart(old(View()), device, sessionKey, reader, link);
        && sent == begun.sent
        && (begun.result.Ok? && begun.result.value ==>
            (View(), r) == AwaitStart(begun.exec, device, sessionKey, receptions))
        && (begun.result.Ok? && !begun.result.value ==> View() == begun.exec && r == Ok(()))
        && (begun.result.Err? ==> View() == begun.exec && r == Err(begun.result.message))
      ensures
        if reader != device.code || sessionKey == "" || (old(open) && old(key).Some?) then
          && View() == old(View()) && !sent
          && (r.Ok? <==> reader == device.code && sessionKey != "" && old(key) == Some(sessionKey))
        else
          && sent == !link.Refused?
          && (r.Ok? <==> link.Up? && Accepted(device.address, START_REQUEST, receptions))
          && (if r.Ok? then open && key == Some(sessionKey) else !open && key.None?)
          && pending == old(pending) + if link.Up? then TagsHeard(device.address, START_REQUEST, receptions) else []
    {
      hide OnReceptions, Accepted, TagsHeard;
      var begun;
      begun, sent := SendStartRequest(sessionKey, reader, link);
      assert old(pending) + [] == old(pending);
      if begun.Err? {
        return Err(begun.message), sent;
      }
      if !begun.value {
        return Ok(()), sent;
      }
      WaitIs(device.address, START_REQUEST, receptions, pending);
      r := WaitForResponse(START_REQUEST, receptions);
      if r.Ok? {
        open, key := true, Some(sessionKey);
      } else {
        open, key := false, None;
      }
    }

    /** stop, up to sending STOP. */
    method SendStopRequest(sessionKey: string, reader: string, link: Link) returns (r: Result<()>, sent: bool)
      modifies this
      ensures SendStop(old(View()), device, sessionKey, reader, link) == Begun(View(), sent, r)
    {
      if reader != device.code {
        return Err("STOP reader identity mismatch."), false;
      }
      if !IsActive() {
        return Err("Reader has no active persistent session."), false;
      }
      if key != Some(sessionKey) {
        return Err("STOP session key does not match active reader session."), false;
      }
      match link
      case Refused(m) =>
        open, key := false, None;
        return Err(m), false;
      case SendFailed(m) =>
        open, key := false, None;
        return Err(m), true;
      case Up =>
        return Ok(()), true;
    }

    /**
      stop. A refused request changes nothing and sends nothing; otherwise no
      session is held afterwards, whatever the link and the reader do.
     */
    method Stop(sessionKey: string, reader: string, link: Link, receptions: seq<Reception>)
      returns (r: Result<()>, sent: bool)
      modifies this
      ensures
        var begun := SendStop(old(View()), device, sessionKey, reader, link);
        && sent == begun.sent
        && (begun.result.Ok? ==> (View(), r) == AwaitStop(begun.exec, device, receptions))
        && (begun.result.Err? ==> View() == begun.exec && r == begun.result)
      ensures
        if reader != device.code || !old(open) || old(key) != Some(sessionKey) then
          r.Err? && View() == old(View()) && !sent
        else
          && !open && key.None? && sent == !link.Refused?
          && (r.Ok? <==> link.Up? && Accepted(device.address, STOP_REQUEST, receptions))
          && pending == old(pending) + if link.Up? then TagsHeard(device.address, STOP_REQUEST, receptions) else []
    {
      hide OnReceptions, Accepted, TagsHeard;
      r, sent := SendStopRequest(sessionKey, reader, link);
      assert old(pending) + [] == old(pending);
      if r.Err? {
        return;
      }
      WaitIs(device.address, STOP_REQUEST, receptions, pending);
      r := WaitForResponse(STOP_REQUEST, receptions);
      Close();
    }

    method VerifyIdle(link: Link, receptions: seq<Reception>) returns (r: Result<()>, sent: bool)
      ensures old(IsActive()) ==> r.Err? && !sent
      ensures !IsActive() ==>
        && sent == !link.Refused?
        && r == match link
                case Refused(m) => Err(m)
                case SendFailed(m) => Err(m)
                case Up => AwaitVerify(device, receptions)
      ensures r.Ok? <==> !(open && key.Some?) && link.Up? && Accepted(device.address, VERIFY_REQUEST, receptions)
    {
      WaitIs(device.address, VERIFY_REQUEST, receptions, []);
      if IsActive() {
        return Err("Cannot perform startup verification while reader is active."), false;
      }
      match link {
        case Refused(m) => return Err(m), false;
        case SendFailed(m) => return Err(m), true;
        case Up =>
      }
      var k := 0;
      assert receptions[0..] == receptions;
      while k < MAX_RECEIVES && k < |receptions|
        invariant 0 <= k <= MAX_RECEIVES && k <= |receptions|
        invariant OnReceptions(device.address, VERIFY_REQUEST, receptions[k..], MAX_RECEIVES - k, [])
               == OnReceptions(device.address, VERIFY_REQUEST, receptions, MAX_RECEIVES, [])
      {
        assert receptions[k..][1..] == receptions[k + 1..];
        match receptions[k] {
          case Lost(m) => return Err(m), true;
          case Frames(frames) =>
            NothingBuffered(device.address, VERIFY_REQUEST, frames);
            var w := OnFrames(device.address, VERIFY_REQUEST, frames, []);
            if w.Answered? {
              return Ok(()), true;
            }
            if w.Failed? {
              return Err(w.message), true;
            }
        }
        k := k + 1;
      }
      return Err("No response was received."), true;
    }

    method PollTagFrames(reception: Reception) returns (r: Result<seq<Frame>>)
      modifies this
      ensures (View(), r) == Poll(old(View()), device, reception)
      ensures open == old(open) && key == old(key)
      ensures
        if old(pending) != [] || !(open && key.Some?) then r == Ok(old(pending)) && pending == []
        else if reception.Lost? then r == Err(reception.message) && pending == []
        else
          var n := FirstDecision(device.address, POLL_REQUEST, reception.frames);
          var tags := Tags(POLL_REQUEST, reception.frames[..n]);
          if n == |reception.frames| then r == Ok(tags) && pending == [] else r.Err? && pending == tags
    {
      hide OnFrames, FirstDecision, Tags;
      if reception.Frames? {
        PollIs(device.address, reception.frames);
      }
      if pending != [] {
        var frames := TakePendingTagFrames();
        return Ok(frames);
      }
      if !IsActive() {
        return Ok([]);
      }
      match reception {
        case Lost(m) => return Err(m);
        case Frames(frames) =>
          var w := HandleFrames(POLL_REQUEST, frames);
          if w.Failed? {
            return Err(w.message);
          }
          var taken := TakePendingTagFrames();
          return Ok(taken);
      }
    }
  }
}
