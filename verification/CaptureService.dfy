/**
  The background capture thread (bridge_core/final_capture_service.py) and the
  hooks around it (bridge_core/final_worker_cycle.py:51-126).
 */
module CaptureService {
  import opened Wrappers
  import opened Crc
  import opened ReaderProtocol
  import opened Store
  import opened SessionService
  import opened ReaderExecutor
  import opened TagIngestion

  /**
    Where the thread is in its loop: about to look at the stop flag, inside
    poll_tag_frames before and while receiving, or holding frames to ingest.
   */
  datatype Phase = Top | Polling | Listening | Holding(frames: seq<Frame>)

  /** Unstarted: Thread.start raised, so the thread object was never alive. */
  datatype Thread = NoThread | Unstarted | Alive(phase: Phase) | Ended

  /** What ended the thread: poll_tag_frames raised, or the tag ingestor did. */
  datatype Fault = ReceiveFault(message: string) | StoreFault(message: string)

  datatype Capture = Capture(thread: Thread, stop: bool, key: Option<string>, error: Option<Fault>)

  const QUIESCENT := Capture(NoThread, false, None, None)

  /** start; `spawn` is the error that Thread.start raises, if it does. */
  function StartCapture(c: Capture, e: Executor, device: Device, key: string, reader: string, spawn: Option<string>)
    : (Capture, Result<()>)
  {
    if reader != device.code then (c, Err("Capture reader identity mismatch."))
    else if key == "" then (c, Err("Capture requires a session key."))
    else if c.thread.Alive? then
      if c.key == Some(key) then (c, Ok(())) else (c, Err("Capture owns a different session."))
    else if !Running(e) then (c, Err("Cannot start capture while reader is inactive."))
    else if e.key != Some(key) then (c, Err("Capture session does not match."))
    else if spawn.Some? then (Capture(Unstarted, false, Some(key), None), Err(spawn.value))
    else (Capture(Alive(Top), false, Some(key), None), Ok(()))
  }

  /** How `stop` can come out; Joining: the join is still waiting for the thread. */
  datatype Stopped = Stopped(capture: Capture) | Joining(capture: Capture) | StopFailed(capture: Capture, message: string)

  /** stop; `timeout` is the error raised when the join times out, if it does. */
  function StopCapture(c: Capture, timeout: Option<string>): Stopped {
    match c.thread
    case NoThread => Stopped(c.(key := None))
    case Unstarted => StopFailed(c.(stop := true), "cannot join thread before it is started")
    case Ended => Stopped(c.(stop := true, thread := NoThread, key := None))
    case Alive(_) =>
      if timeout.Some? then StopFailed(c.(stop := true), timeout.value) else Joining(c.(stop := true))
  }

  /** FinalWorkerCycle.stop_capture: the identity checks in front of `stop`. */
  function StopHook(c: Capture, device: Device, key: Option<string>, reader: Option<string>, timeout: Option<string>): Stopped {
    if reader.Some? && reader != Some(device.code) then StopFailed(c, "Capture-stop reader identity mismatch.")
    else if key.Some? && key != Some("") && c.key.Some? && c.key != Some("") && c.key != key then
      StopFailed(c, "Capture-stop session identity mismatch.")
    else StopCapture(c, timeout)
  }

  /** require_healthy */
  predicate Healthy(c: Capture) {
    c.error.None?
  }

  /** Whenever stopping succeeds, no thread is left, and nothing else was touched. */
  lemma {:induction false} StoppedMeansAlone(c: Capture, device: Device, key: Option<string>, reader: Option<string>, timeout: Option<string>)
    ensures
      match StopHook(c, device, key, reader, timeout)
      case Stopped(c') => c'.thread.NoThread? && c'.key.None? && !c.thread.Alive? && c'.error == c.error
      case Joining(c') => c.thread.Alive? && c' == c.(stop := true)
      case StopFailed(c', _) => c' == c || c' == c.(stop := true)
  {
  }

  /** The identity checks in front of stopping: a reader other than this one, or a session other than the captured one, is refused. */
  lemma {:induction false} HookIff(c: Capture, device: Device, key: Option<string>, reader: Option<string>, timeout: Option<string>)
    ensures
      var refused :=
        || (reader.Some? && reader.value != device.code)
        || (key.Some? && key.value != "" && c.key.Some? && c.key.value != "" && c.key.value != key.value);
      match StopHook(c, device, key, reader, timeout)
      case Stopped(_) => !refused && (c.thread.NoThread? || c.thread.Ended?)
      case Joining(_) => !refused && c.thread.Alive? && timeout.None?
      case StopFailed(c', m) =>
        if refused then c' == c
        else c' == c.(stop := true) && (c.thread.Unstarted? || (c.thread.Alive? && timeout == Some(m)))
  {
  }

  // ------------------------------------------------------------- the thread

  /** One pass of the loop: what `receive` delivers, and whether ingestion's database fails. */
  datatype Pass = Pass(stop: bool, reception: Reception, failure: Option<string>)

  /** One call of the ingestor: the frames and the key it was given, and whether it succeeded. */
  datatype Handover = Handover(frames: seq<Frame>, key: string, stored: bool)

  /** `captured`: every frame appended to the executor's buffer. */
  datatype Progress = Progress(
    exec: Executor, db: Db, captured: seq<Frame>, calls: seq<Handover>, error: Option<Fault>)

  /** The ingestor, or the error that the database raises instead. */
  ghost function IngestOr(db: Db, digest: Digest, device: Device, key: string, frames: seq<Frame>, failure: Option<string>)
    : (Db, Result<()>)
  {
    if failure.Some? then (db, Err(failure.value))
    else
      match Ingest(db, digest, device, key, frames)
      case Ok((db', _)) => (db', Ok(()))
      case Err(m) => (db, Err(m))
  }

  /** The tag frames that one poll appends to the buffer. */
  function Incoming(e: Executor, device: Device, reception: Reception): seq<Frame> {
    if e.pending != [] || !Running(e) || reception.Lost? then []
    else Tags(POLL_REQUEST, reception.frames[..FirstDecision(device.address, POLL_REQUEST, reception.frames)])
  }

  /** One pass that finds the stop flag clear. */
  ghost function Once(p: Progress, digest: Digest, device: Device, key: string, pass: Pass): Progress {
    var (exec, polled) := Poll(p.exec, device, pass.reception);
    var p' := p.(exec := exec, captured := p.captured + Incoming(p.exec, device, pass.reception));
    match polled
    case Err(m) => p'.(error := Some(ReceiveFault(m)))
    case Ok(frames) =>
      if frames == [] then p'
      else
        var (db, ingested) := IngestOr(p.db, digest, device, key, frames, pass.failure);
        p'.(db := db,
            calls := p.calls + [Handover(frames, key, ingested.Ok?)],
            error := if ingested.Ok? then None else Some(StoreFault(ingested.message)))
  }

  /** _run: until the stop flag is found set, or a pass raises. */
  ghost function Loop(p: Progress, digest: Digest, device: Device, key: string, passes: seq<Pass>): Progress
    decreases |passes|
  {
    if p.error.Some? || passes == [] || passes[0].stop then p
    else Loop(Once(p, digest, device, key, passes[0]), digest, device, key, passes[1..])
  }

  function HandedFrames(calls: seq<Handover>): seq<Frame> {
    if calls == [] then [] else HandedFrames(calls[..|calls| - 1]) + calls[|calls| - 1].frames
  }

  lemma {:induction false} PollConserves(e: Executor, device: Device, reception: Reception)
    ensures
      var (e', polled) := Poll(e, device, reception);
      && e.pending + Incoming(e, device, reception) == (if polled.Ok? then polled.value else []) + e'.pending
      && e' == e.(pending := e'.pending)
      && (polled.Ok? ==> e'.pending == [])
  {
    hide OnFrames, FirstDecision, Tags;
    if reception.Lost? {
    } else {
      var buffer := OnFrames(device.address, POLL_REQUEST, reception.frames, []).buffer;
      OnFramesMeans(device.address, POLL_REQUEST, reception.frames, []);
      assert [] + Incoming(e, device, reception) == Incoming(e, device, reception);
    }
  }

  /** Handed over exactly once, in order; the rest is still pending. */
  ghost predicate Conserved(p: Progress) {
    p.captured == HandedFrames(p.calls) + p.exec.pending
  }

  /** Every call is made under the thread's key, and only the last one may have failed. */
  ghost predicate CallsOf(p: Progress, key: string) {
    forall i :: 0 <= i < |p.calls| ==> CallOf(p, key, i)
  }

  ghost predicate CallOf(p: Progress, key: string, i: nat)
    requires i < |p.calls|
  {
    p.calls[i].key == key && (p.calls[i].stored || (i == |p.calls| - 1 && p.error.Some?))
  }

  lemma OnceConserves(p: Progress, digest: Digest, device: Device, key: string, pass: Pass)
    requires Conserved(p) && CallsOf(p, key) && p.error.None?
    ensures Conserved(Once(p, digest, device, key, pass)) && CallsOf(Once(p, digest, device, key, pass), key)
  {
    hide Poll, Incoming, IngestOr;
    PollConserves(p.exec, device, pass.reception);
    var p' := Once(p, digest, device, key, pass);
    forall i | 0 <= i < |p'.calls| ensures CallOf(p', key, i) {
      if i < |p.calls| { assert CallOf(p, key, i); }
    }
    var (handed, incoming) := (HandedFrames(p.calls), Incoming(p.exec, device, pass.reception));
    var (exec, polled) := Poll(p.exec, device, pass.reception);
    assert p'.captured == handed + (p.exec.pending + incoming);
    assert p'.calls[..|p.calls|] == p.calls;
    if polled.Ok? && polled.value != [] {
      assert p'.calls[..|p'.calls| - 1] == p.calls;
    } else {
      assert [] + exec.pending == exec.pending;
    }
  }

  /**
    The thread hands every captured frame to the ingestor exactly once, in order
    and under its own key, or leaves it pending; nothing is dropped, whatever
    fails and wherever the loop ends.
   */
  lemma {:induction false} LoopConserves(p: Progress, digest: Digest, device: Device, key: string, passes: seq<Pass>)
    requires Conserved(p) && CallsOf(p, key)
    ensures Conserved(Loop(p, digest, device, key, passes)) && CallsOf(Loop(p, digest, device, key, passes), key)
    decreases |passes|
  {
    hide Once, Conserved, CallsOf;
    if p.error.None? && passes != [] && !passes[0].stop {
      OnceConserves(p, digest, device, key, passes[0]);
      LoopConserves(Once(p, digest, device, key, passes[0]), digest, device, key, passes[1..]);
    }
  }

  // -------------------------------------------------------------- the class

  class FinalCaptureService {
    const executor: PersistentActiveReaderExecutor
    var thread: Thread
    var stopSet: bool
    var key: Option<string>
    var error: Option<Fault>

    ghost function View(): Capture
      reads this
    {
      Capture(thread, stopSet, key, error)
    }

    constructor (executor: PersistentActiveReaderExecutor)
      ensures this.executor == executor && View() == QUIESCENT
    {
      this.executor := executor;
      thread, stopSet, key, error := NoThread, false, None, None;
    }

    method Start(sessionKey: string, reader: string, spawn: Option<string>) returns (r: Result<()>)
      modifies this
      ensures (View(), r) == StartCapture(old(View()), executor.View(), executor.device, sessionKey, reader, spawn)
      ensures
        var named := reader == executor.device.code && sessionKey != "";
        var ready := executor.open && executor.key == Some(sessionKey);
        if old(thread).Alive? then View() == old(View()) && (r.Ok? <==> named && old(key) == Some(sessionKey))
        else if !named || !ready then View() == old(View()) && r.Err?
        else
          && !stopSet && error.None? && key == Some(sessionKey)
          && (r.Ok? <==> spawn.None?) && thread == if spawn.None? then Alive(Top) else Unstarted
    {
      if reader != executor.device.code {
        return Err("Capture reader identity mismatch.");
      }
      if sessionKey == "" {
        return Err("Capture requires a session key.");
      }
      if thread.Alive? {
        if key == Some(sessionKey) {
          return Ok(());
        }
        return Err("Capture owns a different session.");
      }
      var active := executor.IsActive();
      if !active {
        return Err("Cannot start capture while reader is inactive.");
      }
      if executor.key != Some(sessionKey) {
        return Err("Capture session does not match.");
      }
      stopSet := false;
      error := None;
      key := Some(sessionKey);
      thread := Unstarted;
      if spawn.Some? {
        return Err(spawn.value);
      }
      thread := Alive(Top);
      return Ok(());
    }

    /** stop, with the thread seen at the end of the join: gone, or still alive. */
    method Stop(timeout: Option<string>) returns (r: Result<()>)
      requires timeout.None? ==> !thread.Alive?
      modifies this
      ensures
        match StopCapture(old(View()), timeout)
        case Stopped(c) => View() == c && r == Ok(())
        case StopFailed(c, m) => View() == c && r == Err(m)
        case Joining(_) => false
      ensures r.Ok? <==> old(thread).NoThread? || old(thread).Ended?
      ensures error == old(error) && stopSet == (old(stopSet) || !old(thread).NoThread?)
      ensures if r.Ok? then thread.NoThread? && key.None? else thread == old(thread) && key == old(key)
    {
      if thread.NoThread? {
        key := None;
        return Ok(());
      }
      stopSet := true;
      if thread.Unstarted? {
        return Err("cannot join thread before it is started");
      }
      if thread.Alive? {
        return Err(timeout.value);
      }
      thread := NoThread;
      key := None;
      return Ok(());
    }

    /** The body of the loop in _run. */
    method OnePass(d: Database, digest: Digest, sessionKey: string, pass: Pass, ghost p: Progress)
      returns (call: Option<Handover>, raised: Option<Fault>)
      requires OneActive(d.sessions)
      requires p.exec == executor.View() && p.db == d.View() && p.error.None?
      modifies executor, d
      ensures OneActive(d.sessions)
      ensures
        var p' := Once(p, digest, executor.device, sessionKey, pass);
        && executor.View() == p'.exec && d.View() == p'.db && raised == p'.error
        && p'.captured == p.captured + Incoming(p.exec, executor.device, pass.reception)
        && p'.calls == if call.Some? then p.calls + [call.value] else p.calls
    {
      hide Poll, Incoming, IngestOr;
      var polled := executor.PollTagFrames(pass.reception);
      if polled.Err? {
        return None, Some(ReceiveFault(polled.message));
      }
      if polled.value == [] {
        return None, None;
      }
      var ingested := Hand(d, digest, sessionKey, polled.value, pass.failure);
      call := Some(Handover(polled.value, sessionKey, ingested.Ok?));
      raised := if ingested.Err? then Some(StoreFault(ingested.message)) else None;
    }

    /** _run; the passes say what happens around the thread while it loops. */
    method Run(d: Database, digest: Digest, sessionKey: string, passes: seq<Pass>)
      returns (calls: seq<Handover>, ghost captured: seq<Frame>)
      requires OneActive(d.sessions) && key == Some(sessionKey)
      modifies this, executor, d
      ensures
        var p := Loop(Progress(old(executor.View()), old(d.View()), old(executor.pending), [], None), digest, executor.device, sessionKey, passes);
        && executor.View() == p.exec && d.View() == p.db && captured == p.captured && calls == p.calls
        && View() == old(View()).(thread := Ended, stop := true, error := if p.error.Some? then p.error else old(error))
    {
      hide Once, Incoming;
      ghost var begin := Progress(executor.View(), d.View(), executor.pending, [], None);
      calls, captured := [], executor.pending;
      var raised: Option<Fault> := None;
      var k := 0;
      assert passes[0..] == passes;
      while raised.None? && k < |passes| && !passes[k].stop
        invariant 0 <= k <= |passes|
        invariant OneActive(d.sessions)
        invariant View() == old(View())
        invariant Loop(Progress(executor.View(), d.View(), captured, calls, raised), digest, executor.device, sessionKey, passes[k..])
               == Loop(begin, digest, executor.device, sessionKey, passes)
        decreases |passes| - k
      {
        assert passes[k..][1..] == passes[k + 1..];
        ghost var before := Progress(executor.View(), d.View(), captured, calls, raised);
        captured := captured + Incoming(executor.View(), executor.device, passes[k].reception);
        var call: Option<Handover>;
        call, raised := OnePass(d, digest, sessionKey, passes[k], before);
        if call.Some? {
          calls := calls + [call.value];
        }
        k := k + 1;
      }
      if raised.Some? {
        error := raised;
      }
      stopSet := true;
      thread := Ended;
    }

    /** The call of the tag ingestor. */
    method Hand(d: Database, digest: Digest, sessionKey: string, frames: seq<Frame>, failure: Option<string>) returns (r: Result<()>)
      requires OneActive(d.sessions)
      modifies d
      ensures (d.View(), r) == IngestOr(old(d.View()), digest, executor.device, sessionKey, frames, failure)
      ensures d.sessions == old(d.sessions)
    {
      hide Commit, ToReads;
      if failure.Some? {
        return Err(failure.value);
      }
      IngestKeepsSessions(d.View(), digest, executor.device, sessionKey, frames);
      var ingested := IngestFinalActiveTagFrames(d, digest, executor.device, sessionKey, frames);
      if ingested.Err? {
        return Err(ingested.message);
      }
      return Ok(());
    }
  }
}
