/**
  Where every captured tag frame is: handed to the ingestor, in the capture
  thread's hands, or in the executor's buffer (bridge_core/final_reader_executor.py:102-113,
  :344-367, bridge_core/final_capture_service.py:142-190, bridge_core/final_worker_cycle.py:104-126).
 */
module FrameCustody {
  import opened Wrappers
  import opened Crc
  import opened ReaderProtocol
  import opened Store
  import opened RuntimeState
  import opened SessionService
  import opened DeliveryBarrier
  import opened TagIngestion
  import opened IngestionUnion
  import opened StoreEvolution
  import opened ReaderExecutor
  import opened CaptureService
  import opened ControlMachine
  import opened ControlInvariant

  function InHands(cap: Capture): seq<Frame> {
    match cap.thread case Alive(Holding(frames)) => frames case _ => []
  }

  /** What the ingestor was given, frame by frame. */
  function Passed(handed: seq<Handed>): (tagged: seq<Tagged>)
    ensures |tagged| == |handed|
  {
    seq(|handed|, i requires 0 <= i < |handed| => Tagged(handed[i].frame, handed[i].session))
  }

  /** The part of a state that says where frames are. */
  datatype Ledger = Ledger(
    captured: seq<Tagged>, handed: seq<Handed>, owner: string, mark: nat, known: set<string>,
    hands: seq<Frame>, pending: seq<Frame>)

  function LedgerOf(s: State): Ledger {
    Ledger(s.captured, s.handed, s.owner, s.mark, s.known, InHands(s.cap), s.exec.pending)
  }

  const NO_FRAMES := Ledger([], [], "", 0, {}, [], [])

  /** Nothing is lost, doubled, reordered or attributed to another session. */
  ghost predicate Custody(l: Ledger) {
    l.captured == Passed(l.handed) + Tag(l.hands + l.pending, l.owner)
  }

  /** The frames from `mark` on were captured in the session that `owner` names. */
  ghost predicate Marked(l: Ledger) {
    && l.mark <= |l.captured|
    && forall i :: l.mark <= i < |l.captured| ==> l.captured[i].session == l.owner
  }

  ghost predicate Kept(l: Ledger) {
    Custody(l) && Marked(l)
  }

  lemma TagAppend(a: seq<Frame>, b: seq<Frame>, session: string)
    ensures Tag(a + b, session) == Tag(a, session) + Tag(b, session)
  {
  }

  lemma PassedAppend(handed: seq<Handed>, frames: seq<Frame>, session: string, stored: bool)
    ensures Passed(handed + Hand(frames, session, stored)) == Passed(handed) + Tag(frames, session)
  {
  }

  /** A step that leaves all frames where they are, or ends the process. */
  predicate SameFrames(s: State, s': State) {
    LedgerOf(s') == LedgerOf(s) || LedgerOf(s') == NO_FRAMES
  }

  lemma SameFramesKeep(s: State, s': State)
    requires SameFrames(s, s') && Kept(LedgerOf(s))
    ensures Kept(LedgerOf(s'))
  {
  }

  // ------------------------------------------------- steps that move no frame

  lemma ExitKeeps(g: Gateway, s: State)
    ensures LedgerOf(Exit(g, s)) == NO_FRAMES
  {
  }

  lemma DegradeKeeps(s: State, why: string)
    ensures LedgerOf(Degrade(s, why)) == LedgerOf(s)
  {
    hide MarkDegraded;
  }

  lemma StartFailedKeeps(s: State, c: Command, created: bool, why: string)
    ensures LedgerOf(StartFailed(s, c, created, why)) == LedgerOf(s)
  {
  }

  lemma StartReturnedKeeps(s: State, c: Command, created: bool)
    ensures LedgerOf(StartReturned(s, c, created)) == LedgerOf(s)
  {
    hide MarkReaderStarted;
  }

  lemma CompletedKeeps(s: State, c: Command)
    ensures LedgerOf(CommandCompleted(s, c)) == LedgerOf(s)
  {
    hide MarkCommandCompleted;
  }

  lemma HaltFailedKeeps(g: Gateway, s: State, t: Halt, why: string)
    ensures SameFrames(s, HaltFailed(g, s, t, why))
  {
    hide Degrade, Exit;
    DegradeKeeps(s, why);
    ExitKeeps(g, s);
  }

  lemma StopConfirmedKeeps(g: Gateway, s: State, t: Halt)
    ensures SameFrames(s, StopConfirmed(g, s, t))
  {
    hide MarkReaderStopped, HaltFailed;
    var s' := s.(quiet := true);
    var r := MarkReaderStopped(s'.rt);
    if r.Err? {
      HaltFailedKeeps(g, s', t, r.message);
    }
  }

  lemma {:induction false} JoinKeepsFrames(g: Gateway, s: State, t: Halt, ch: Choice)
    ensures SameFrames(s, JoinStep(g, s, t, ch))
  {
    hide StopHook, HaltFailed, Exit;
    var reader := if t.Shutdown? && t.k.None? then None else Some(g.reader.code);
    StoppedMeansAlone(s.cap, g.reader, HaltKey(t), reader, ch.fail);
    ExitKeeps(g, s);
    var stopped := StopHook(s.cap, g.reader, HaltKey(t), reader, ch.fail);
    if stopped.StopFailed? {
      HaltFailedKeeps(g, s.(cap := stopped.capture), t, stopped.message);
    }
  }

  lemma StartCaptureHands(c: Capture, e: Executor, device: Device, key: string, reader: string, spawn: Option<string>)
    requires c.thread.NoThread?
    ensures InHands(StartCapture(c, e, device, key, reader, spawn).0) == []
  {
  }

  lemma HookKeepsFrames(g: Gateway, s: State, c: Command, created: bool, ch: Choice)
    requires Alone(s)
    ensures SameFrames(s, HookStep(g, s, c, created, ch))
  {
    hide StartFailed, CommandCompleted, StartCapture;
    var (cap, r) := StartCapture(s.cap, s.exec, g.reader, c.sessionKey, c.readerCode, ch.fail);
    StartCaptureHands(s.cap, s.exec, g.reader, c.sessionKey, c.readerCode, ch.fail);
    if r.Ok? {
      CompletedKeeps(s.(cap := cap), c);
    } else {
      StartFailedKeeps(s.(cap := cap), c, created, r.message);
    }
  }

  lemma SendStopPending(e: Executor, device: Device, key: string, reader: string, link: Link)
    ensures SendStop(e, device, key, reader, link).exec.pending == e.pending
  {
  }

  lemma {:induction false} SendKeepsFrames(g: Gateway, s: State, t: Halt, ch: Choice)
    ensures SameFrames(s, SendStep(g, s, t, ch))
  {
    hide HaltFailed, SendStop, Exit;
    ExitKeeps(g, s);
    if t.OnAbort? && !Running(s.exec) {
      if !ch.link.Up? {
        HaltFailedKeeps(g, if ch.link.SendFailed? then StopSent(s, true) else s, t, ch.link.message);
      }
    } else if HaltKey(t).Some? {
      SendStopPending(s.exec, g.reader, HaltKey(t).value, g.reader.code, ch.link);
      var begun := SendStop(s.exec, g.reader, HaltKey(t).value, g.reader.code, ch.link);
      if begun.result.Err? {
        HaltFailedKeeps(g, StopSent(s, begun.sent).(exec := begun.exec), t, begun.result.message);
      }
    }
  }

  lemma SettleKeepsFrames(g: Gateway, s: State, t: Halt, ch: Choice)
    ensures SameFrames(s, SettleStep(g, s, t, ch))
  {
    hide FinishOr, Degrade, CommandCompleted, Exit, HaltFailed;
    ExitKeeps(g, s);
    if !t.Shutdown? {
      var r := FinishOr(s.db.sessions, t.c, if t.OnStop? then Closed else Cancelled, if t.OnAbort? then None else ch.fail);
      var s' := if r.Ok? then s.(db := s.db.(sessions := r.value)) else s;
      CompletedKeeps(s', t.c);
      CompletedKeeps(s, t.c);
      var cause := if ch.fail.Some? then ch.fail.value else "";
      HaltFailedKeeps(g, s, t, if t.OnAbort? then cause else if r.Err? then r.message else "");
      if t.CleanUp? {
        DegradeKeeps(s, t.why);
        DegradeKeeps(s', t.why);
        DegradeKeeps(s, t.why + "; newly-created local session cleanup also failed: " + if r.Err? then r.message else "");
      }
    }
  }

  /** The control steps that neither receive, nor open, nor drain. */
  lemma {:induction false} QuietControl(g: Gateway, s: State, ch: Choice)
    requires Core(g, s)
    requires !s.pc.Opening? && !s.pc.AwaitingStart? && !s.pc.AwaitingStop? && !s.pc.Drain?
    ensures SameFrames(s, ControlStep(g, s, ch))
  {
    hide AwaitVerify, HasActive, AllSent, Synchronize, HookStep, JoinStep, SendStep, SettleStep,
      OpenStep, AwaitStartStep, AwaitStopStep, DrainStep, HaltBefore, HaltAfter, Settled;
    match s.pc
    case Hooking(c, created) => HookKeepsFrames(g, s, c, created, ch);
    case Join(t) => JoinKeepsFrames(g, s, t, ch);
    case Send(t) => SendKeepsFrames(g, s, t, ch);
    case Settle(t) => SettleKeepsFrames(g, s, t, ch);
    case _ =>
  }

  // --------------------------------------------------------- steps that do

  lemma BufferedKeeps(s: State, exec: Executor)
    requires Kept(LedgerOf(s)) && s.exec.pending <= exec.pending
    ensures Kept(LedgerOf(Buffered(s, exec)))
    ensures LedgerOf(Buffered(s, exec)).handed == s.handed
  {
    var more := exec.pending[|s.exec.pending|..];
    TagAppend(InHands(s.cap) + s.exec.pending, more, s.owner);
    assert InHands(s.cap) + s.exec.pending + more == InHands(s.cap) + exec.pending;
  }

  lemma SendStartPending(e: Executor, device: Device, key: string, reader: string, link: Link)
    ensures SendStart(e, device, key, reader, link).exec.pending == e.pending
  {
  }

  lemma StartSentKeeps(g: Gateway, s: State, key: string)
    requires Kept(LedgerOf(s)) && InHands(s.cap) == [] && s.exec.pending == []
    ensures Kept(LedgerOf(StartSent(g, s, key))) && LedgerOf(StartSent(g, s, key)).handed == s.handed
  {
    assert Tag([] + [], s.owner) == [] == Tag([] + [], key);
  }

  lemma OpenKeeps(g: Gateway, s: State, c: Command, created: bool, ch: Choice)
    requires Kept(LedgerOf(s)) && Empty(s)
    ensures Kept(LedgerOf(OpenStep(g, s, c, created, ch)))
    ensures OpenStep(g, s, c, created, ch).handed in {s.handed, []}
  {
    hide StartFailed, StartReturned, SendStart, Kept, StartSent;
    var begun := SendStart(s.exec, g.reader, c.sessionKey, c.readerCode, ch.link);
    SendStartPending(s.exec, g.reader, c.sessionKey, c.readerCode, ch.link);
    StartSentKeeps(g, s, c.sessionKey);
    StartSentFrame(g, s, c.sessionKey);
    var s' := (if begun.sent then StartSent(g, s, c.sessionKey) else s).(exec := begun.exec);
    if begun.result.Err? {
      StartFailedKeeps(s', c, created, begun.result.message);
    } else {
      StartReturnedKeeps(s', c, created);
    }
  }

  lemma StartSentFrame(g: Gateway, s: State, key: string)
    ensures StartSent(g, s, key).exec == s.exec && StartSent(g, s, key).cap == s.cap
  {
  }

  lemma AwaitStartGrows(e: Executor, device: Device, key: string, receptions: seq<Reception>)
    ensures e.pending <= AwaitStart(e, device, key, receptions).0.pending
  {
    hide OnReceptions;
  }

  lemma {:induction false} AwaitStartKeeps(g: Gateway, s: State, c: Command, created: bool, ch: Choice)
    requires Kept(LedgerOf(s))
    ensures Kept(LedgerOf(AwaitStartStep(g, s, c, created, ch)))
    ensures AwaitStartStep(g, s, c, created, ch).handed in {s.handed, []}
  {
    hide StartFailed, StartReturned, AwaitStart, Kept, Buffered;
    var (exec, r) := AwaitStart(s.exec, g.reader, c.sessionKey, ch.receptions);
    AwaitStartGrows(s.exec, g.reader, c.sessionKey, ch.receptions);
    var s' := Buffered(s, exec);
    BufferedKeeps(s, exec);
    if r.Ok? {
      StartReturnedKeeps(s', c, created);
    } else {
      StartFailedKeeps(s', c, created, r.message);
    }
  }

  lemma AwaitStopGrows(e: Executor, device: Device, receptions: seq<Reception>)
    ensures e.pending <= AwaitStop(e, device, receptions).0.pending
  {
    hide OnReceptions;
  }

  lemma {:induction false} AwaitStopKeeps(g: Gateway, s: State, t: Halt, verifying: bool, ch: Choice)
    requires Kept(LedgerOf(s))
    ensures Kept(LedgerOf(AwaitStopStep(g, s, t, verifying, ch)))
    ensures AwaitStopStep(g, s, t, verifying, ch).handed in {s.handed, []}
  {
    hide StopConfirmed, HaltFailed, AwaitStop, Kept, AwaitVerify, Buffered;
    var (exec, stopped) := AwaitStop(s.exec, g.reader, ch.receptions);
    AwaitStopGrows(s.exec, g.reader, ch.receptions);
    var s' := if verifying then s else Buffered(s, exec);
    var r := if verifying then AwaitVerify(g.reader, ch.receptions) else stopped;
    BufferedKeeps(s, exec);
    if r.Ok? {
      StopConfirmedKeeps(g, s', t);
      SameFramesKeep(s', StopConfirmed(g, s', t));
    } else {
      HaltFailedKeeps(g, s', t, r.message);
      SameFramesKeep(s', HaltFailed(g, s', t, r.message));
    }
  }

  /** Handing over what the thread holds, or what is pending, under the owner's key. */
  lemma IngestedKeeps(g: Gateway, s: State, frames: seq<Frame>, rest: seq<Frame>, fail: Option<string>)
    requires Kept(LedgerOf(s).(hands := frames, pending := rest))
    ensures Kept(LedgerOf(Ingested(g, s, frames, s.owner, fail).0).(hands := [], pending := rest))
  {
    hide IngestOr;
    var (s', r) := Ingested(g, s, frames, s.owner, fail);
    PassedAppend(s.handed, frames, s.owner, r.Ok?);
    TagAppend(frames, rest, s.owner);
    assert [] + rest == rest;
  }

  lemma HandsOrPending(l: Ledger, frames: seq<Frame>)
    requires l.hands == [] && l.pending == frames
    ensures Kept(l) <==> Kept(l.(hands := frames, pending := []))
  {
    assert [] + frames == frames + [];
  }

  lemma {:induction false} DrainPendingKeeps(g: Gateway, s: State, key: string, fail: Option<string>)
    requires Kept(LedgerOf(s)) && Alone(s) && (s.exec.pending != [] ==> key == s.owner)
    ensures Kept(LedgerOf(DrainPending(g, s, key, fail).0))
    ensures DrainPending(g, s, key, fail).0.exec.pending == []
  {
    hide Ingested, Kept;
    if s.exec.pending != [] {
      var frames := s.exec.pending;
      var emptied := s.(exec := s.exec.(pending := []));
      HandsOrPending(LedgerOf(s), frames);
      IngestedKeeps(g, emptied, frames, [], fail);
      IngestedFrame(g, emptied, frames, key, fail);
    }
  }

  lemma {:induction false} DrainKeeps(g: Gateway, s: State, t: Halt, ch: Choice)
    requires Kept(LedgerOf(s)) && Alone(s) && HaltKey(t).Some? && Bound(s, HaltKey(t).value)
    ensures Kept(LedgerOf(DrainStep(g, s, t, ch)))
  {
    hide HaltFailed, DrainPending, Exit, Kept;
    var (s', r) := DrainPending(g, s, HaltKey(t).value, ch.fail);
    DrainPendingKeeps(g, s, HaltKey(t).value, ch.fail);
    ExitKeeps(g, s');
    SameFramesKeep(s', Exit(g, s'));
    if r.Err? {
      HaltFailedKeeps(g, s', t, r.message);
      SameFramesKeep(s', HaltFailed(g, s', t, r.message));
    }
  }

  lemma ThreadTakesKeeps(s: State)
    requires Kept(LedgerOf(s)) && InHands(s.cap) == []
    ensures Kept(LedgerOf(ThreadTakes(s)))
  {
    HandsOrPending(LedgerOf(s), s.exec.pending);
  }

  lemma ListenKeeps(g: Gateway, s: State, ch: Choice)
    requires Kept(LedgerOf(s)) && InHands(s.cap) == []
    ensures Kept(LedgerOf(ListenStep(g, s, ch)))
  {
    hide OnFrames, Kept, ThreadTakes;
    if ch.receptions != [] && ch.receptions[0].Frames? {
      var w := OnFrames(g.reader.address, POLL_REQUEST, ch.receptions[0].frames, s.exec.pending);
      var s' := Buffered(s, s.exec.(pending := w.buffer));
      BufferedKeeps(s, s.exec.(pending := w.buffer));
      ThreadTakesKeeps(s');
    }
  }

  lemma {:induction false} ThreadKeeps(g: Gateway, s: State, ch: Choice)
    requires Owned(s) && Kept(LedgerOf(s))
    ensures Kept(LedgerOf(ThreadStep(g, s, ch)))
  {
    hide Ingested, ListenStep, Kept, ThreadTakes;
    match s.cap.thread
    case Alive(Holding(frames)) =>
      IngestedKeeps(g, s, frames, s.exec.pending, ch.fail);
      IngestedFrame(g, s, frames, s.owner, ch.fail);
    case Alive(Listening) => ListenKeeps(g, s, ch);
    case Alive(Polling) => ThreadTakesKeeps(s);
    case _ =>
  }

  lemma {:induction false} ControlKeeps(g: Gateway, s: State, ch: Choice)
    requires Core(g, s) && Kept(LedgerOf(s))
    ensures Kept(LedgerOf(ControlStep(g, s, ch)))
  {
    hide HookStep, JoinStep, SendStep, SettleStep, OpenStep, AwaitStartStep, AwaitStopStep, DrainStep, Settled,
      BootSendStep, BootAwaitStep, BootGateStep, SyncStep, BarrierStep, AckStep, Kept, AllSent;
    match s.pc
    case Opening(c, created) => OpenKeeps(g, s, c, created, ch);
    case AwaitingStart(c, created) => AwaitStartKeeps(g, s, c, created, ch);
    case AwaitingStop(t, verifying) => AwaitStopKeeps(g, s, t, verifying, ch);
    case Drain(t) => DrainKeeps(g, s, t, ch);
    case _ =>
      QuietControl(g, s, ch);
      SameFramesKeep(s, ControlStep(g, s, ch));
  }

  /** Every action keeps every frame accounted for. */
  lemma {:induction false} StepKeeps(g: Gateway, s: State, a: Action)
    requires Core(g, s) && Kept(LedgerOf(s))
    ensures Kept(LedgerOf(Step(g, s, a)))
  {
    hide ControlStep, ThreadStep, Kept, AtPc, Finish, OtherDb, QueueEvent, PlanCommand;
    match a
    case Control(ch) => ControlKeeps(g, s, ch);
    case Thread(ch) => ThreadKeeps(g, s, ch);
    case _ => SameFramesKeep(s, Step(g, s, a));
  }
}
