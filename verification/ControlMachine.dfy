/**
  The final worker as a transition system: the control thread inside the
  orchestrator's handlers (bridge_core/final_runtime_orchestrator.py) with its
  hooks (bridge_core/final_worker_cycle.py), startup and shutdown
  (bridge_core/management/commands/run_final_rfid_worker.py:172-368), the capture
  thread (bridge_core/final_capture_service.py:142-169), the delivery workers and
  the other readers on the same database. Every call may fail. A run is any
  sequence of actions; an action that is not possible leaves the state alone.
 */
module ControlMachine {
  import opened Wrappers
  import opened Crc
  import opened ReaderProtocol
  import opened Store
  import opened QueuePolicy
  import opened DeliveryService
  import opened RuntimeState
  import opened SessionService
  import opened DeliveryBarrier
  import opened TagIngestion
  import opened IngestionUnion
  import opened ReaderExecutor
  import opened CaptureService

  /** What does not change: the reader, the registered devices, the key digest. */
  datatype Gateway = Gateway(reader: Device, devices: map<string, Device>, digest: Digest)

  /** Why the reader is being stopped. */
  datatype Halt =
    | CleanUp(c: Command, created: bool, why: string)
    | OnStop(c: Command)
    | OnAbort(c: Command)
    | Shutdown(k: Option<string>)

  /** The next effect of the control thread. */
  datatype Pc =
    | Down | BootSend | BootAwait | BootGate | Ready
    | Syncing(c: Command) | Opening(c: Command, created: bool)
    | AwaitingStart(c: Command, created: bool) | Hooking(c: Command, created: bool)
    | Join(t: Halt) | Send(t: Halt) | AwaitingStop(t: Halt, verifying: bool) | Drain(t: Halt) | Settle(t: Halt)
    | Barrier(c: Command) | Ack(c: Command)

  /** A frame appended to the buffer, with the session whose START opened the connection. */
  datatype Tagged = Tagged(frame: Frame, session: string)

  /** A frame passed to the ingestor, with the key it was passed under. */
  datatype Handed = Handed(frame: Frame, session: string, stored: bool)

  /** A request frame put on the wire. */
  datatype Radio = StartFrame(session: string) | StopFrame

  /**
    `quiet`, `owner`, `mark`, `known`, `captured`, `handed`, `acks` and `radio` are
    history: no step depends on them. `quiet`: a STOP was confirmed after the last
    START frame. `owner`: the session whose START frame opened the connection last,
    `mark` how many frames had been captured by then, and `known` the EPCs that had
    rows of that session already.
   */
  datatype State = State(
    pc: Pc,
    rt: Runtime,
    exec: Executor,
    cap: Capture,
    db: Db,
    quiet: bool,
    owner: string,
    mark: nat,
    known: set<string>,
    captured: seq<Tagged>,
    handed: seq<Handed>,
    acks: seq<Command>,
    radio: seq<Radio>)

  /** How an effect comes out; `fail` is the error it raises, if it does. */
  datatype Choice = Choice(fail: Option<string>, link: Link, receptions: seq<Reception>)

  datatype QueueStep =
    | Begin(expected: QueueState, maxAttempts: int, now: int)
    | Complete(number: nat, outcome: Outcome, now: int, initial: int, maximum: int)
    | Move(expected: QueueState, target: QueueState)

  datatype OtherStep =
    | OtherStart(c: Command)
    | OtherFinish(key: string, code: string, target: Status)
    | OtherIngest(device: Device, key: string, frames: seq<Frame>)

  /** Recover: an operator finishes a stale session while the worker is down. */
  datatype Action =
    | Boot
    | Receive(c: Command)
    | Control(choice: Choice)
    | Thread(choice: Choice)
    | Interrupt
    | Crash
    | Queue(id: nat, step: QueueStep)
    | Elsewhere(other: OtherStep)
    | Recover(key: string, target: Status)

  // ------------------------------------------------------------ frame buffers

  function Tag(frames: seq<Frame>, session: string): (tagged: seq<Tagged>)
    ensures |tagged| == |frames|
  {
    seq(|frames|, i requires 0 <= i < |frames| => Tagged(frames[i], session))
  }

  function Hand(frames: seq<Frame>, session: string, stored: bool): (handed: seq<Handed>)
    ensures |handed| == |frames|
  {
    seq(|frames|, i requires 0 <= i < |frames| => Handed(frames[i], session, stored))
  }

  /** The executor's buffer grew to `buffer`. */
  function Buffered(s: State, exec: Executor): State
    requires s.exec.pending <= exec.pending
  {
    s.(exec := exec, captured := s.captured + Tag(exec.pending[|s.exec.pending|..], s.owner))
  }

  /** The ingestor is called with these frames. */
  ghost function Ingested(g: Gateway, s: State, frames: seq<Frame>, key: string, fail: Option<string>): (State, Result<()>) {
    var (db, r) := IngestOr(s.db, g.digest, g.reader, key, frames, fail);
    (s.(db := db, handed := s.handed + Hand(frames, key, r.Ok?)), r)
  }

  /** drain_pending_tags */
  ghost function DrainPending(g: Gateway, s: State, key: string, fail: Option<string>): (State, Result<()>) {
    if s.exec.pending == [] then (s, Ok(()))
    else Ingested(g, s.(exec := s.exec.(pending := [])), s.exec.pending, key, fail)
  }

  // ---------------------------------------------------------- leaving a handler

  /** The process ends: only the database, the hardware and the record of both remain. */
  function Exit(g: Gateway, s: State): State {
    s.(pc := Down, rt := Unverified(g), exec := INACTIVE, cap := QUIESCENT, owner := "", mark := 0, known := {}, captured := [], handed := [])
  }

  /** FinalRuntimeOrchestrator.__init__ */
  function Unverified(g: Gateway): Runtime {
    Fresh(g.reader.code, Offline, None, 0, Some("Reader state not yet verified."))
  }

  /** An exception left the worker loop: _safe_shutdown_reader. */
  function BeginShutdown(s: State): State {
    s.(pc := Join(Shutdown(if Running(s.exec) then s.exec.key else None)))
  }

  /** mark_degraded with the text of the failure; a blank text raises again. */
  function Degrade(s: State, why: string): State {
    match MarkDegraded(s.rt, why)
    case Ok(rt) => s.(rt := rt, pc := Ready)
    case Err(_) => BeginShutdown(s)
  }

  /** The except branch of _execute_start. */
  function StartFailed(s: State, c: Command, created: bool, why: string): State {
    var t := CleanUp(c, created, why);
    s.(pc := if Running(s.exec) then Join(t) else Settle(t))
  }

  /** A failure inside the stop sequence. */
  function HaltFailed(g: Gateway, s: State, t: Halt, why: string): State {
    match t
    case CleanUp(c, created, first) => s.(pc := Settle(CleanUp(c, created, first + "; emergency reader STOP also failed: " + why)))
    case OnStop(_) => Degrade(s, why)
    case OnAbort(_) => Degrade(s, why)
    case Shutdown(_) => Exit(g, s)
  }

  function CommandCompleted(s: State, c: Command): State {
    match MarkCommandCompleted(s.rt, c)
    case Ok(rt) => s.(rt := rt, pc := if c.kind.Stop? then Barrier(c) else Ack(c))
    case Err(_) => BeginShutdown(s)
  }

  // -------------------------------------------------------------------- startup

  function BootSendStep(g: Gateway, s: State, ch: Choice): State {
    match ch.link
    case Up => s.(pc := BootAwait, radio := s.radio + [StopFrame])
    case SendFailed(_) => Exit(g, s.(radio := s.radio + [StopFrame]))
    case Refused(_) => Exit(g, s)
  }

  function BootAwaitStep(g: Gateway, s: State, ch: Choice): State {
    if AwaitVerify(g.reader, ch.receptions).Ok? then s.(pc := BootGate, quiet := true) else Exit(g, s)
  }

  /** No ACTIVE row may be left; then mark_reader_verified_idle. */
  ghost function BootGateStep(g: Gateway, s: State, ch: Choice): State {
    if ch.fail.Some? || HasActive(s.db.sessions, g.reader.code) then Exit(g, s)
    else s.(pc := Ready, rt := Fresh(s.rt.readerCode, Idle, None, s.rt.lastRevision, None))
  }

  // ---------------------------------------------------------------------- START

  ghost function SyncStep(g: Gateway, s: State, c: Command, ch: Choice): State {
    if ch.fail.Some? then StartFailed(s, c, false, ch.fail.value)
    else
      match Synchronize(s.db.sessions, g.devices, c)
      case Err(m) => StartFailed(s, c, false, m)
      case Ok((sessions, created)) => s.(db := s.db.(sessions := sessions), pc := Opening(c, created))
  }

  /** The START frame went out, or may have. */
  ghost function StartSent(g: Gateway, s: State, key: string): State {
    s.(quiet := false, owner := key, mark := |s.captured|, known := Epcs(s.db.events, g.reader.code, key), radio := s.radio + [StartFrame(key)])
  }

  ghost function OpenStep(g: Gateway, s: State, c: Command, created: bool, ch: Choice): State {
    var begun := SendStart(s.exec, g.reader, c.sessionKey, c.readerCode, ch.link);
    var s' := (if begun.sent then StartSent(g, s, c.sessionKey) else s).(exec := begun.exec);
    match begun.result
    case Err(m) => StartFailed(s', c, created, m)
    case Ok(connecting) => if connecting then s'.(pc := AwaitingStart(c, created)) else StartReturned(s', c, created)
  }

  /** executor.start returned: mark_reader_started. */
  function StartReturned(s: State, c: Command, created: bool): State {
    match MarkReaderStarted(s.rt)
    case Ok(rt) => s.(rt := rt, pc := Hooking(c, created))
    case Err(m) => StartFailed(s, c, created, m)
  }

  function AwaitStartStep(g: Gateway, s: State, c: Command, created: bool, ch: Choice): State {
    var (exec, r) := AwaitStart(s.exec, g.reader, c.sessionKey, ch.receptions);
    match r
    case Ok(_) => StartReturned(Buffered(s, exec), c, created)
    case Err(m) => StartFailed(Buffered(s, exec), c, created, m)
  }

  /** after_reader_start */
  function HookStep(g: Gateway, s: State, c: Command, created: bool, ch: Choice): State {
    var (cap, r) := StartCapture(s.cap, s.exec, g.reader, c.sessionKey, c.readerCode, ch.fail);
    match r
    case Ok(_) => CommandCompleted(s.(cap := cap), c)
    case Err(m) => StartFailed(s.(cap := cap), c, created, m)
  }

  // ------------------------------------------------------- the stop sequence

  function HaltKey(t: Halt): Option<string> {
    match t
    case CleanUp(c, _, _) => Some(c.sessionKey)
    case OnStop(c) => Some(c.sessionKey)
    case OnAbort(c) => Some(c.sessionKey)
    case Shutdown(k) => k
  }

  /** before_reader_stop; without a connection, shutdown only stops capturing. */
  function JoinStep(g: Gateway, s: State, t: Halt, ch: Choice): State {
    var reader := if t.Shutdown? && t.k.None? then None else Some(g.reader.code);
    match StopHook(s.cap, g.reader, HaltKey(t), reader, ch.fail)
    case Joining(cap) => s.(cap := cap)
    case StopFailed(cap, m) => HaltFailed(g, s.(cap := cap), t, m)
    case Stopped(cap) => if t.Shutdown? && t.k.None? then Exit(g, s) else s.(cap := cap, pc := Send(t))
  }

  function StopSent(s: State, sent: bool): State {
    if sent then s.(radio := s.radio + [StopFrame]) else s
  }

  /** reader_executor.stop or verify_idle, up to sending STOP. */
  function SendStep(g: Gateway, s: State, t: Halt, ch: Choice): State {
    if t.OnAbort? && !Running(s.exec) then
      match ch.link
      case Up => StopSent(s, true).(pc := AwaitingStop(t, true))
      case SendFailed(m) => HaltFailed(g, StopSent(s, true), t, m)
      case Refused(m) => HaltFailed(g, s, t, m)
    else if HaltKey(t).None? then Exit(g, s)
    else
      var begun := SendStop(s.exec, g.reader, HaltKey(t).value, g.reader.code, ch.link);
      var s' := StopSent(s, begun.sent).(exec := begun.exec);
      match begun.result
      case Err(m) => HaltFailed(g, s', t, m)
      case Ok(_) => s'.(pc := AwaitingStop(t, false))
  }

  function AwaitStopStep(g: Gateway, s: State, t: Halt, verifying: bool, ch: Choice): State {
    if verifying then
      match AwaitVerify(g.reader, ch.receptions)
      case Ok(_) => StopConfirmed(g, s, t)
      case Err(m) => HaltFailed(g, s, t, m)
    else
      var (exec, r) := AwaitStop(s.exec, g.reader, ch.receptions);
      match r
      case Ok(_) => StopConfirmed(g, Buffered(s, exec), t)
      case Err(m) => HaltFailed(g, Buffered(s, exec), t, m)
  }

  /** The reader answered STOP: STOP and ABORT go on with mark_reader_stopped. */
  function StopConfirmed(g: Gateway, s: State, t: Halt): State {
    var s' := s.(quiet := true);
    if t.CleanUp? || t.Shutdown? then s'.(pc := Drain(t))
    else
      match MarkReaderStopped(s'.rt)
      case Ok(rt) => s'.(rt := rt, pc := Drain(t))
      case Err(m) => HaltFailed(g, s', t, m)
  }

  /** before_session_close */
  ghost function DrainStep(g: Gateway, s: State, t: Halt, ch: Choice): State {
    if HaltKey(t).None? then Exit(g, s)
    else
      var (s', r) := DrainPending(g, s, HaltKey(t).value, ch.fail);
      match r
      case Err(m) => HaltFailed(g, s', t, m)
      case Ok(_) => if t.Shutdown? then Exit(g, s') else s'.(pc := Settle(t))
  }

  /** What remains: the session row and the runtime record. */
  function SettleStep(g: Gateway, s: State, t: Halt, ch: Choice): State {
    match t
    case CleanUp(c, created, why) =>
      if !created then Degrade(s, why)
      else
        (match FinishOr(s.db.sessions, c, Cancelled, ch.fail)
         case Ok(sessions) => Degrade(s.(db := s.db.(sessions := sessions)), why)
         case Err(m) => Degrade(s, why + "; newly-created local session cleanup also failed: " + m))
    case OnStop(c) =>
      (match FinishOr(s.db.sessions, c, Closed, ch.fail)
       case Ok(sessions) => CommandCompleted(s.(db := s.db.(sessions := sessions)), c)
       case Err(m) => HaltFailed(g, s, t, m))
    case OnAbort(c) =>
      // A FinalSessionError is ignored, any other exception is not.
      if ch.fail.Some? then HaltFailed(g, s, t, ch.fail.value)
      else
        (match FinishOr(s.db.sessions, c, Cancelled, None)
         case Ok(sessions) => CommandCompleted(s.(db := s.db.(sessions := sessions)), c)
         case Err(_) => CommandCompleted(s, c))
    case Shutdown(_) => Exit(g, s)
  }

  /** close_local_session or cancel_local_session, or the error that the database raises. */
  function FinishOr(sessions: map<string, Session>, c: Command, target: Status, fail: Option<string>): Result<map<string, Session>> {
    if fail.Some? then Err(fail.value)
    else if target.Closed? then CloseSession(sessions, c.sessionKey, c.readerCode)
    else Finish(sessions, c.sessionKey, c.readerCode, target)
  }

  // ----------------------------------------------------------------------- ACKs

  /** before_success_ack, for STOP. */
  ghost function BarrierStep(s: State, c: Command, ch: Choice): State {
    if ch.fail.None? && AllSent(s.db.events, c.sessionKey, c.readerCode) then s.(pc := Ack(c)) else s.(pc := Ready)
  }

  /** The success ACK goes out; whether Odoo accepts it changes nothing here. */
  function AckStep(s: State, c: Command): State {
    s.(pc := Ready, acks := s.acks + [c])
  }

  // -------------------------------------------------------------------- the steps

  ghost function ControlStep(g: Gateway, s: State, ch: Choice): State {
    match s.pc
    case Down => s
    case Ready => s
    case BootSend => BootSendStep(g, s, ch)
    case BootAwait => BootAwaitStep(g, s, ch)
    case BootGate => BootGateStep(g, s, ch)
    case Syncing(c) => SyncStep(g, s, c, ch)
    case Opening(c, created) => OpenStep(g, s, c, created, ch)
    case AwaitingStart(c, created) => AwaitStartStep(g, s, c, created, ch)
    case Hooking(c, created) => HookStep(g, s, c, created, ch)
    case Join(t) => JoinStep(g, s, t, ch)
    case Send(t) => SendStep(g, s, t, ch)
    case AwaitingStop(t, verifying) => AwaitStopStep(g, s, t, verifying, ch)
    case Drain(t) => DrainStep(g, s, t, ch)
    case Settle(t) => SettleStep(g, s, t, ch)
    case Barrier(c) => BarrierStep(s, c, ch)
    case Ack(c) => AckStep(s, c)
  }

  /** process_command up to its first effect; a refusal only sends a failure ACK. */
  function ReceiveStep(s: State, c: Command): State {
    if !s.pc.Ready? || !WellFormed(c) || c.readerCode != s.rt.readerCode then s
    else
      match PlanCommand(s.rt, c)
      case Err(_) => s
      case Ok(Duplicate) => s.(pc := if c.kind.Stop? then Barrier(c) else Ack(c))
      case Ok(Accept(after)) =>
        s.(rt := after,
           pc := match c.kind case Start => Syncing(c) case Stop => Join(OnStop(c)) case Abort => Join(OnAbort(c)))
  }

  /** The thread ends, recording an error if one was raised. */
  function ThreadEnds(s: State, error: Option<Fault>): State {
    s.(cap := s.cap.(thread := Ended, stop := true, error := if error.Some? then error else s.cap.error))
  }

  function ThreadAt(s: State, phase: Phase): State {
    s.(cap := s.cap.(thread := Alive(phase)))
  }

  function ThreadTakes(s: State): State {
    if s.exec.pending == [] then ThreadAt(s, Top)
    else ThreadAt(s.(exec := s.exec.(pending := [])), Holding(s.exec.pending))
  }

  ghost function ThreadStep(g: Gateway, s: State, ch: Choice): State {
    match s.cap.thread
    case Alive(Top) => if s.cap.stop then ThreadEnds(s, None) else ThreadAt(s, Polling)
    case Alive(Polling) =>
      if s.exec.pending != [] then ThreadTakes(s)
      else if Running(s.exec) then ThreadAt(s, Listening)
      else ThreadAt(s, Top)
    case Alive(Listening) => ListenStep(g, s, ch)
    case Alive(Holding(frames)) =>
      if frames == [] then ThreadAt(s, Top)
      else
        var (s', r) := Ingested(g, s, frames, if s.cap.key.Some? then s.cap.key.value else "", ch.fail);
        (match r case Ok(_) => ThreadAt(s', Top) case Err(m) => ThreadEnds(s', Some(StoreFault(m))))
    case _ => s
  }

  /** `receive` returns to the thread inside poll_tag_frames. */
  function ListenStep(g: Gateway, s: State, ch: Choice): State {
    if ch.receptions == [] || !s.exec.open then ThreadEnds(s, Some(ReceiveFault("Receive failed.")))
    else
      match ch.receptions[0]
      case Lost(m) => ThreadEnds(s, Some(ReceiveFault(m)))
      case Frames(frames) =>
        var w := OnFrames(g.reader.address, POLL_REQUEST, frames, s.exec.pending);
        var s' := Buffered(s, s.exec.(pending := w.buffer));
        if w.Failed? then ThreadEnds(s', Some(ReceiveFault(w.message))) else ThreadTakes(s')
  }

  /**
    SIGTERM raises KeyboardInterrupt in the control thread, which no handler
    catches; `finally` closes the connection inside executor.stop. The signal is
    handled from the worker loop on; in shutdown it ends the process.
   */
  function InterruptStep(g: Gateway, s: State): State {
    match s.pc
    case Down => s
    case BootSend => Exit(g, s)
    case BootAwait => Exit(g, s)
    case BootGate => Exit(g, s)
    case AwaitingStop(t, false) =>
      if t.Shutdown? then Exit(g, s) else BeginShutdown(s.(exec := s.exec.(open := false, key := None)))
    case Join(Shutdown(_)) => Exit(g, s)
    case Send(Shutdown(_)) => Exit(g, s)
    case Drain(Shutdown(_)) => Exit(g, s)
    case _ => BeginShutdown(s)
  }

  function QueueEvent(e: Event, q: QueueStep): Event {
    match q
    case Begin(expected, maxAttempts, now) =>
      (match StartEvent(e, expected, maxAttempts, now) case Ok(e') => e' case Err(_) => e)
    case Complete(number, outcome, now, initial, maximum) =>
      (match CompleteEvent(e, number, outcome, now, initial, maximum) case Ok(e') => e' case Err(_) => e)
    case Move(expected, target) =>
      (match MoveEvent(e, expected, target) case Ok(e') => e' case Err(_) => e)
  }

  ghost function OtherDb(g: Gateway, db: Db, other: OtherStep): Db {
    match other
    case OtherStart(c) =>
      if c.readerCode == g.reader.code then db
      else (match Synchronize(db.sessions, g.devices, c) case Ok((sessions, _)) => db.(sessions := sessions) case Err(_) => db)
    case OtherFinish(key, code, target) =>
      if code == g.reader.code || target.Active? then db
      else (match Finish(db.sessions, key, code, target) case Ok(sessions) => db.(sessions := sessions) case Err(_) => db)
    case OtherIngest(device, key, frames) =>
      if device.code == g.reader.code then db
      else (match Ingest(db, g.digest, device, key, frames) case Ok((db', _)) => db' case Err(_) => db)
  }

  ghost function Step(g: Gateway, s: State, a: Action): State {
    match a
    case Boot => if s.pc.Down? then s.(pc := BootSend) else s
    case Receive(c) => ReceiveStep(s, c)
    case Control(ch) => ControlStep(g, s, ch)
    case Thread(ch) => ThreadStep(g, s, ch)
    case Interrupt => InterruptStep(g, s)
    case Crash => Exit(g, s)
    case Queue(id, q) =>
      if id < |s.db.events| then s.(db := s.db.(events := s.db.events[id := QueueEvent(s.db.events[id], q)])) else s
    case Elsewhere(other) => s.(db := OtherDb(g, s.db, other))
    case Recover(key, target) =>
      if !s.pc.Down? || target.Active? then s
      else (match Finish(s.db.sessions, key, g.reader.code, target)
            case Ok(sessions) => s.(db := s.db.(sessions := sessions))
            case Err(_) => s)
  }

  ghost function Run(g: Gateway, s: State, actions: seq<Action>): State
    decreases |actions|
  {
    if actions == [] then s else Run(g, Step(g, s, actions[0]), actions[1..])
  }

  /** Before the worker first starts, on any database and with the reader in any state. */
  function Initial(g: Gateway, db: Db): State {
    State(Down, Unverified(g), INACTIVE, QUIESCENT, db, false, "", 0, {}, [], [], [], [])
  }

  lemma {:induction false} RunConcat(g: Gateway, s: State, p: seq<Action>, q: seq<Action>)
    ensures Run(g, s, p + q) == Run(g, Run(g, s, p), q)
    decreases |p|
  {
    hide Step;
    if p == [] {
      assert p + q == q;
    } else {
      assert (p + q)[1..] == p[1..] + q;
      RunConcat(g, Step(g, s, p[0]), p[1..], q);
    }
  }

  lemma RunTwo(g: Gateway, s: State, a: Action, b: Action)
    ensures Run(g, s, [a, b]) == Step(g, Step(g, s, a), b)
  {
    hide Step;
    var t := Step(g, s, a);
    assert [a, b][1..] == [b];
    assert Run(g, t, [b]) == Run(g, Step(g, t, b), []);
  }

  lemma RunOne(g: Gateway, s: State, a: Action)
    ensures Run(g, s, [a]) == Step(g, s, a)
  {
    hide Step;
    assert Run(g, Step(g, s, a), []) == Step(g, s, a);
  }
}
