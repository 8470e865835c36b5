/**
  FinalRuntimeOrchestrator as it is written (bridge_core/final_runtime_orchestrator.py),
  over the executor, capture service and database objects. A ghost trace records
  the run of the transition system that the calls amount to, so that everything
  proved about all runs holds of these methods.
 */
module RuntimeOrchestrator {
  import opened Wrappers
  import opened Crc
  import opened ReaderProtocol
  import opened Store
  import opened RuntimeState
  import opened SessionService
  import opened DeliveryBarrier
  import opened TagIngestion
  import opened IngestionUnion
  import opened StoreEvolution
  import opened ReaderExecutor
  import opened CaptureService
  import opened CaptureRefinement
  import opened ControlMachine
  import opened ControlInvariant
  import opened ControlOutcomes
  import opened FrameCustody
  import opened StopGuarantee
  import opened ControlTheorems

  /**
    How the calls made for one command come out. `passes` is what the capture
    thread does until it is told to stop.
   */
  datatype Effects = Effects(
    sync: Option<string>,
    startLink: Link, startReply: seq<Reception>,
    spawn: Option<string>,
    passes: seq<Pass>, join: Option<string>,
    stopLink: Link, stopReply: seq<Reception>,
    drain: Option<string>, settle: Option<string>,
    barrier: Option<string>, accepted: bool)

  // --------------------------------------------- what the machine's steps come to

  /** Where the except branch of START goes on. */
  function FailPc(e: Executor, c: Command, created: bool, why: string): Pc {
    if Running(e) then Join(CleanUp(c, created, why)) else Settle(CleanUp(c, created, why))
  }

  /** executor.start came out as `r`, and mark_reader_started followed if it returned. */
  ghost predicate StartEnds(s: State, s': State, c: Command, created: bool, exec: Executor, r: Result<()>) {
    && s'.exec == exec && s'.cap == s.cap && s'.db == s.db
    && match r
       case Err(m) => s'.rt == s.rt && s'.pc == FailPc(exec, c, created, m)
       case Ok(_) =>
         match MarkReaderStarted(s.rt)
         case Ok(rt) => s'.rt == rt && s'.pc == Hooking(c, created)
         case Err(m) => s'.rt == s.rt && s'.pc == FailPc(exec, c, created, m)
  }

  lemma OpenEnds(g: Gateway, s: State, c: Command, created: bool, ch: Choice)
    requires s.pc == Opening(c, created)
    ensures
      var begun := SendStart(s.exec, g.reader, c.sessionKey, c.readerCode, ch.link);
      var s' := ControlStep(g, s, ch);
      if begun.result.Ok? && begun.result.value then
        s'.pc == AwaitingStart(c, created) && s'.exec == begun.exec && s'.rt == s.rt && s'.cap == s.cap && s'.db == s.db
      else
        StartEnds(s, s', c, created, begun.exec, match begun.result case Ok(_) => Ok(()) case Err(m) => Err(m))
  {
    hide SendStart, MarkReaderStarted;
  }

  lemma AwaitEnds(g: Gateway, s: State, c: Command, created: bool, ch: Choice)
    requires s.pc == AwaitingStart(c, created)
    ensures
      var (exec, r) := ReaderExecutor.AwaitStart(s.exec, g.reader, c.sessionKey, ch.receptions);
      StartEnds(s, ControlStep(g, s, ch), c, created, exec, r)
  {
    hide OnReceptions, MarkReaderStarted;
  }

  lemma HookEnds(g: Gateway, s: State, c: Command, created: bool, ch: Choice)
    requires Core(g, s) && s.pc == Hooking(c, created)
    ensures
      var (cap, r) := StartCapture(s.cap, s.exec, g.reader, c.sessionKey, c.readerCode, ch.fail);
      var s' := ControlStep(g, s, ch);
      && s'.exec == s.exec && s'.cap == cap && s'.db == s.db
      && match r
         case Err(m) => s'.rt == s.rt && s'.pc == FailPc(s.exec, c, created, m)
         case Ok(_) =>
           && MarkCommandCompleted(s.rt, c).Ok? && s'.rt == MarkCommandCompleted(s.rt, c).value
           && s'.rt.state.Reading? && s'.pc == Ack(c)
  {
    hide StartCapture;
  }

  lemma FlagSeen(g: Gateway, s: State)
    requires s.cap.thread == Alive(Top) && s.cap.stop
    ensures Step(g, s, Thread(OK)) == s.(cap := s.cap.(thread := Ended))
  {
    hide ControlStep, ListenStep, IngestOr, ReceiveStep;
  }

  lemma StartParks(c: Capture, e: Executor, device: Device, key: string, reader: string, spawn: Option<string>)
    requires c.thread.Alive? ==> c.thread.phase.Top?
    ensures
      var c' := StartCapture(c, e, device, key, reader, spawn).0;
      c'.thread.Alive? ==> c'.thread.phase.Top?
  {
  }

  /** Stopping the capture succeeds: it is this session's, and its thread ends in time. */
  predicate CaptureStops(c: Capture, key: string, timeout: Option<string>) {
    !OtherCapture(c, key) && (c.thread.NoThread? || c.thread.Ended? || (c.thread.Alive? && timeout.None?))
  }

  /** The identity check in front of stopping the capture. */
  predicate OtherCapture(c: Capture, key: string) {
    key != "" && c.key.Some? && c.key != Some("") && c.key != Some(key)
  }

  lemma HookIsStop(c: Capture, device: Device, key: string, timeout: Option<string>)
    ensures
      StopHook(c, device, Some(key), Some(device.code), timeout) ==
      if OtherCapture(c, key) then StopFailed(c, "Capture-stop session identity mismatch.") else StopCapture(c, timeout)
  {
    hide StopCapture;
  }

  lemma JoinEnds(g: Gateway, s: State, t: Halt, key: string, ch: Choice)
    requires s.pc == Join(t) && HaltKey(t) == Some(key)
    ensures
      ControlStep(g, s, ch) ==
      match StopHook(s.cap, g.reader, Some(key), Some(g.reader.code), ch.fail)
      case Stopped(cap) => s.(cap := cap, pc := Send(t))
      case Joining(cap) => s.(cap := cap)
      case StopFailed(cap, m) => HaltFailed(g, s.(cap := cap), t, m)
  {
    hide StopHook, HaltFailed;
  }

  /** Without a timeout, the join waits for a thread that is alive. */
  lemma JoiningStep(g: Gateway, s: State, t: Halt)
    requires s.pc == Join(t) && s.cap.thread.Alive?
    requires HaltKey(t).Some? ==> !OtherCapture(s.cap, HaltKey(t).value)
    ensures ControlStep(g, s, OK) == s.(cap := s.cap.(stop := true))
  {
  }

  /** The loop neither connects nor disconnects, and touches no session row. */
  lemma {:induction false} LoopConnection(g: Gateway, p: Progress, key: string, passes: seq<Pass>)
    ensures
      var p' := Loop(p, g.digest, g.reader, key, passes);
      Running(p'.exec) == Running(p.exec) && p'.db.sessions == p.db.sessions
    decreases |passes|
  {
    hide OnFrames, Ingest, Incoming;
    if passes != [] {
      var frames := Poll(p.exec, g.reader, passes[0].reception).1;
      IngestKeepsSessions(p.db, g.digest, g.reader, key, if frames.Ok? then frames.value else []);
    }
    if p.error.None? && passes != [] && !passes[0].stop {
      LoopConnection(g, Once(p, g.digest, g.reader, key, passes[0]), key, passes[1..]);
    }
  }

  lemma StopParks(c: Capture, timeout: Option<string>)
    ensures
      match StopCapture(c, timeout)
      case Stopped(c') => c'.thread.NoThread?
      case StopFailed(c', _) => c'.thread == c.thread
      case Joining(c') => timeout.None?
  {
  }

  /** reader_executor.stop, up to the wait loop. */
  lemma SendEnds(g: Gateway, s: State, t: Halt, key: string, ch: Choice)
    requires s.pc == Send(t) && HaltKey(t) == Some(key) && (t.OnAbort? ==> Running(s.exec))
    ensures
      var begun := SendStop(s.exec, g.reader, key, g.reader.code, ch.link);
      var s' := StopSent(s, begun.sent).(exec := begun.exec);
      ControlStep(g, s, ch) ==
      match begun.result
      case Ok(_) => s'.(pc := AwaitingStop(t, false))
      case Err(m) => HaltFailed(g, s', t, m)
  {
    hide SendStop, HaltFailed;
  }

  /** The record after the reader has confirmed STOP. */
  function Confirmed(s: State, t: Halt): Runtime {
    if t.CleanUp? || t.Shutdown? then s.rt else Fresh(s.rt.readerCode, Idle, None, s.rt.lastRevision, None)
  }

  /** reader_executor.verify_idle, up to the wait loop. */
  lemma VerifyEnds(g: Gateway, s: State, t: Halt, ch: Choice)
    requires s.pc == Send(t) && t.OnAbort? && !Running(s.exec)
    ensures
      var s' := StopSent(s, !ch.link.Refused?);
      ControlStep(g, s, ch) ==
      match ch.link
      case Up => s'.(pc := AwaitingStop(t, true))
      case SendFailed(m) => HaltFailed(g, s', t, m)
      case Refused(m) => HaltFailed(g, s', t, m)
  {
    hide HaltFailed;
  }

  lemma StopGrows(e: Executor, device: Device, receptions: seq<Reception>)
    ensures e.pending <= ReaderExecutor.AwaitStop(e, device, receptions).0.pending
  {
    hide OnReceptions;
  }

  lemma AwaitStopEnds(g: Gateway, s: State, t: Halt, verifying: bool, ch: Choice)
    requires Core(g, s) && s.pc == AwaitingStop(t, verifying)
    ensures
      var (exec, stopped) := ReaderExecutor.AwaitStop(s.exec, g.reader, ch.receptions);
      var r := if verifying then AwaitVerify(g.reader, ch.receptions) else stopped;
      var at := if verifying then s else Buffered(s, exec);
      var s' := ControlStep(g, s, ch);
      match r
      case Ok(_) =>
        s'.pc == Drain(t) && s'.rt == Confirmed(s, t) && s'.exec == at.exec && s'.cap == s.cap && s'.db == s.db
      case Err(m) => s' == HaltFailed(g, at, t, m)
  {
    hide OnReceptions, AwaitVerify, HaltFailed;
  }

  lemma DrainEnds(g: Gateway, s: State, t: Halt, key: string, ch: Choice)
    requires s.pc == Drain(t) && HaltKey(t) == Some(key) && !t.Shutdown?
    ensures
      var (s', r) := DrainPending(g, s, key, ch.fail);
      ControlStep(g, s, ch) ==
      match r
      case Ok(_) => s'.(pc := Settle(t))
      case Err(m) => HaltFailed(g, s', t, m)
  {
    hide IngestOr, HaltFailed;
  }

  lemma BarrierEnds(g: Gateway, s: State, c: Command, ch: Choice)
    requires s.pc == Barrier(c)
    ensures
      ControlStep(g, s, ch) ==
      s.(pc := if ch.fail.None? && AllSent(s.db.events, c.sessionKey, c.readerCode) then Ack(c) else Ready)
  {
    hide AllSent;
  }

  lemma AckEnds(g: Gateway, s: State, c: Command, ch: Choice)
    requires s.pc == Ack(c)
    ensures ControlStep(g, s, ch) == s.(pc := Ready, acks := s.acks + [c])
  {
  }

  /** process_command up to its first effect. */
  lemma ReceiveEnds(g: Gateway, s: State, c: Command)
    requires Core(g, s) && s.pc.Ready? && WellFormed(c)
    ensures
      Step(g, s, Receive(c)) ==
      match PlanCommand(s.rt, c)
      case Err(_) => s
      case Ok(Duplicate) => s.(pc := if c.kind.Stop? then Barrier(c) else Ack(c))
      case Ok(Accept(after)) =>
        s.(rt := after,
           pc := match c.kind case Start => Syncing(c) case Stop => Join(OnStop(c)) case Abort => Join(OnAbort(c)))
  {
    hide PlanCommand, Settled;
    OtherReaderRefused(s.rt, c);
  }

  lemma ReadyMeans(g: Gateway, s: State)
    requires Core(g, s) && s.pc.Ready?
    ensures s.rt.state in {Idle, Reading, Degraded} && s.rt.readerCode == g.reader.code
  {
    hide CompletionOk;
  }

  lemma SendIsStopping(g: Gateway, s: State, t: Halt)
    requires Core(g, s) && s.pc == Send(t) && (t.OnStop? || t.OnAbort?)
    ensures s.rt.state.Stopping?
  {
  }

  /** The record and row after close_local_session and mark_command_completed. */
  lemma CloseEnds(g: Gateway, s: State, c: Command, ch: Choice)
    requires Core(g, s) && s.pc == Settle(OnStop(c))
    ensures MarkCommandCompleted(s.rt, c).Ok? && s.rt.state.Idle?
    ensures
      ControlStep(g, s, ch) ==
      match FinishOr(s.db.sessions, c, Closed, ch.fail)
      case Ok(sessions) =>
        s.(db := s.db.(sessions := sessions), rt := MarkCommandCompleted(s.rt, c).value, pc := Barrier(c))
      case Err(m) => Degrade(s, m)
  {
    hide FinishOr, Degrade;
  }

  lemma CancelEnds(g: Gateway, s: State, c: Command, ch: Choice)
    requires Core(g, s) && s.pc == Settle(OnAbort(c))
    ensures MarkCommandCompleted(s.rt, c).Ok? && s.rt.state.Idle?
    ensures
      var done := s.(rt := MarkCommandCompleted(s.rt, c).value, pc := Ack(c));
      ControlStep(g, s, ch) ==
      if ch.fail.Some? then Degrade(s, ch.fail.value)
      else
        match FinishOr(s.db.sessions, c, Cancelled, None)
        case Ok(sessions) => done.(db := s.db.(sessions := sessions))
        case Err(_) => done
  {
    hide FinishOr, Degrade;
  }

  const STOP_FAILED := "; emergency reader STOP also failed: "

  /** The text that a failed START reports: the failure, and what else failed. */
  function FailureText(failure: string, stopError: Option<string>, cleanUpError: Option<string>): string {
    var stopped := if stopError.Some? then failure + STOP_FAILED + stopError.value else failure;
    if cleanUpError.Some? then stopped + CLEANUP_FAILED + cleanUpError.value else stopped
  }

  /** A created row is still ACTIVE when it is to be cancelled. */
  lemma CleanUpRow(g: Gateway, s: State, c: Command, created: bool, why: string, fail: Option<string>)
    requires Core(g, s) && s.pc == Settle(CleanUp(c, created, why)) && OneActive(s.db.sessions)
    ensures created ==>
      match FinishOr(s.db.sessions, c, Cancelled, fail)
      case Ok(sessions) =>
        fail.None? && c.sessionKey in sessions
        && sessions[c.sessionKey].device == g.reader.code && sessions[c.sessionKey].status.Cancelled?
      case Err(m) => fail == Some(m)
  {
  }

  lemma CleanUpEnds(g: Gateway, s: State, c: Command, created: bool, why: string, ch: Choice)
    requires s.pc == Settle(CleanUp(c, created, why))
    ensures
      ControlStep(g, s, ch) ==
      if !created then Degrade(s, why)
      else
        match FinishOr(s.db.sessions, c, Cancelled, ch.fail)
        case Ok(sessions) => Degrade(s.(db := s.db.(sessions := sessions)), why)
        case Err(m) => Degrade(s, why + "; newly-created local session cleanup also failed: " + m)
  {
    hide FinishOr, Degrade;
  }

  /** The commands that a run has received, in order. */
  ghost function Received(trace: seq<Action>): seq<Command> {
    if trace == [] then []
    else
      var last := trace[|trace| - 1];
      Received(trace[..|trace| - 1]) + if last.Receive? then [last.c] else []
  }

  lemma ReceivedOne(trace: seq<Action>, a: Action)
    ensures Received(trace + [a]) == Received(trace) + if a.Receive? then [a.c] else []
  {
    assert (trace + [a])[..|trace|] == trace;
  }

  lemma {:induction false} ReceivedConcat(t: seq<Action>, u: seq<Action>)
    ensures Received(t + u) == Received(t) + Received(u)
  {
    if u == [] {
      assert t + u == t;
    } else {
      var u', last := u[..|u| - 1], u[|u| - 1];
      ReceivedConcat(t, u');
      assert t + u == (t + u') + [last] && u == u' + [last];
      ReceivedOne(t + u', last);
      ReceivedOne(u', last);
    }
  }

  lemma {:induction false} ThreadReceivesNothing(t: seq<Action>)
    requires forall a <- t :: a.Thread?
    ensures Received(t) == []
  {
    if t != [] {
      assert forall a <- t[..|t| - 1] :: a in t;
      assert t[|t| - 1] in t;
      ThreadReceivesNothing(t[..|t| - 1]);
    }
  }

  /** The capture thread receives no commands. */
  lemma {:induction false} LoopReceivesNothing(g: Gateway, p: Progress, key: string, passes: seq<Pass>)
    ensures Received(LoopActions(g, p, key, passes)) == []
    decreases |passes|
  {
    hide Received, Once, Poll;
    if passes == [] || p.error.Some? || passes[0].stop {
      ThreadReceivesNothing([]);
    } else {
      ThreadReceivesNothing(PassActions(g, p.exec, passes[0]));
      var next := Once(p, g.digest, g.reader, key, passes[0]);
      LoopReceivesNothing(g, next, key, passes[1..]);
      ReceivedConcat(PassActions(g, p.exec, passes[0]), LoopActions(g, next, key, passes[1..]));
    }
  }

  /** The commands that the payloads for this reader carry, in order. */
  function CommandsFor(payloads: seq<Payload>, reader: string): seq<Command> {
    if payloads == [] then []
    else
      var command := FromPayload(payloads[|payloads| - 1]);
      CommandsFor(payloads[..|payloads| - 1], reader)
      + if command.Ok? && command.value.readerCode == reader then [command.value] else []
  }

  /** What the stop sequence works on. */
  datatype Scene = Scene(exec: Executor, db: Db, cap: Capture)

  /** After the join: the thread has gone on capturing until it saw the stop flag, or failed. */
  ghost function Joined(g: Gateway, v: Scene, passes: seq<Pass>): Scene {
    if v.cap.thread.Alive? && !v.cap.stop && v.cap.key.Some? then
      var p := Loop(Progress(v.exec, v.db, v.exec.pending, [], None), g.digest, g.reader, v.cap.key.value, passes);
      v.(exec := p.exec, db := p.db)
    else v
  }

  /** The thread ends in time and the reader confirms. */
  ghost predicate Stops(g: Gateway, v: Scene, key: string, q: Request, fx: Effects) {
    CaptureStops(v.cap, key, fx.join) && fx.stopLink.Up? && Accepted(g.reader.address, q, fx.stopReply)
  }

  /** The frames pending then: what the thread has left and what was heard while waiting for the answer. */
  ghost function LastFrames(g: Gateway, v: Scene, q: Request, fx: Effects): seq<Frame> {
    Joined(g, v, fx.passes).exec.pending + TagsHeard(g.reader.address, q, fx.stopReply)
  }

  /** They can be stored: there are none, or the database works and the ingestor takes them. */
  ghost predicate Storable(g: Gateway, v: Scene, key: string, q: Request, fx: Effects) {
    || LastFrames(g, v, q, fx) == []
    || (fx.drain.None? && Ingest(Joined(g, v, fx.passes).db, g.digest, g.reader, key, LastFrames(g, v, q, fx)).Ok?)
  }

  lemma NothingHeard(address: byte, receptions: seq<Reception>)
    ensures TagsHeard(address, VERIFY_REQUEST, receptions) == []
  {
    hide FirstDecision, Heard;
    NoTagsIn(Heard(receptions, 32)[..FirstDecision(address, VERIFY_REQUEST, Heard(receptions, 32))]);
  }

  lemma {:induction false} NoTagsIn(frames: seq<Frame>)
    ensures Tags(VERIFY_REQUEST, frames) == []
  {
    if frames != [] {
      NoTagsIn(frames[1..]);
    }
  }

  lemma IngestOrIff(db: Db, digest: Digest, device: Device, key: string, frames: seq<Frame>, fail: Option<string>)
    ensures IngestOr(db, digest, device, key, frames, fail).1.Ok? <==> fail.None? && Ingest(db, digest, device, key, frames).Ok?
  {
    hide Ingest;
  }

  /** The record and the identities are such that START can only fail by its effects. */
  lemma OpeningReady(g: Gateway, s: State, c: Command, created: bool)
    requires Core(g, s) && s.pc == Opening(c, created)
    ensures c.readerCode == g.reader.code && c.sessionKey != "" && s.exec == INACTIVE
  {
  }

  lemma OpeningPlanned(g: Gateway, s: State, c: Command, created: bool)
    requires Core(g, s) && s.pc == Opening(c, created)
    ensures MarkReaderStarted(s.rt).Ok?
  {
  }

  lemma HookingReady(g: Gateway, s: State, c: Command, created: bool)
    requires Core(g, s) && s.pc == Hooking(c, created)
    ensures c.readerCode == g.reader.code && c.sessionKey != ""
    ensures s.exec.open && s.exec.key == Some(c.sessionKey) && s.cap.thread.NoThread?
  {
  }

  lemma CloseReady(g: Gateway, s: State, c: Command, fail: Option<string>)
    requires Core(g, s) && s.pc == Settle(OnStop(c))
    ensures FinishOr(s.db.sessions, c, Closed, fail).Ok? <==> fail.None?
  {
  }

  /** STOP goes to the connection that its key names. */
  lemma SendReady(g: Gateway, s: State, t: Halt, key: string)
    requires Core(g, s) && s.pc == Send(t) && HaltKey(t) == Some(key) && (t.OnAbort? ==> Running(s.exec))
    ensures s.exec.open && s.exec.key == Some(key)
  {
  }

  lemma MarkedIncomplete(rt: Runtime)
    ensures MarkReaderStarted(rt).Ok? ==> MarkReaderStarted(rt).value.completedCommand.None?
    ensures MarkReaderStopped(rt).Ok? ==> MarkReaderStopped(rt).value.completedCommand.None?
  {
  }

  lemma DeliveredIff(events: seq<Event>, c: Command)
    ensures
      AllSent(events, c.sessionKey, c.readerCode) <==>
      forall e <- events ::
        e.device == c.readerCode && e.session == Some(c.sessionKey) && "final:" <= e.key ==> e.state.Sent?
  {
  }

  class FinalRuntimeOrchestrator {
    const g: Gateway
    const executor: PersistentActiveReaderExecutor
    const capture: FinalCaptureService
    const database: Database
    var runtime: Runtime
    ghost const origin: Db
    ghost var trace: seq<Action>
    ghost var received: seq<Command>

    constructor (g: Gateway, executor: PersistentActiveReaderExecutor, capture: FinalCaptureService, database: Database)
      requires capture.executor == executor && executor.device == g.reader && StoreOk(g.digest, database.View())
      requires executor.View() == INACTIVE && capture.View() == QUIESCENT
      ensures Valid() && trace == [] && received == [] && Now() == Initial(g, database.View())
      ensures this.executor == executor && this.capture == capture && this.database == database && this.g == g
    {
      this.g, this.executor, this.capture, this.database := g, executor, capture, database;
      runtime := Unverified(g);
      origin, trace, received := database.View(), [], [];
    }

    /** The machine's state after what has happened so far. */
    ghost function Now(): State
      reads this`trace
    {
      After(g, origin, trace)
    }

    /** The objects belong together, and `received` are the commands of the trace. */
    ghost predicate Wired()
      reads this`trace, this`received
    {
      && capture.executor == executor && executor.device == g.reader && StoreOk(g.digest, origin)
      && Received(trace) == received
    }

    /** The objects hold what the state says. */
    ghost predicate Matches(s: State)
      reads this`runtime, executor, capture, database
    {
      && s.rt == runtime && s.exec == executor.View()
      && s.cap == capture.View() && s.db == database.View()
    }

    /** Between calls the capture thread is at the top of its loop. */
    predicate Parked()
      reads capture
    {
      capture.thread.Alive? ==> capture.thread.phase.Top?
    }

    ghost function View(): Scene
      reads executor, capture, database
    {
      Scene(executor.View(), database.View(), capture.View())
    }

    ghost predicate Valid()
      reads this, executor, capture, database
    {
      Wired() && Parked() && Matches(Now())
    }

    ghost method Take(a: Action)
      requires Wired() && !a.Receive?
      modifies this`trace
      ensures Wired() && trace == old(trace) + [a] && Now() == Step(g, old(Now()), a)
    {
      hide Step, Run, StoreOk;
      RunConcat(g, Initial(g, origin), trace, [a]);
      RunOne(g, Now(), a);
      ReceivedOne(trace, a);
      trace := trace + [a];
    }

    ghost method TakeCommand(c: Command)
      requires Wired()
      modifies this`trace, this`received
      ensures Wired() && trace == old(trace) + [Receive(c)] && Now() == Step(g, old(Now()), Receive(c))
      ensures received == old(received) + [c]
    {
      hide Step, Run, StoreOk;
      RunConcat(g, Initial(g, origin), trace, [Receive(c)]);
      RunOne(g, Now(), Receive(c));
      ReceivedOne(trace, Receive(c));
      trace, received := trace + [Receive(c)], received + [c];
    }

    ghost method TakeAll(actions: seq<Action>)
      requires Wired() && Received(actions) == []
      modifies this`trace
      ensures Wired() && trace == old(trace) + actions && Now() == Run(g, old(Now()), actions)
    {
      hide Step, Run, StoreOk, Received;
      RunConcat(g, Initial(g, origin), trace, actions);
      ReceivedConcat(trace, actions);
      trace := trace + actions;
    }

    ghost method Advance(ch: Choice)
      requires Wired()
      modifies this`trace
      ensures Wired() && trace == old(trace) + [Control(ch)] && Now() == ControlStep(g, old(Now()), ch)
    {
      hide ControlStep, Run, StoreOk, Received;
      Take(Control(ch));
    }

    // ------------------------------------------------------------- START's effects

    method Synchronized(c: Command, fail: Option<string>) returns (r: Result<bool>)
      requires Valid() && Now().pc == Syncing(c)
      modifies this`trace, database
      ensures Valid()
      ensures r.Ok? <==> fail.None? && Synchronize(old(database.sessions), g.devices, c).Ok?
      ensures match r
              case Ok(created) => Now().pc == Opening(c, created)
              case Err(m) => Now().pc == FailPc(executor.View(), c, false, m)
    {
      hide Run, Step, Synchronize, After, StoreOk;
      Advance(Choice(fail, Up, []));
      if fail.Some? {
        return Err(fail.value);
      }
      r := SynchronizeStartCommand(database, g.devices, c);
    }

    /** reader_executor.start */
    method ReaderOpened(c: Command, created: bool, link: Link, receptions: seq<Reception>) returns (r: Result<()>)
      requires Valid() && Now().pc == Opening(c, created)
      modifies this`trace, executor
      ensures Wired() && StartEnds(old(Now()), Now(), c, created, executor.View(), r)
      ensures r.Ok? <==> link.Up? && Accepted(g.reader.address, START_REQUEST, receptions)
    {
      hide Received, ControlStep, Run, Step, After, StoreOk, SendStart, OnReceptions, MarkReaderStarted, Accepted, TagsHeard, Core;
      var sent;
      NowCore();
      OpeningReady(g, Now(), c, created);
      ghost var begun := SendStart(executor.View(), g.reader, c.sessionKey, c.readerCode, link);
      OpenEnds(g, Now(), c, created, Choice(None, link, []));
      r, sent := executor.Start(c.sessionKey, c.readerCode, link, receptions);
      Advance(Choice(None, link, []));
      if begun.result.Ok? && begun.result.value {
        AwaitEnds(g, Now(), c, created, Choice(None, Up, receptions));
        Advance(Choice(None, Up, receptions));
      }
    }

    /** reader_executor.start and mark_reader_started. */
    method ReaderStarted(c: Command, created: bool, link: Link, receptions: seq<Reception>) returns (r: Result<()>)
      requires Incomplete() && Valid() && Now().pc == Opening(c, created)
      modifies this`trace, this`runtime, executor
      ensures Incomplete() && Valid()
      ensures r.Ok? <==>
        && link.Up? && Accepted(g.reader.address, START_REQUEST, receptions)
        && MarkReaderStarted(old(runtime)).Ok?
      ensures match r
              case Ok(_) => Now().pc == Hooking(c, created)
              case Err(m) => Now().pc == FailPc(executor.View(), c, created, m)
    {
      hide Received, ControlStep, Run, Step, After, StoreOk, MarkReaderStarted, Accepted;
      r := ReaderOpened(c, created, link, receptions);
      if r.Err? {
        return;
      }
      MarkedIncomplete(runtime);
      var started := MarkReaderStarted(runtime);
      if started.Err? {
        return Err(started.message);
      }
      runtime := started.value;
      return Ok(());
    }

    /** after_reader_start and mark_command_completed. */
    method CaptureStarted(c: Command, created: bool, spawn: Option<string>) returns (r: Result<()>)
      requires Incomplete() && Valid() && Now().pc == Hooking(c, created)
      modifies this`trace, this`runtime, capture
      ensures Valid()
      ensures r.Ok? <==> spawn.None?
      ensures match r
              case Ok(_) => Now().pc == Ack(c) && IsCompleted(runtime, c) && runtime.state.Reading?
              case Err(m) => Incomplete() && Now().pc == FailPc(executor.View(), c, created, m)
    {
      hide Received, ControlStep, Run, Step, After, StoreOk, StartCapture, Inv, Core;
      NowCore();
      HookingReady(g, Now(), c, created);
      HookEnds(g, Now(), c, created, Choice(spawn, Up, []));
      StartParks(capture.View(), executor.View(), g.reader, c.sessionKey, c.readerCode, spawn);
      r := capture.Start(c.sessionKey, c.readerCode, spawn);
      Advance(Choice(spawn, Up, []));
      if r.Ok? {
        runtime := MarkCommandCompleted(runtime, c).value;
      }
    }

    ghost method NowCore()
      requires Wired()
      ensures Core(g, Now()) && StoreOk(g.digest, Now().db)
    {
      hide Run, Step, Core, StoreOk, Custody, Marked, StoredRows, Clean, AcksFinal;
      Reachable(g, origin, trace);
    }

    // ----------------------------------------------------------- the stop sequence

    /** before_reader_stop: FinalWorkerCycle.stop_capture. */
    method CaptureStopped(ghost t: Halt, key: string, passes: seq<Pass>, timeout: Option<string>)
      returns (r: Result<()>, ghost at: State)
      requires Valid() && Now().pc == Join(t) && HaltKey(t) == Some(key)
      modifies this`trace, capture, executor, database
      ensures Wired() && Parked() && executor.IsActive() == old(executor.IsActive()) && database.sessions == old(database.sessions)
      ensures r.Ok? <==> CaptureStops(old(capture.View()), key, timeout)
      ensures r.Ok? ==> View() == Joined(g, old(View()), passes).(cap := capture.View())
      ensures r.Ok? ==> Matches(Now()) && Now().pc == Send(t)
      ensures r.Err? ==> Matches(at) && Now() == HaltFailed(g, at, t, r.message)
    {
      hide Received, ControlStep, Run, Step, After, StoreOk, HaltFailed, StopHook, StopCapture, Loop;
      at := Now();
      HookIsStop(capture.View(), g.reader, key, timeout);
      if key != "" && capture.key.Some? && capture.key != Some("") && capture.key != Some(key) {
        JoinEnds(g, Now(), t, key, Choice(timeout, Up, []));
        Advance(Choice(timeout, Up, []));
        return Err("Capture-stop session identity mismatch."), at;
      }
      if timeout.None? && capture.thread.Alive? {
        ThreadEndsLoop(t, passes);
      }
      at := Now();
      HookIsStop(capture.View(), g.reader, key, timeout);
      StopParks(capture.View(), timeout);
      JoinEnds(g, Now(), t, key, Choice(timeout, Up, []));
      r := capture.Stop(timeout);
      Advance(Choice(timeout, Up, []));
      at := at.(cap := capture.View());
    }

    /** The thread goes on capturing until it sees the stop flag or fails. */
    method ThreadEndsLoop(ghost t: Halt, passes: seq<Pass>)
      requires Valid() && Now().pc == Join(t) && capture.thread.Alive?
      requires HaltKey(t).Some? ==> !OtherCapture(capture.View(), HaltKey(t).value)
      modifies this`trace, capture, executor, database
      ensures Valid() && Now().pc == Join(t) && capture.thread.Ended? && capture.key == old(capture.key)
      ensures View() == Joined(g, old(View()), passes).(cap := capture.View())
      ensures executor.IsActive() == old(executor.IsActive()) && database.sessions == old(database.sessions)
    {
      hide Received, ControlStep, Run, Step, After, Inv, UniqueKeys, KeyedRows, OneActive, Loop, LoopActions, AtPc;
      NowCore();
      var name := capture.key.value;
      var todo := if capture.stopSet then [] else passes;
      ghost var p := Progress(executor.View(), database.View(), executor.pending, [], None);
      if !capture.stopSet {
        LoopRefines(g, Now(), name, p, passes, Now().handed);
        LoopReceivesNothing(g, p, name, passes);
        TakeAll(LoopActions(g, p, name, passes));
      } else {
        LoopNothing(g, p, name);
      }
      LoopConnection(g, p, name, todo);
      var calls, captured := capture.Run(database, g.digest, name, todo);
      if Now().cap.thread.Alive? {
        JoiningStep(g, Now(), t);
        Advance(OK);
        FlagSeen(g, Now());
        Take(Thread(OK));
      }
    }

    /** reader_executor.stop */
    method ReaderStopped(ghost t: Halt, key: string, link: Link, receptions: seq<Reception>)
      returns (r: Result<()>, ghost at: State)
      requires Valid() && Now().pc == Send(t) && HaltKey(t) == Some(key) && (t.OnAbort? ==> executor.IsActive())
      modifies this`trace, executor
      ensures Wired() && Parked()
      ensures r.Ok? <==> link.Up? && Accepted(g.reader.address, STOP_REQUEST, receptions)
      ensures r.Ok? ==> executor.pending == old(executor.pending) + TagsHeard(g.reader.address, STOP_REQUEST, receptions)
      ensures r.Ok? ==> Now().pc == Drain(t) && Matches(Now().(rt := runtime)) && Now().rt == Confirmed(old(Now()), t)
      ensures r.Err? ==> Matches(at) && Now() == HaltFailed(g, at, t, r.message)
    {
      hide Received, ControlStep, Run, Step, After, StoreOk, HaltFailed, SendStop, AwaitStop, AwaitVerify, Core, Accepted, TagsHeard;
      var sent;
      NowCore();
      SendReady(g, Now(), t, key);
      ghost var begun := SendStop(executor.View(), g.reader, key, g.reader.code, link);
      SendEnds(g, Now(), t, key, Choice(None, link, []));
      r, sent := executor.Stop(key, g.reader.code, link, receptions);
      ghost var before := Now();
      Advance(Choice(None, link, []));
      at := StopSent(before, begun.sent).(exec := begun.exec);
      if begun.result.Ok? {
        NowCore();
        AwaitStopEnds(g, Now(), t, false, Choice(None, Up, receptions));
        StopGrows(Now().exec, g.reader, receptions);
        at := Buffered(Now(), ReaderExecutor.AwaitStop(Now().exec, g.reader, receptions).0);
        Advance(Choice(None, Up, receptions));
      }
    }

    /** reader_executor.verify_idle, in ABORT. */
    method ReaderVerified(ghost t: Halt, link: Link, receptions: seq<Reception>)
      returns (r: Result<()>, ghost at: State)
      requires Valid() && Now().pc == Send(t) && t.OnAbort? && !executor.IsActive()
      modifies this`trace
      ensures Wired() && Parked()
      ensures r.Ok? <==> link.Up? && Accepted(g.reader.address, VERIFY_REQUEST, receptions)
      ensures r.Ok? ==> Now().pc == Drain(t) && Matches(Now().(rt := runtime)) && Now().rt == Confirmed(old(Now()), t)
      ensures r.Err? ==> Matches(at) && Now() == HaltFailed(g, at, t, r.message)
    {
      hide Received, ControlStep, Run, Step, After, StoreOk, HaltFailed, SendStop, AwaitStop, AwaitVerify, AtPc, Accepted;
      var sent;
      VerifyEnds(g, Now(), t, Choice(None, link, []));
      r, sent := executor.VerifyIdle(link, receptions);
      at := StopSent(Now(), sent);
      Advance(Choice(None, link, []));
      if link.Up? {
        NowCore();
        AwaitStopEnds(g, Now(), t, true, Choice(None, Up, receptions));
        at := Now();
        Advance(Choice(None, Up, receptions));
      }
    }

    /** before_session_close: FinalWorkerCycle.drain_pending_tags. */
    method TagsDrained(ghost t: Halt, key: string, fail: Option<string>) returns (r: Result<()>, ghost at: State)
      requires Valid() && Now().pc == Drain(t) && HaltKey(t) == Some(key) && !t.Shutdown?
      modifies this`trace, executor, database
      ensures Wired() && Parked() && database.sessions == old(database.sessions)
      ensures r.Ok? <==>
        || old(executor.pending) == []
        || (fail.None? && Ingest(old(database.View()), g.digest, g.reader, key, old(executor.pending)).Ok?)
      ensures r.Ok? ==> Matches(Now()) && Now().pc == Settle(t)
      ensures r.Err? ==> Matches(at) && Now() == HaltFailed(g, at, t, r.message)
    {
      hide Received, ControlStep, Run, Step, After, UniqueKeys, KeyedRows, OneActive, HaltFailed, IngestOr, AtPc, Ingest;
      NowCore();
      IngestOrIff(database.View(), g.digest, g.reader, key, executor.pending, fail);
      DrainEnds(g, Now(), t, key, Choice(fail, Up, []));
      at := DrainPending(g, Now(), key, fail).0;
      Advance(Choice(fail, Up, []));
      var frames := executor.TakePendingTagFrames();
      if frames == [] {
        return Ok(()), at;
      }
      r := capture.Hand(database, g.digest, key, frames, fail);
    }

    /** close_local_session and cancel_local_session. */
    method RowFinished(c: Command, target: Status, fail: Option<string>) returns (r: Result<()>)
      requires target in {Closed, Cancelled}
      modifies database
      ensures
        match FinishOr(old(database.sessions), c, target, fail)
        case Ok(sessions) => r == Ok(()) && database.View() == old(database.View()).(sessions := sessions)
        case Err(m) => r == Err(m) && database.View() == old(database.View())
    {
      hide Finish;
      if fail.Some? {
        return Err(fail.value);
      }
      if target.Closed? {
        r := CloseLocalSession(database, c.sessionKey, c.readerCode);
      } else {
        r := CancelLocalSession(database, c.sessionKey, c.readerCode);
      }
    }

    /** mark_degraded with the failure's text; Err: that raised, and process_command with it. */
    method MarkedDegraded(why: string, ghost at: State) returns (r: Result<bool>)
      requires Incomplete() && Wired() && Parked() && Matches(at) && Now() == Degrade(at, why)
      modifies this`runtime
      ensures Valid() && Incomplete()
      ensures if r.Ok? then r == Ok(false) && Now().pc.Ready? && runtime.state.Degraded? && runtime.error == Some(Strip(why))
              else Now().pc.Join? && Now().pc.t.Shutdown?
    {
      hide Run, Step, After, StoreOk, Strip;
      var degraded := MarkDegraded(runtime, why);
      if degraded.Err? {
        return Err(degraded.message);
      }
      runtime := degraded.value;
      return Ok(false);
    }

    // --------------------------------------------------------------- the handlers

    /** Every effect of START comes out well, and the row can be had. */
    ghost predicate StartGoesThrough(sessions: map<string, Session>, c: Command, fx: Effects) {
      && fx.sync.None? && Synchronize(sessions, g.devices, c).Ok?
      && fx.startLink.Up? && Accepted(g.reader.address, START_REQUEST, fx.startReply) && fx.spawn.None?
    }

    /** ABORT without a connection asks for a verification. */
    predicate AsksVerification(aborting: bool)
      reads executor
    {
      aborting && !executor.IsActive()
    }

    /** The request that stops the reader. */
    function StopRequest(aborting: bool): Request
      reads executor
    {
      if AsksVerification(aborting) then VERIFY_REQUEST else STOP_REQUEST
    }

    /** Executing the command from here on comes to its end without an error. */
    ghost predicate Completes(c: Command, fx: Effects)
      reads executor, capture, database
    {
      if c.kind.Start? then StartGoesThrough(database.sessions, c, fx)
      else
        var q := StopRequest(c.kind.Abort?);
        Stops(g, View(), c.sessionKey, q, fx) && Storable(g, View(), c.sessionKey, q, fx) && fx.settle.None?
    }

    /** The record remembers no completed command. */
    predicate Incomplete()
      reads this`runtime
    {
      runtime.completedCommand.None?
    }

    /** The try branch of _execute_start: how far it gets, and with which error. */
    method StartEffects(c: Command, fx: Effects) returns (failure: Option<string>, created: bool)
      requires Incomplete() && Valid() && Now().pc == Syncing(c) && c.kind.Start?
      modifies this`trace, this`runtime, executor, capture, database
      ensures Valid()
      ensures failure.None? <==> StartGoesThrough(old(database.sessions), c, fx)
      ensures match failure
              case None => Now().pc == Ack(c) && IsCompleted(runtime, c) && runtime.state.Reading?
              case Some(m) => Incomplete() && Now().pc == FailPc(executor.View(), c, created, m)
    {
      hide Received, ControlStep, Run, Step, After, StoreOk, FailPc, IsCompleted, MarkReaderStarted, Accepted, Synchronize, Core;
      created := false;
      var synchronized := Synchronized(c, fx.sync);
      if synchronized.Err? {
        return Some(synchronized.message), created;
      }
      created := synchronized.value;
      NowCore();
      OpeningPlanned(g, Now(), c, created);
      var started := ReaderStarted(c, created, fx.startLink, fx.startReply);
      if started.Err? {
        return Some(started.message), created;
      }
      var capturing := CaptureStarted(c, created, fx.spawn);
      if capturing.Err? {
        return Some(capturing.message), created;
      }
      return None, created;
    }

    /**
      _execute_start, after `self.runtime = planned_runtime`. Ok(success), or the
      error that escapes because the failure's text is blank.
     */
    method ExecuteStart(c: Command, fx: Effects) returns (r: Result<bool>)
      requires Incomplete() && Valid() && Now().pc == Syncing(c) && WellFormed(c) && c.kind.Start?
      modifies this`trace, this`runtime, executor, capture, database
      ensures Valid() && Handled(c, r) && Executed(c, r) && Succeeds(c, fx, r)
      ensures IsCompleted(runtime, c) <==> old(Completes(c, fx))
    {
      hide Received, ControlStep, Run, Step, After, StoreOk, AtPc, RowHas, FailureText, FailPc, StartGoesThrough;
      var failure, created := StartEffects(c, fx);
      if failure.Some? {
        ghost var stopError;
        r, stopError := StartCleanedUp(c, created, failure.value, fx);
        return;
      }
      var sent := SendCompletedSuccessAck(c, fx);
      return Ok(sent.Ok?);
    }

    /**
      The except branch of _execute_start: an emergency stop only with an active
      connection, cancellation only of a row that this START created, and the
      composed failure text in the degraded record.
     */
    method StartCleanedUp(c: Command, created: bool, failure: string, fx: Effects)
      returns (r: Result<bool>, ghost stopError: Option<string>)
      requires Incomplete() && Valid() && Now().pc == FailPc(executor.View(), c, created, failure)
      modifies this`trace, this`runtime, executor, capture, database
      ensures Valid() && Incomplete() && r != Ok(true) && Handled(c, r) && Executed(c, r)
      ensures !old(executor.IsActive()) ==> stopError.None? && executor.View() == old(executor.View())
      ensures old(executor.IsActive()) ==>
        (stopError.None? <==>
         Stops(g, old(View()), c.sessionKey, STOP_REQUEST, fx) && Storable(g, old(View()), c.sessionKey, STOP_REQUEST, fx))
      ensures created && fx.settle.None? ==> RowHas(c.sessionKey, Cancelled)
      ensures !created || fx.settle.Some? ==> database.sessions == old(database.sessions)
      ensures r.Ok? ==> runtime.error == Some(Strip(FailureText(failure, stopError, if created then fx.settle else None)))
    {
      hide Received, ControlStep, Run, Step, After, StoreOk, AtPc, Strip, Stops, Storable;
      var why := failure;
      stopError := None;
      var active := executor.IsActive();
      if active {
        var stopped := EmergencyStop(c, created, failure, fx);
        if stopped.Err? {
          stopError := Some(stopped.message);
          why := why + STOP_FAILED + stopped.message;
        }
      }
      r := CleanedUp(c, created, why, fx);
    }

    /** Cancelling a row that START created, and degrading. */
    method CleanedUp(c: Command, created: bool, failure: string, fx: Effects) returns (r: Result<bool>)
      requires Incomplete() && Valid() && Now().pc == Settle(CleanUp(c, created, failure))
      modifies this`trace, this`runtime, database
      ensures Valid() && Incomplete() && r != Ok(true) && Handled(c, r) && Executed(c, r)
      ensures created && fx.settle.None? ==> RowHas(c.sessionKey, Cancelled)
      ensures !created || fx.settle.Some? ==> database.sessions == old(database.sessions)
      ensures r.Ok? ==> runtime.error == Some(Strip(FailureText(failure, None, if created then fx.settle else None)))
    {
      hide Received, ControlStep, Run, Step, After, UniqueKeys, KeyedRows, OneActive, FinishOr, Degrade, Strip, Core;
      var why := failure;
      ghost var at := Now();
      NowCore();
      CleanUpRow(g, Now(), c, created, why, fx.settle);
      CleanUpEnds(g, Now(), c, created, why, Choice(fx.settle, Up, []));
      Advance(Choice(fx.settle, Up, []));
      if created {
        var cancelled := RowFinished(c, Cancelled, fx.settle);
        at := at.(db := database.View());
        if cancelled.Err? {
          why := why + CLEANUP_FAILED + cancelled.message;
        }
      }
      r := MarkedDegraded(why, at);
    }

    /** This reader's row of the session, in this status. */
    predicate RowHas(key: string, status: Status)
      reads database
    {
      && key in database.sessions
      && database.sessions[key].device == g.reader.code && database.sessions[key].status == status
    }

    /** Stopping the reader after a failed START that left it running. */
    method EmergencyStop(c: Command, ghost created: bool, ghost failure: string, fx: Effects) returns (r: Result<()>)
      requires Valid() && Now().pc == Join(CleanUp(c, created, failure))
      modifies this`trace, executor, capture, database
      ensures Valid() && database.sessions == old(database.sessions)
      ensures r.Ok? <==>
        Stops(g, old(View()), c.sessionKey, STOP_REQUEST, fx) && Storable(g, old(View()), c.sessionKey, STOP_REQUEST, fx)
      ensures Now().pc == Settle(CleanUp(c, created,
                if r.Ok? then failure else failure + STOP_FAILED + r.message))
    {
      hide Received, ControlStep, Run, Step, After, StoreOk, AtPc, CaptureStops, Accepted, TagsHeard, Joined, Ingest;
      ghost var t := CleanUp(c, created, failure);
      ghost var at;
      r, at := CaptureStopped(t, c.sessionKey, fx.passes, fx.join);
      if r.Err? {
        return;
      }
      r, at := ReaderStopped(t, c.sessionKey, fx.stopLink, fx.stopReply);
      if r.Err? {
        return;
      }
      r, at := TagsDrained(t, c.sessionKey, fx.drain);
    }

    /** What STOP and ABORT begin with: stop capturing, then stop the reader, or verify it in ABORT without a connection. */
    method ReaderHalted(ghost t: Halt, key: string, aborting: bool, fx: Effects) returns (r: Result<()>, ghost at: State)
      requires Valid() && Now().pc == Join(t) && HaltKey(t) == Some(key)
      requires if aborting then t.OnAbort? else t.OnStop?
      modifies this`trace, executor, capture, database
      ensures Wired() && Parked()
      ensures database.sessions == old(database.sessions)
      ensures r.Ok? <==>
        Stops(g, old(View()), key, old(StopRequest(aborting)), fx)
      ensures r.Ok? ==>
        && database.View() == Joined(g, old(View()), fx.passes).db
        && executor.pending == LastFrames(g, old(View()), old(StopRequest(aborting)), fx)
      ensures r.Ok? ==>
        && Now().pc == Drain(t) && Matches(Now().(rt := runtime))
        && MarkReaderStopped(runtime).Ok? && Now().rt == MarkReaderStopped(runtime).value
      ensures r.Err? ==> Matches(at) && Now() == HaltFailed(g, at, t, r.message)
    {
      hide Received, ControlStep, Run, Step, After, StoreOk, HaltFailed, Core, CaptureStops, Accepted, TagsHeard, Joined;
      r, at := CaptureStopped(t, key, fx.passes, fx.join);
      if r.Err? {
        return;
      }
      NowCore();
      SendIsStopping(g, Now(), t);
      var active := executor.IsActive();
      if aborting && !active {
        NothingHeard(g.reader.address, fx.stopReply);
        assert executor.pending + [] == executor.pending;
        r, at := ReaderVerified(t, fx.stopLink, fx.stopReply);
      } else {
        r, at := ReaderStopped(t, key, fx.stopLink, fx.stopReply);
      }
    }

    /** And what follows: mark the reader stopped, drain. */
    method StoppedAndDrained(ghost t: Halt, key: string, aborting: bool, fx: Effects) returns (r: Result<()>, ghost at: State)
      requires Incomplete() && Valid() && Now().pc == Join(t) && HaltKey(t) == Some(key)
      requires if aborting then t.OnAbort? else t.OnStop?
      modifies this`trace, this`runtime, executor, capture, database
      ensures Incomplete() && Wired() && Parked()
      ensures database.sessions == old(database.sessions)
      ensures
        var q := old(StopRequest(aborting));
        r.Ok? <==> Stops(g, old(View()), key, q, fx) && Storable(g, old(View()), key, q, fx)
      ensures r.Ok? ==> Matches(Now()) && Now().pc == Settle(t)
      ensures r.Err? ==> Matches(at) && Now() == HaltFailed(g, at, t, r.message)
    {
      hide Received, ControlStep, Run, Step, After, StoreOk, HaltFailed, Core, MarkReaderStopped, Stops, LastFrames, Joined, Ingest;
      r, at := ReaderHalted(t, key, aborting, fx);
      if r.Err? {
        return;
      }
      MarkedIncomplete(runtime);
      runtime := MarkReaderStopped(runtime).value;
      r, at := TagsDrained(t, key, fx.drain);
    }

    /** _execute_stop, after `self.runtime = planned_runtime`. */
    method ExecuteStop(c: Command, fx: Effects) returns (r: Result<bool>)
      requires Incomplete() && Valid() && Now().pc == Join(OnStop(c)) && WellFormed(c) && c.kind.Stop?
      modifies this`trace, this`runtime, executor, capture, database
      ensures Valid() && Handled(c, r) && Executed(c, r) && Succeeds(c, fx, r)
      ensures IsCompleted(runtime, c) <==> old(Completes(c, fx))
    {
      hide Received, ControlStep, Run, Step, After, StoreOk, FinishOr, Degrade, AtPc, Stops, Storable;
      var stopped;
      ghost var at;
      stopped, at := StoppedAndDrained(OnStop(c), c.sessionKey, false, fx);
      if stopped.Err? {
        r := MarkedDegraded(stopped.message, at);
        return;
      }
      r := SessionClosed(c, fx);
    }

    /** STOP's last effects: close_local_session, mark_command_completed, the ACK. */
    method SessionClosed(c: Command, fx: Effects) returns (r: Result<bool>)
      requires Incomplete() && Valid() && Now().pc == Settle(OnStop(c)) && WellFormed(c) && c.kind.Stop?
      modifies this`trace, this`runtime, database
      ensures Valid() && Handled(c, r) && Executed(c, r) && Succeeds(c, fx, r)
      ensures IsCompleted(runtime, c) <==> fx.settle.None?
    {
      hide Received, ControlStep, Run, Step, After, StoreOk, FinishOr, Degrade, Core;
      ghost var at;
      NowCore();
      CloseReady(g, Now(), c, fx.settle);
      CloseEnds(g, Now(), c, Choice(fx.settle, Up, []));
      at := Now();
      Advance(Choice(fx.settle, Up, []));
      var closed := RowFinished(c, Closed, fx.settle);
      if closed.Err? {
        r := MarkedDegraded(closed.message, at);
        return;
      }
      runtime := MarkCommandCompleted(runtime, c).value;
      var sent := SendCompletedSuccessAck(c, fx);
      return Ok(sent.Ok?);
    }

    /** _execute_abort, after `self.runtime = planned_runtime`. */
    method ExecuteAbort(c: Command, fx: Effects) returns (r: Result<bool>)
      requires Incomplete() && Valid() && Now().pc == Join(OnAbort(c)) && WellFormed(c) && c.kind.Abort?
      modifies this`trace, this`runtime, executor, capture, database
      ensures Valid() && Handled(c, r) && Executed(c, r) && Succeeds(c, fx, r)
      ensures IsCompleted(runtime, c) <==> old(Completes(c, fx))
    {
      hide Received, ControlStep, Run, Step, After, StoreOk, FinishOr, Degrade, AtPc, Stops, Storable;
      var stopped;
      ghost var at;
      stopped, at := StoppedAndDrained(OnAbort(c), c.sessionKey, true, fx);
      if stopped.Err? {
        r := MarkedDegraded(stopped.message, at);
        return;
      }
      r := SessionCancelled(c, fx);
    }

    /** ABORT's last effects: cancel_local_session, mark_command_completed, the ACK. */
    method SessionCancelled(c: Command, fx: Effects) returns (r: Result<bool>)
      requires Incomplete() && Valid() && Now().pc == Settle(OnAbort(c)) && WellFormed(c) && c.kind.Abort?
      modifies this`trace, this`runtime, database
      ensures Valid() && Handled(c, r) && Executed(c, r) && Succeeds(c, fx, r)
      ensures IsCompleted(runtime, c) <==> fx.settle.None?
    {
      hide Received, ControlStep, Run, Step, After, StoreOk, FinishOr, Degrade, Core;
      ghost var at;
      NowCore();
      CancelEnds(g, Now(), c, Choice(fx.settle, Up, []));
      at := Now();
      Advance(Choice(fx.settle, Up, []));
      if fx.settle.Some? {
        r := MarkedDegraded(fx.settle.value, at);
        return;
      }
      var cancelled := RowFinished(c, Cancelled, None);   // a FinalSessionError is passed over
      runtime := MarkCommandCompleted(runtime, c).value;
      var sent := SendCompletedSuccessAck(c, fx);
      return Ok(sent.Ok?);
    }

    /** The handler for an accepted command. */
    method Execute(c: Command, fx: Effects) returns (r: Result<bool>)
      requires Incomplete() && Valid() && WellFormed(c)
      requires Now().pc == match c.kind case Start => Syncing(c) case Stop => Join(OnStop(c)) case Abort => Join(OnAbort(c))
      modifies this`trace, this`runtime, executor, capture, database
      ensures Valid() && Handled(c, r) && Executed(c, r) && Succeeds(c, fx, r)
      ensures IsCompleted(runtime, c) <==> old(Completes(c, fx))
    {
      hide Received, ControlStep, Run, Step, After, StoreOk, AtPc, IsCompleted, Completes;
      match c.kind {
        case Start => r := ExecuteStart(c, fx);
        case Stop => r := ExecuteStop(c, fx);
        case Abort => r := ExecuteAbort(c, fx);
      }
    }

    /** What a handler's result means. */
    ghost predicate Handled(c: Command, r: Result<bool>)
      reads this`trace
    {
      var s := Now();
      && (r.Ok? ==> s.pc.Ready?)
      && (r.Err? ==> s.pc.Join? && s.pc.t.Shutdown?)
      && (r.Ok? && r.value ==> c in s.acks)
    }

    /**
      What executing an accepted command leaves: the degraded record, or the
      command remembered as completed in the state it asks for, even if its ACK
      is still outstanding.
     */
    predicate Executed(c: Command, r: Result<bool>)
      reads this`runtime
    {
      r.Ok? ==>
        || (runtime.state.Degraded? && !r.value)
        || (IsCompleted(runtime, c) && runtime.state == if c.kind.Start? then Reading else Idle)
    }

    /** It succeeds exactly if it is remembered as completed and its ACK went out. */
    ghost predicate Succeeds(c: Command, fx: Effects, r: Result<bool>)
      reads this`runtime, database
    {
      r.Ok? && r.value <==> IsCompleted(runtime, c) && Acknowledged(c, fx)
    }

    /** Odoo takes the success ACK, and a STOP's ACK may be sent. */
    ghost predicate Acknowledged(c: Command, fx: Effects)
      reads database
    {
      fx.accepted && (c.kind.Stop? ==> fx.barrier.None? && Delivered(c))
    }

    /** Every final event of the command's session on its reader has reached Odoo. */
    ghost predicate Delivered(c: Command)
      reads database
    {
      forall e <- database.events ::
        e.device == c.readerCode && e.session == Some(c.sessionKey) && "final:" <= e.key ==> e.state.Sent?
    }

    /** _send_completed_success_ack; a STOP's ACK waits behind the delivery barrier. */
    method SendCompletedSuccessAck(c: Command, fx: Effects) returns (r: Result<()>)
      requires Valid() && WellFormed(c) && Now().pc == if c.kind.Stop? then Barrier(c) else Ack(c)
      modifies this`trace
      ensures Valid() && Now().pc.Ready?
      ensures r.Ok? ==> c in Now().acks
      ensures r.Ok? <==> Acknowledged(c, fx)
    {
      hide Received, ControlStep, Run, Step, After, StoreOk, AllSent;
      assert Delivered(c) <==> AllSent(database.events, c.sessionKey, c.readerCode) by { DeliveredIff(database.events, c); }
      if c.kind.Stop? {
        BarrierEnds(g, Now(), c, Choice(fx.barrier, Up, []));
        Advance(Choice(fx.barrier, Up, []));
        if fx.barrier.Some? {
          return Err(fx.barrier.value);
        }
        var inspection :- RequireDeliveryComplete(database.events, c.sessionKey, c.readerCode);
      }
      AckEnds(g, Now(), c, OK);
      Advance(OK);
      if !fx.accepted {
        return Err("Odoo did not accept completed command ACK.");
      }
      return Ok(());
    }

    ghost method NowFinal(c: Command)
      requires Wired() && c in Now().acks && c.kind.Stop?
      ensures Final(Now().db, c.sessionKey, g.reader.code)
    {
      hide Run, Step, Core, StoreOk, Custody, Marked, StoredRows, Clean, Final;
      Reachable(g, origin, trace);
    }

    /** Nothing but the trace has changed. */
    twostate predicate Untouched()
      reads this, executor, capture, database
    {
      && runtime == old(runtime) && executor.View() == old(executor.View())
      && capture.View() == old(capture.View()) && database.View() == old(database.View())
    }

    /**
      process_command. A refused command and a redelivered one touch nothing; a
      successful STOP is final; no command leaves STARTING or STOPPING behind.
     */
    method ProcessCommand(c: Command, fx: Effects) returns (r: Result<bool>)
      requires Valid() && Now().pc.Ready? && WellFormed(c)
      modifies this`trace, this`received, this`runtime, executor, capture, database
      ensures Valid() && Handled(c, r) && received == old(received) + [c]
      ensures PlanCommand(old(runtime), c).Err? ==> r == Ok(false) && Untouched()
      ensures PlanCommand(old(runtime), c) == Ok(Duplicate) ==>
        r.Ok? && (r.value <==> Acknowledged(c, fx)) && Untouched()
      ensures PlanCommand(old(runtime), c).Ok? && PlanCommand(old(runtime), c).value.Accept? ==>
        Executed(c, r) && Succeeds(c, fx, r) && (IsCompleted(runtime, c) <==> old(Completes(c, fx)))
      ensures r.Ok? ==> runtime.state in {Idle, Reading, Degraded} && runtime.readerCode == old(runtime.readerCode)
      ensures r.Ok? && r.value && c.kind.Stop? ==> Final(database.View(), c.sessionKey, g.reader.code)
    {
      hide Received, ControlStep, Run, Step, After, StoreOk, PlanCommand, Final, AtPc, Completes, Succeeds, Executed, Acknowledged, IsCompleted;
      NowCore();
      ReadyMeans(g, Now());
      ReceiveEnds(g, Now(), c);
      AcceptedIff(runtime, c);
      var plan := PlanCommand(runtime, c);
      TakeCommand(c);
      if plan.Err? {
        return Ok(false);
      }
      match plan.value {
        case Duplicate =>
          var resent := SendCompletedSuccessAck(c, fx);
          r := Ok(resent.Ok?);
        case Accept(after) =>
          runtime := after;
          r := Execute(c, fx);
      }
      NowCore();
      if r.Ok? {
        ReadyMeans(g, Now());
        if r.value && c.kind.Stop? {
          NowFinal(c);
        }
      }
    }

    /**
      poll_commands: the commands of the first `taken` payloads that are for this
      reader are processed, in order, and the others are skipped. Polling ends early
      at a payload that is malformed, or with an exception out of a handler.
     */
    method PollCommands(payloads: seq<Payload>, fx: seq<Effects>) returns (r: Result<seq<bool>>, ghost taken: nat)
      requires Valid() && Now().pc.Ready? && |fx| == |payloads|
      modifies this`trace, this`received, this`runtime, executor, capture, database
      ensures Valid()
      ensures taken <= |payloads| && forall i :: 0 <= i < taken ==> FromPayload(payloads[i]).Ok?
      ensures received == old(received) + CommandsFor(payloads[..taken], g.reader.code)
      ensures r.Ok? ==>
        && Now().pc.Ready? && runtime.state in {Idle, Reading, Degraded}
        && taken == |payloads| && |r.value| == |CommandsFor(payloads, g.reader.code)|
      ensures r.Err? ==>
        || (Now().pc.Join? && Now().pc.t.Shutdown?)
        || (Now().pc.Ready? && taken < |payloads| && FromPayload(payloads[taken]).Err?)
    {
      hide Received, ControlStep, Run, Step, After, StoreOk, PlanCommand, Final, AtPc, FromPayload, Completes, Succeeds, Executed, Acknowledged, IsCompleted;
      var results: seq<bool> := [];
      NowCore();
      ReadyMeans(g, Now());
      taken := 0;
      var k := 0;
      while k < |payloads|
        invariant 0 <= k <= |payloads| && taken == k
        invariant Valid() && Now().pc.Ready?
        invariant runtime.state in {Idle, Reading, Degraded} && runtime.readerCode == g.reader.code
        invariant received == old(received) + CommandsFor(payloads[..k], g.reader.code)
        invariant |results| == |CommandsFor(payloads[..k], g.reader.code)|
        invariant forall i :: 0 <= i < k ==> FromPayload(payloads[i]).Ok?
      {
        assert payloads[..k + 1][..k] == payloads[..k];
        var command := FromPayload(payloads[k]);
        if command.Err? {
          return Err(command.message), taken;
        }
        taken := taken + 1;
        if command.value.readerCode == runtime.readerCode {
          var processed := ProcessCommand(command.value, fx[k]);
          if processed.Err? {
            return Err(processed.message), taken;
          }
          results := results + [processed.value];
        }
        k := k + 1;
      }
      assert payloads[..k] == payloads;
      return Ok(results), taken;
    }
  }

  lemma LoopNothing(g: Gateway, p: Progress, key: string)
    ensures Loop(p, g.digest, g.reader, key, []) == p
  {
  }
}
