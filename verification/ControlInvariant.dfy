/**
  What every reachable state of the worker satisfies: the runtime record, the
  executor, the capture thread, the session row and the reader agree.
 */
module ControlInvariant {
  import opened Wrappers
  import opened Crc
  import opened ReaderProtocol
  import opened Store
  import opened RuntimeState
  import opened SessionService
  import opened DeliveryBarrier
  import opened TagIngestion
  import opened ReaderExecutor
  import opened CaptureService
  import opened IngestionUnion
  import opened StoreEvolution
  import opened DeliveryService
  import opened QueuePolicy
  import opened ControlMachine

  // ------------------------------------------------------------ the predicates

  predicate Alone(s: State) {
    s.cap.thread.NoThread?
  }

  predicate Unconnected(s: State) {
    !s.exec.open && s.exec.key.None?
  }

  /** No connection, no thread, nothing buffered. */
  predicate Empty(s: State) {
    Alone(s) && s.exec == INACTIVE
  }

  /** Inventory is running for this session. */
  predicate Live(s: State, key: string) {
    s.exec.open && s.exec.key == Some(key)
  }

  /** A TCP session is held exactly while a session key is. */
  predicate Tidy(s: State) {
    s.exec.open <==> s.exec.key.Some?
  }

  /** Whatever thread, connection or frames there are, they belong to this session. */
  predicate Bound(s: State, key: string) {
    (Alone(s) && s.exec.key.None? && s.exec.pending == []) || s.owner == key
  }

  /** Thread and connection carry the key of the START that opened the connection. */
  predicate Owned(s: State) {
    && (Alone(s) || s.cap.key == Some(s.owner))
    && (s.exec.key.Some? ==> s.exec.open && s.exec.key == Some(s.owner))
  }

  /** An active executor's key is the runtime's key. */
  predicate Agree(s: State) {
    s.exec.key.Some? ==> s.rt.sessionKey == s.exec.key
  }

  predicate RowIs(g: Gateway, s: State, key: string, status: Status) {
    && key in s.db.sessions
    && s.db.sessions[key].device == g.reader.code
    && s.db.sessions[key].status == status
  }

  predicate CommandOk(g: Gateway, c: Command, kind: Kind) {
    WellFormed(c) && c.kind == kind && c.readerCode == g.reader.code
  }

  /** The record as the command planned it. */
  predicate Planned(g: Gateway, s: State, c: Command, state: RunState) {
    && s.rt.state == state
    && s.rt.readerCode == g.reader.code
    && s.rt.sessionKey == Some(c.sessionKey)
    && s.rt.lastRevision == c.revision
  }

  /** The record once mark_reader_stopped has cleared it. */
  predicate Cleared(g: Gateway, s: State, c: Command) {
    && s.rt.state.Idle?
    && s.rt.readerCode == g.reader.code
    && s.rt.sessionKey.None?
    && s.rt.lastRevision == c.revision
  }

  /** What holds while the reader is being stopped. */
  predicate HaltBefore(g: Gateway, s: State, t: Halt) {
    match t
    case CleanUp(c, created, _) =>
      && CommandOk(g, c, Start) && (Planned(g, s, c, Starting) || Planned(g, s, c, Reading))
      && Bound(s, c.sessionKey) && Tidy(s)
      && (created ==> RowIs(g, s, c.sessionKey, Status.Active))
    case OnStop(c) =>
      && CommandOk(g, c, Stop) && Planned(g, s, c, Stopping)
      && Bound(s, c.sessionKey) && Live(s, c.sessionKey) && RowIs(g, s, c.sessionKey, Status.Active)
    case OnAbort(c) =>
      && CommandOk(g, c, Abort) && Planned(g, s, c, Stopping)
      && Bound(s, c.sessionKey) && Tidy(s)
    case Shutdown(k) =>
      if k.Some? then Bound(s, k.value) && Live(s, k.value) else s.exec.key.None?
  }

  /** What holds once the reader has confirmed STOP. */
  predicate HaltAfter(g: Gateway, s: State, t: Halt) {
    && Alone(s) && Unconnected(s) && s.quiet
    && match t
       case CleanUp(c, _, _) => HaltBefore(g, s, t)
       case OnStop(c) =>
         && CommandOk(g, c, Stop) && Cleared(g, s, c)
         && Bound(s, c.sessionKey) && RowIs(g, s, c.sessionKey, Status.Active)
       case OnAbort(c) => CommandOk(g, c, Abort) && Cleared(g, s, c) && Bound(s, c.sessionKey)
       case Shutdown(k) => k.Some? ==> Bound(s, k.value)
  }

  /** A completed command is remembered under the key that will be compared. */
  predicate CompletionOk(g: Gateway, s: State) {
    s.rt.completedCommand.Some? ==>
      && s.rt.completedSessionKey.Some?
      && s.rt.completedRevision == s.rt.lastRevision
      && (s.rt.sessionKey.None? || s.rt.sessionKey == s.rt.completedSessionKey)
      && (s.rt.completedCommand == Some(Stop) ==>
          s.rt.state.Idle? && RowIs(g, s, s.rt.completedSessionKey.value, Closed))
  }

  /** Between commands. */
  predicate Settled(g: Gateway, s: State) {
    && s.rt.readerCode == g.reader.code
    && Tidy(s)
    && CompletionOk(g, s)
    && match s.rt.state
       case Idle => s.rt.sessionKey.None? && Empty(s) && s.quiet
       case Reading =>
         && s.rt.sessionKey.Some?
         && Live(s, s.rt.sessionKey.value) && Bound(s, s.rt.sessionKey.value)
         && RowIs(g, s, s.rt.sessionKey.value, Status.Active)
       case Degraded => if s.rt.sessionKey.None? then Empty(s) && s.quiet else Bound(s, s.rt.sessionKey.value)
       case _ => false
  }

  ghost predicate AtPc(g: Gateway, s: State) {
    match s.pc
    case Down => Empty(s) && s.rt == Unverified(g)
    case BootSend => Empty(s) && s.rt == Unverified(g)
    case BootAwait => Empty(s) && s.rt == Unverified(g)
    case BootGate => Empty(s) && s.rt == Unverified(g) && s.quiet
    case Ready => Settled(g, s)
    case Syncing(c) => CommandOk(g, c, Start) && Planned(g, s, c, Starting) && Empty(s)
    case Opening(c, _) =>
      CommandOk(g, c, Start) && Planned(g, s, c, Starting) && Empty(s) && RowIs(g, s, c.sessionKey, Status.Active)
    case AwaitingStart(c, _) =>
      && CommandOk(g, c, Start) && Planned(g, s, c, Starting) && RowIs(g, s, c.sessionKey, Status.Active)
      && Alone(s) && s.exec == Executor(true, None, []) && s.owner == c.sessionKey
    case Hooking(c, _) =>
      && CommandOk(g, c, Start) && Planned(g, s, c, Reading) && RowIs(g, s, c.sessionKey, Status.Active)
      && Alone(s) && Live(s, c.sessionKey)
    case Join(t) => HaltBefore(g, s, t) && (t.CleanUp? ==> Live(s, t.c.sessionKey))
    case Send(t) => HaltBefore(g, s, t) && Alone(s) && (t.CleanUp? ==> Live(s, t.c.sessionKey)) && HaltKey(t).Some?
    case AwaitingStop(t, verifying) =>
      && HaltBefore(g, s, t) && Alone(s) && HaltKey(t).Some?
      && (if verifying then t.OnAbort? && Unconnected(s) else Live(s, HaltKey(t).value))
    case Drain(t) => HaltAfter(g, s, t) && HaltKey(t).Some?
    case Settle(t) =>
      && !t.Shutdown?
      && if t.CleanUp? then HaltBefore(g, s, t) else HaltAfter(g, s, t) && s.exec.pending == []
    case Barrier(c) => Settled(g, s) && CommandOk(g, c, Stop) && CompletionCurrent(s.rt, c)
    case Ack(c) =>
      && Settled(g, s) && CommandOk(g, c, c.kind) && CompletionCurrent(s.rt, c)
      && (c.kind.Stop? ==> AllSent(s.db.events, c.sessionKey, g.reader.code))
  }

  ghost predicate Core(g: Gateway, s: State) {
    AtPc(g, s) && Owned(s) && Agree(s)
  }

  // -------------------------------------------------------- leaving a handler

  lemma ExitCore(g: Gateway, s: State)
    ensures Core(g, Exit(g, s))
  {
  }

  lemma ShutdownCore(g: Gateway, s: State)
    requires Owned(s) && Agree(s)
    ensures Core(g, BeginShutdown(s))
  {
  }

  /** A record with an active connection, or with leftovers, keeps its key when it degrades. */
  lemma DegradeCore(g: Gateway, s: State, why: string)
    requires Owned(s) && Agree(s) && Tidy(s) && s.rt.readerCode == g.reader.code
    requires if s.rt.sessionKey.None? then Empty(s) && s.quiet else Bound(s, s.rt.sessionKey.value)
    ensures Core(g, Degrade(s, why))
  {
    hide Strip;
    ShutdownCore(g, s);
  }

  lemma StartFailedCore(g: Gateway, s: State, c: Command, created: bool, why: string)
    requires HaltBefore(g, s, CleanUp(c, created, why)) && Owned(s) && Agree(s)
    ensures Core(g, StartFailed(s, c, created, why))
  {
  }

  /** Enough, at any point of the stop sequence, for a failure to end well. */
  predicate Failable(g: Gateway, s: State, t: Halt) {
    match t
    case CleanUp(_, _, _) => HaltBefore(g, s, t)
    case Shutdown(_) => true
    case _ =>
      && s.rt.readerCode == g.reader.code && Tidy(s)
      && if s.rt.sessionKey.None? then Empty(s) && s.quiet else Bound(s, s.rt.sessionKey.value)
  }

  lemma HaltFailedCore(g: Gateway, s: State, t: Halt, why: string)
    requires Failable(g, s, t) && Owned(s) && Agree(s)
    ensures Core(g, HaltFailed(g, s, t, why))
  {
    hide Degrade;
    match t
    case CleanUp(c, created, first) =>
    case OnStop(c) => DegradeCore(g, s, why);
    case OnAbort(c) => DegradeCore(g, s, why);
    case Shutdown(k) => ExitCore(g, s);
  }

  lemma CompletedCore(g: Gateway, s: State, c: Command)
    requires CommandOk(g, c, c.kind) && Owned(s) && Agree(s)
    requires s.rt.readerCode == c.readerCode && s.rt.lastRevision == c.revision
    requires
      if c.kind.Start? then
        Planned(g, s, c, Reading) && RowIs(g, s, c.sessionKey, Status.Active) && Live(s, c.sessionKey) && Bound(s, c.sessionKey)
      else Cleared(g, s, c) && Empty(s) && s.quiet && (c.kind.Stop? ==> RowIs(g, s, c.sessionKey, Closed))
    ensures Core(g, CommandCompleted(s, c))
  {
  }

  // ------------------------------------------------------------ control steps

  lemma BootCore(g: Gateway, s: State, ch: Choice)
    requires Core(g, s) && (s.pc.BootSend? || s.pc.BootAwait? || s.pc.BootGate?)
    ensures Core(g, ControlStep(g, s, ch))
  {
    hide AwaitVerify, HasActive;
    ExitCore(g, s);
  }

  lemma {:induction false} SyncCore(g: Gateway, s: State, c: Command, ch: Choice)
    requires Core(g, s) && s.pc == Syncing(c) && OneActive(s.db.sessions)
    ensures Core(g, SyncStep(g, s, c, ch))
  {
    hide Synchronize, StartFailed;
    SynchronizeFacts(s.db.sessions, g.devices, c);
    forall m: string ensures Core(g, StartFailed(s, c, false, m)) {
      StartFailedCore(g, s, c, false, m);
    }
  }

  lemma StartedCore(g: Gateway, s: State, c: Command, created: bool)
    requires CommandOk(g, c, Start) && Planned(g, s, c, Starting) && RowIs(g, s, c.sessionKey, Status.Active)
    requires Alone(s) && Owned(s) && s.exec.open && s.exec.key == Some(c.sessionKey)
    ensures Core(g, StartReturned(s, c, created))
  {
    hide StartFailed;
  }

  lemma {:induction false} OpenCore(g: Gateway, s: State, c: Command, created: bool, ch: Choice)
    requires Core(g, s) && s.pc == Opening(c, created)
    ensures Core(g, OpenStep(g, s, c, created, ch))
  {
    hide StartFailed, StartReturned;
    forall m: string, s': State | HaltBefore(g, s', CleanUp(c, created, m)) && Owned(s') && Agree(s')
      ensures Core(g, StartFailed(s', c, created, m))
    {
      StartFailedCore(g, s', c, created, m);
    }
  }

  lemma {:induction false} AwaitStartCore(g: Gateway, s: State, c: Command, created: bool, ch: Choice)
    requires Core(g, s) && s.pc == AwaitingStart(c, created)
    ensures Core(g, AwaitStartStep(g, s, c, created, ch))
  {
    hide StartFailed, StartReturned, OnReceptions;
    var (exec, r) := AwaitStart(s.exec, g.reader, c.sessionKey, ch.receptions);
    var s' := Buffered(s, exec);
    if r.Ok? {
      StartedCore(g, s', c, created);
    } else {
      StartFailedCore(g, s', c, created, r.message);
    }
  }

  lemma {:induction false} HookCore(g: Gateway, s: State, c: Command, created: bool, ch: Choice)
    requires Core(g, s) && s.pc == Hooking(c, created)
    ensures Core(g, HookStep(g, s, c, created, ch))
  {
    hide StartFailed, CommandCompleted;
    var (cap, r) := StartCapture(s.cap, s.exec, g.reader, c.sessionKey, c.readerCode, ch.fail);
    var s' := s.(cap := cap);
    if r.Ok? {
      CompletedCore(g, s', c);
    } else {
      StartFailedCore(g, s', c, created, r.message);
    }
  }

  lemma {:induction false} JoinCore(g: Gateway, s: State, t: Halt, ch: Choice)
    requires Core(g, s) && s.pc == Join(t)
    ensures Core(g, JoinStep(g, s, t, ch))
  {
    hide StopHook, HaltFailed;
    var reader := if t.Shutdown? && t.k.None? then None else Some(g.reader.code);
    StoppedMeansAlone(s.cap, g.reader, HaltKey(t), reader, ch.fail);
    ExitCore(g, s);
    var stopped := StopHook(s.cap, g.reader, HaltKey(t), reader, ch.fail);
    if stopped.StopFailed? {
      HaltFailedCore(g, s.(cap := stopped.capture), t, stopped.message);
    }
  }

  lemma {:induction false} SendCore(g: Gateway, s: State, t: Halt, ch: Choice)
    requires Core(g, s) && s.pc == Send(t)
    ensures Core(g, SendStep(g, s, t, ch))
  {
    hide HaltFailed;
    ExitCore(g, s);
    forall m: string, s': State | Failable(g, s', t) && Owned(s') && Agree(s')
      ensures Core(g, HaltFailed(g, s', t, m))
    {
      HaltFailedCore(g, s', t, m);
    }
  }

  lemma StopConfirmedCore(g: Gateway, s: State, t: Halt)
    requires Failable(g, s, t) && Alone(s) && Unconnected(s) && Owned(s) && HaltKey(t).Some?
    requires Bound(s, HaltKey(t).value)
    requires
      match t
      case OnStop(c) => CommandOk(g, c, Stop) && Planned(g, s, c, Stopping) && RowIs(g, s, c.sessionKey, Status.Active)
      case OnAbort(c) => CommandOk(g, c, Abort) && Planned(g, s, c, Stopping)
      case _ => true
    ensures Core(g, StopConfirmed(g, s, t))
  {
    hide HaltFailed;
  }

  lemma {:induction false} AwaitStopCore(g: Gateway, s: State, t: Halt, verifying: bool, ch: Choice)
    requires Core(g, s) && s.pc == AwaitingStop(t, verifying)
    ensures Core(g, AwaitStopStep(g, s, t, verifying, ch))
  {
    hide StopConfirmed, HaltFailed, OnReceptions, AwaitVerify;
    if verifying {
      var r := AwaitVerify(g.reader, ch.receptions);
      if r.Ok? {
        StopConfirmedCore(g, s, t);
      } else {
        HaltFailedCore(g, s, t, r.message);
      }
    } else {
      var (exec, r) := AwaitStop(s.exec, g.reader, ch.receptions);
      var s' := Buffered(s, exec);
      if r.Ok? {
        StopConfirmedCore(g, s', t);
      } else {
        HaltFailedCore(g, s', t, r.message);
      }
    }
  }

  lemma DrainFrame(g: Gateway, s: State, key: string, fail: Option<string>)
    ensures
      var (s', _) := DrainPending(g, s, key, fail);
      && s' == s.(exec := s.exec.(pending := []), db := s'.db, handed := s'.handed)
      && s'.db.sessions == s.db.sessions
  {
    hide Ingest;
    IngestKeepsSessions(s.db, g.digest, g.reader, key, s.exec.pending);
  }

  lemma {:induction false} DrainCore(g: Gateway, s: State, t: Halt, ch: Choice)
    requires Core(g, s) && s.pc == Drain(t)
    ensures Core(g, DrainStep(g, s, t, ch))
  {
    hide DrainPending, HaltFailed;
    ExitCore(g, s);
    var (s', r) := DrainPending(g, s, HaltKey(t).value, ch.fail);
    DrainFrame(g, s, HaltKey(t).value, ch.fail);
    ExitCore(g, s');
    if r.Err? {
      HaltFailedCore(g, s', t, r.message);
    }
  }

  lemma {:induction false} CleanUpCore(g: Gateway, s: State, c: Command, created: bool, why: string, ch: Choice)
    requires Core(g, s) && s.pc == Settle(CleanUp(c, created, why))
    ensures Core(g, SettleStep(g, s, s.pc.t, ch))
  {
    hide Degrade, FinishOr;
    var r := FinishOr(s.db.sessions, c, Cancelled, ch.fail);
    if !created {
      DegradeCore(g, s, why);
    } else if r.Ok? {
      DegradeCore(g, s.(db := s.db.(sessions := r.value)), why);
    } else {
      DegradeCore(g, s, why + "; newly-created local session cleanup also failed: " + r.message);
    }
  }

  lemma {:induction false} SettleCore(g: Gateway, s: State, t: Halt, ch: Choice)
    requires Core(g, s) && s.pc == Settle(t) && OneActive(s.db.sessions)
    ensures Core(g, SettleStep(g, s, t, ch))
  {
    hide Degrade, CommandCompleted, HaltFailed, OneActive;
    match t
    case CleanUp(c, created, why) =>
      CleanUpCore(g, s, c, created, why, ch);
    case OnStop(c) =>
      FinishFacts(s.db.sessions, c.sessionKey, c.readerCode, Closed);
      var r := FinishOr(s.db.sessions, c, Closed, ch.fail);
      if r.Ok? {
        CompletedCore(g, s.(db := s.db.(sessions := r.value)), c);
      } else {
        HaltFailedCore(g, s, t, r.message);
      }
    case OnAbort(c) =>
      var r := FinishOr(s.db.sessions, c, Cancelled, None);
      if ch.fail.Some? {
        HaltFailedCore(g, s, t, ch.fail.value);
      } else if r.Ok? {
        CompletedCore(g, s.(db := s.db.(sessions := r.value)), c);
      } else {
        CompletedCore(g, s, c);
      }
    case Shutdown(_) =>
  }

  lemma {:induction false} ControlCore(g: Gateway, s: State, ch: Choice)
    requires Core(g, s) && OneActive(s.db.sessions)
    ensures Core(g, ControlStep(g, s, ch))
  {
    hide BootSendStep, BootAwaitStep, BootGateStep, SyncStep, OpenStep, AwaitStartStep, HookStep, JoinStep, SendStep,
      AwaitStopStep, DrainStep, SettleStep, AllSent, OneActive, HaltBefore, HaltAfter;
    match s.pc
    case Down =>
    case Ready =>
    case Syncing(c) => SyncCore(g, s, c, ch);
    case Opening(c, created) => OpenCore(g, s, c, created, ch);
    case AwaitingStart(c, created) => AwaitStartCore(g, s, c, created, ch);
    case Hooking(c, created) => HookCore(g, s, c, created, ch);
    case Join(t) => JoinCore(g, s, t, ch);
    case Send(t) => SendCore(g, s, t, ch);
    case AwaitingStop(t, verifying) => AwaitStopCore(g, s, t, verifying, ch);
    case Drain(t) => DrainCore(g, s, t, ch);
    case Settle(t) => SettleCore(g, s, t, ch);
    case Barrier(c) =>
    case Ack(c) =>
    case _ => BootCore(g, s, ch);
  }

  // --------------------------------------------------------- the other actions

  lemma DuplicateMeans(rt: Runtime, c: Command)
    requires WellFormed(c) && PlanCommand(rt, c) == Ok(Duplicate)
    ensures IsCompleted(rt, c) && rt.lastRevision == c.revision && rt.readerCode == c.readerCode
  {
  }

  lemma AcceptCore(g: Gateway, s: State, c: Command)
    requires Core(g, s) && s.pc.Ready? && WellFormed(c) && c.readerCode == s.rt.readerCode
    requires PlanCommand(s.rt, c).Ok? && PlanCommand(s.rt, c).value.Accept?
    ensures Core(g, ReceiveStep(s, c))
  {
    AcceptedIff(s.rt, c);
    hide PlanCommand, AllSent, CompletionOk;
  }

  lemma {:induction false} ReceiveCore(g: Gateway, s: State, c: Command)
    requires Core(g, s)
    ensures Core(g, ReceiveStep(s, c))
  {
    hide PlanCommand, AllSent, HaltBefore, HaltAfter;
    if s.pc.Ready? && WellFormed(c) && c.readerCode == s.rt.readerCode {
      var plan := PlanCommand(s.rt, c);
      if plan.Ok? && plan.value.Duplicate? {
        DuplicateMeans(s.rt, c);
      } else if plan.Ok? {
        AcceptCore(g, s, c);
      }
    }
  }

  lemma {:induction false} InterruptCore(g: Gateway, s: State)
    requires Core(g, s)
    ensures Core(g, InterruptStep(g, s))
  {
    hide HaltBefore, HaltAfter, Settled, AllSent;
    ExitCore(g, s);
    ShutdownCore(g, s);
    ShutdownCore(g, s.(exec := s.exec.(open := false, key := None)));
  }

  /** The thread changes the buffer, its own state, and the events. */
  ghost predicate ThreadFrame(s: State, s': State) {
    && s' == s.(cap := s'.cap, exec := s.exec.(pending := s'.exec.pending), db := s'.db, captured := s'.captured, handed := s'.handed)
    && s'.db.sessions == s.db.sessions
    && s'.cap.key == s.cap.key
    && (s.cap.thread.Alive? || s' == s)
    && (s'.cap.thread.NoThread? <==> s.cap.thread.NoThread?)
  }

  lemma IngestedFrame(g: Gateway, s: State, frames: seq<Frame>, key: string, fail: Option<string>)
    ensures
      var (s', _) := Ingested(g, s, frames, key, fail);
      s' == s.(db := s'.db, handed := s'.handed) && s'.db.sessions == s.db.sessions
  {
    hide Ingest;
    IngestKeepsSessions(s.db, g.digest, g.reader, key, frames);
  }

  lemma {:induction false} ThreadIsFramed(g: Gateway, s: State, ch: Choice)
    ensures ThreadFrame(s, ThreadStep(g, s, ch))
  {
    hide Ingested, OnFrames;
    match s.cap.thread
    case Alive(Holding(frames)) =>
      IngestedFrame(g, s, frames, if s.cap.key.Some? then s.cap.key.value else "", ch.fail);
    case _ =>
  }

  lemma {:induction false} ThreadCore(g: Gateway, s: State, ch: Choice)
    requires Core(g, s)
    ensures Core(g, ThreadStep(g, s, ch))
  {
    hide ThreadStep, AllSent;
    ThreadIsFramed(g, s, ch);
  }

  /** This reader's session rows are untouched. */
  ghost predicate OwnRows(g: Gateway, before: map<string, Session>, after: map<string, Session>) {
    forall k :: k in before && before[k].device == g.reader.code ==> k in after && after[k] == before[k]
  }

  lemma {:induction false} StoreCore(g: Gateway, s: State, db: Db)
    requires Core(g, s) && OwnRows(g, s.db.sessions, db.sessions) && Evolves(s.db, db)
    ensures Core(g, s.(db := db))
  {
    hide AllSent, Evolves, RowIs;
    var s' := s.(db := db);
    forall key, status | RowIs(g, s, key, status) ensures RowIs(g, s', key, status) {
      RowKept(g, s, db, key, status);
    }
    if s.pc.Ack? && s.pc.c.kind.Stop? {
      AckedRow(g, s);
      FinalIsForever(s.db, db, s.pc.c.sessionKey, g.reader.code);
    }
  }

  lemma RowKept(g: Gateway, s: State, db: Db, key: string, status: Status)
    requires RowIs(g, s, key, status) && OwnRows(g, s.db.sessions, db.sessions)
    ensures RowIs(g, s.(db := db), key, status)
  {
  }

  /** A STOP about to be acknowledged is final. */
  lemma AckedRow(g: Gateway, s: State)
    requires Core(g, s) && s.pc.Ack? && s.pc.c.kind.Stop?
    ensures Final(s.db, s.pc.c.sessionKey, g.reader.code)
  {
    hide AllSent;
  }

  lemma QueueIsLater(e: Event, q: QueueStep)
    ensures Later(e, QueueEvent(e, q))
  {
    hide Find, Latest, NextNumber, RetryDelay;
    match q
    case Begin(expected, maxAttempts, now) =>
    case Complete(number, outcome, now, initial, maximum) =>
    case Move(expected, target) =>
  }

  /** What the environment may do to the store. */
  lemma {:induction false} OtherEvolves(g: Gateway, db: Db, other: OtherStep)
    requires StoreOk(g.digest, db)
    ensures
      var db' := OtherDb(g, db, other);
      Evolves(db, db') && StoreOk(g.digest, db') && OwnRows(g, db.sessions, db'.sessions)
  {
    hide Ingest, EventsEvolve, OneActive, Advances, UniqueKeys, KeyedRows, Synchronize, Finish;
    assert Evolves(db, db) by { AdvancesReflexive(db); }
    match other
    case OtherStart(c) =>
      if c.readerCode != g.reader.code {
        SynchronizeFacts(db.sessions, g.devices, c);
        var r := Synchronize(db.sessions, g.devices, c);
        if r.Ok? {
          SessionsEvolve(g.digest, db, r.value.0);
        }
      }
    case OtherFinish(key, code, target) =>
      if code != g.reader.code && !target.Active? {
        FinishFacts(db.sessions, key, code, target);
        var r := Finish(db.sessions, key, code, target);
        if r.Ok? {
          SessionsEvolve(g.digest, db, r.value);
        }
      }
    case OtherIngest(device, key, frames) =>
      if device.code != g.reader.code && Ingest(db, g.digest, device, key, frames).Ok? {
        IngestEvolves(g.digest, db, device, key, frames);
      }
  }

  lemma AdvancesReflexive(db: Db)
    ensures Evolves(db, db)
  {
  }

  // ------------------------------------------------------------- every action

  /** Only synchronising, draining and settling touch the store. */
  lemma {:induction false} ControlKeepsStore(g: Gateway, s: State, ch: Choice)
    requires !s.pc.Syncing? && !s.pc.Drain? && !s.pc.Settle?
    ensures ControlStep(g, s, ch).db == s.db
  {
    hide SyncStep, DrainStep, SettleStep, AllSent, HasActive, OnReceptions, AwaitVerify, SendStart, SendStop, StartCapture,
      StopHook, MarkDegraded, MarkCommandCompleted, MarkReaderStarted, MarkReaderStopped;
  }

  lemma {:induction false} SyncEvolves(g: Gateway, s: State, c: Command, ch: Choice)
    requires StoreOk(g.digest, s.db)
    ensures
      var db' := SyncStep(g, s, c, ch).db;
      Evolves(s.db, db') && StoreOk(g.digest, db')
  {
    hide EventsEvolve, OneActive, Advances, UniqueKeys, KeyedRows, Synchronize;
    AdvancesReflexive(s.db);
    SynchronizeFacts(s.db.sessions, g.devices, c);
    var r := Synchronize(s.db.sessions, g.devices, c);
    if r.Ok? {
      SessionsEvolve(g.digest, s.db, r.value.0);
    }
  }

  lemma {:induction false} DrainEvolves(g: Gateway, s: State, t: Halt, ch: Choice)
    requires StoreOk(g.digest, s.db)
    ensures
      var db' := DrainStep(g, s, t, ch).db;
      Evolves(s.db, db') && StoreOk(g.digest, db')
  {
    hide Evolves, StoreOk, Ingested, MarkDegraded;
    AdvancesReflexive(s.db);
    if HaltKey(t).Some? {
      IngestedEvolves(g, s.(exec := s.exec.(pending := [])), s.exec.pending, HaltKey(t).value, ch.fail);
    }
  }

  /** What a control step does to the store. */
  lemma {:induction false} ControlEvolves(g: Gateway, s: State, ch: Choice)
    requires StoreOk(g.digest, s.db)
    ensures
      var db' := ControlStep(g, s, ch).db;
      Evolves(s.db, db') && StoreOk(g.digest, db')
  {
    hide Evolves, StoreOk, SyncStep, DrainStep, SettleStep, BootSendStep, BootAwaitStep, BootGateStep, OpenStep,
      AwaitStartStep, HookStep, JoinStep, SendStep, AwaitStopStep, BarrierStep, AckStep;
    AdvancesReflexive(s.db);
    match s.pc
    case Syncing(c) => SyncEvolves(g, s, c, ch);
    case Drain(t) => DrainEvolves(g, s, t, ch);
    case Settle(t) =>
      if t.Shutdown? {
        ShutdownSettles(g, s, ch);
      } else {
        SettleEvolves(g, s, t, ch);
      }
    case _ => ControlKeepsStore(g, s, ch);
  }

  lemma ShutdownSettles(g: Gateway, s: State, ch: Choice)
    requires s.pc.Settle? && s.pc.t.Shutdown?
    ensures SettleStep(g, s, s.pc.t, ch).db == s.db
  {
  }

  lemma {:induction false} IngestedEvolves(g: Gateway, s: State, frames: seq<Frame>, key: string, fail: Option<string>)
    requires StoreOk(g.digest, s.db)
    ensures
      var db' := Ingested(g, s, frames, key, fail).0.db;
      Evolves(s.db, db') && StoreOk(g.digest, db')
  {
    hide Evolves, Ingest, StoreOk;
    AdvancesReflexive(s.db);
    if Ingest(s.db, g.digest, g.reader, key, frames).Ok? {
      IngestEvolves(g.digest, s.db, g.reader, key, frames);
    }
  }

  lemma {:induction false} SettleEvolves(g: Gateway, s: State, t: Halt, ch: Choice)
    requires StoreOk(g.digest, s.db) && !t.Shutdown?
    ensures
      var db' := SettleStep(g, s, t, ch).db;
      Evolves(s.db, db') && StoreOk(g.digest, db')
  {
    hide EventsEvolve, OneActive, Advances, UniqueKeys, KeyedRows, Finish, MarkDegraded, MarkCommandCompleted;
    AdvancesReflexive(s.db);
    var target := if t.OnStop? then Closed else Cancelled;
    FinishFacts(s.db.sessions, t.c.sessionKey, t.c.readerCode, target);
    var r := Finish(s.db.sessions, t.c.sessionKey, t.c.readerCode, target);
    if r.Ok? {
      SessionsEvolve(g.digest, s.db, r.value);
    }
  }

  lemma {:induction false} ThreadEvolves(g: Gateway, s: State, ch: Choice)
    requires StoreOk(g.digest, s.db)
    ensures
      var db' := ThreadStep(g, s, ch).db;
      Evolves(s.db, db') && StoreOk(g.digest, db')
  {
    hide Evolves, Ingested, StoreOk, OnFrames;
    AdvancesReflexive(s.db);
    match s.cap.thread
    case Alive(Holding(frames)) =>
      IngestedEvolves(g, s, frames, if s.cap.key.Some? then s.cap.key.value else "", ch.fail);
    case _ =>
  }

  lemma RecoverCore(g: Gateway, s: State, key: string, target: Status)
    requires Core(g, s) && StoreOk(g.digest, s.db) && s.pc.Down? && !target.Active?
    ensures
      var s' := Step(g, s, Recover(key, target));
      Core(g, s') && Evolves(s.db, s'.db) && StoreOk(g.digest, s'.db)
  {
    hide EventsEvolve, OneActive, Advances, UniqueKeys, KeyedRows, Finish;
    AdvancesReflexive(s.db);
    FinishFacts(s.db.sessions, key, g.reader.code, target);
    var r := Finish(s.db.sessions, key, g.reader.code, target);
    if r.Ok? {
      SessionsEvolve(g.digest, s.db, r.value);
    }
  }

  /** Every action keeps the agreement, and the store only evolves. */
  lemma {:induction false} StepCore(g: Gateway, s: State, a: Action)
    requires Core(g, s) && StoreOk(g.digest, s.db)
    ensures Core(g, Step(g, s, a)) && StoreOk(g.digest, Step(g, s, a).db) && Evolves(s.db, Step(g, s, a).db)
  {
    hide AtPc, Evolves, UniqueKeys, KeyedRows, OneActive, ReceiveStep, ControlStep, ThreadStep, InterruptStep, OtherDb, QueueEvent,
      Finish, OwnRows, Owned, Agree;
    AdvancesReflexive(s.db);
    match a
    case Boot => assert Core(g, Step(g, s, a)) by { BootActionCore(g, s); }
    case Receive(c) => ReceiveCore(g, s, c); ReceiveKeepsStore(s, c);
    case Control(ch) => ControlCore(g, s, ch); ControlEvolves(g, s, ch);
    case Thread(ch) => ThreadCore(g, s, ch); ThreadEvolves(g, s, ch);
    case Interrupt => InterruptCore(g, s); InterruptKeepsStore(g, s);
    case Crash => ExitCore(g, s);
    case Queue(id, q) =>
      if id < |s.db.events| {
        var e := QueueEvent(s.db.events[id], q);
        QueueIsLater(s.db.events[id], q);
        RowEvolves(g.digest, s.db, id, e);
        var db' := s.db.(events := s.db.events[id := e]);
        assert OwnRows(g, s.db.sessions, db'.sessions) by { OwnRowsSame(g, s.db.sessions); }
        StoreCore(g, s, db');
      }
    case Elsewhere(other) =>
      OtherEvolves(g, s.db, other);
      StoreCore(g, s, OtherDb(g, s.db, other));
    case Recover(key, target) =>
      if s.pc.Down? && !target.Active? {
        RecoverCore(g, s, key, target);
      }
  }

  lemma OwnRowsSame(g: Gateway, sessions: map<string, Session>)
    ensures OwnRows(g, sessions, sessions)
  {
  }

  lemma BootActionCore(g: Gateway, s: State)
    requires Core(g, s)
    ensures Core(g, Step(g, s, Boot))
  {
  }

  lemma ReceiveKeepsStore(s: State, c: Command)
    ensures ReceiveStep(s, c).db == s.db
  {
    hide PlanCommand;
  }

  lemma InterruptKeepsStore(g: Gateway, s: State)
    ensures InterruptStep(g, s).db == s.db
  {
  }
}
