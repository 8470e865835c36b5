/**
  What stopping a session guarantees: which frames have been stored by then, and
  that the events of an acknowledged STOP are delivered and final.
 */
module StopGuarantee {
  import opened Wrappers
  import opened Crc
  import opened ReaderProtocol
  import opened Store
  import opened RuntimeState
  import opened SessionService
  import opened DeliveryBarrier
  import opened TagIngestion
  import opened IngestionUnion
  import opened StoreEvolution
  import opened ReaderExecutor
  import opened CaptureService
  import opened ControlMachine
  import opened ControlInvariant
  import opened FrameCustody

  // --------------------------------------------------------- stored frames

  ghost predicate StoredRow(g: Gateway, db: Db, h: Handed) {
    h.stored ==> HasRow(db.events, g.digest, g.reader.code, h.session, EpcOf(h.frame))
  }

  /** Every frame that the ingestor accepted has its row. */
  ghost predicate StoredRows(g: Gateway, s: State) {
    forall i :: 0 <= i < |s.handed| ==> StoredRow(g, s.db, s.handed[i])
  }

  lemma StoredRowsEvolve(g: Gateway, s: State, s': State)
    requires StoredRows(g, s) && Evolves(s.db, s'.db) && s'.handed in {s.handed, []}
    ensures StoredRows(g, s')
  {
    hide EpcOf, HasRow, Evolves;
    forall i | 0 <= i < |s'.handed| && s'.handed[i].stored ensures StoredRow(g, s'.db, s'.handed[i]) {
      var h := s'.handed[i];
      assert StoredRow(g, s.db, h);
      RowIsForever(s.db, s'.db, g.digest, g.reader.code, h.session, EpcOf(h.frame));
    }
  }

  lemma {:induction false} IngestedStored(g: Gateway, s: State, frames: seq<Frame>, key: string, fail: Option<string>)
    requires StoredRows(g, s) && StoreOk(g.digest, s.db)
    ensures StoredRows(g, Ingested(g, s, frames, key, fail).0)
  {
    hide Ingest, EpcOf, HasRow, EpcsOf, Evolves, OneActive, UniqueKeys, KeyedRows;
    var (s', r) := Ingested(g, s, frames, key, fail);
    IngestedEvolves(g, s, frames, key, fail);
    StoredRowsEvolve(g, s, s.(db := s'.db));
    if r.Ok? {
      IngestOk(s.db, g.digest, g.reader, key, frames);
      forall i | 0 <= i < |s'.handed| ensures StoredRow(g, s'.db, s'.handed[i]) {
        if i < |s.handed| {
          assert StoredRow(g, s.(db := s'.db).db, s.handed[i]);
        } else {
          assert s'.handed[i] == Handed(frames[i - |s.handed|], key, true);
        }
      }
    } else {
      forall i | 0 <= i < |s'.handed| ensures StoredRow(g, s'.db, s'.handed[i]) {
        if i < |s.handed| {
          assert StoredRow(g, s.(db := s'.db).db, s.handed[i]);
        }
      }
    }
  }

  lemma {:induction false} DrainStored(g: Gateway, s: State, t: Halt, ch: Choice)
    requires StoredRows(g, s) && StoreOk(g.digest, s.db) && HaltKey(t).Some?
    ensures StoredRows(g, DrainStep(g, s, t, ch))
  {
    hide Ingested, HaltFailed, Exit, StoredRows, StoreOk, Evolves;
    var key := HaltKey(t).value;
    var emptied := s.(exec := s.exec.(pending := []));
    AdvancesReflexive(s.db);
    StoredRowsEvolve(g, s, emptied);
    IngestedStored(g, emptied, s.exec.pending, key, ch.fail);
    var (s', r) := DrainPending(g, s, key, ch.fail);
    AdvancesReflexive(s'.db);
    ExitKeeps(g, s');
    ExitDb(g, s');
    StoredRowsEvolve(g, s', Exit(g, s'));
    StoredRowsEvolve(g, s', s'.(pc := Settle(t)));
    if r.Err? {
      HaltFailedKeeps(g, s', t, r.message);
      HaltFailedDb(g, s', t, r.message);
      StoredRowsEvolve(g, s', HaltFailed(g, s', t, r.message));
    }
  }

  lemma ExitDb(g: Gateway, s: State)
    ensures Exit(g, s).db == s.db
  {
  }

  lemma HaltFailedDb(g: Gateway, s: State, t: Halt, why: string)
    ensures HaltFailed(g, s, t, why).db == s.db
  {
    hide MarkDegraded;
  }

  lemma {:induction false} ControlStored(g: Gateway, s: State, ch: Choice)
    requires Core(g, s) && StoreOk(g.digest, s.db) && Kept(LedgerOf(s)) && StoredRows(g, s)
    ensures StoredRows(g, ControlStep(g, s, ch))
  {
    hide HookStep, JoinStep, SendStep, SettleStep, OpenStep, AwaitStartStep, AwaitStopStep, DrainStep, Settled,
      BootSendStep, BootAwaitStep, BootGateStep, SyncStep, BarrierStep, AckStep, Kept, AllSent, StoredRows, Evolves, StoreOk;
    ControlEvolves(g, s, ch);
    match s.pc
    case Drain(t) => DrainStored(g, s, t, ch);
    case Opening(c, created) =>
      OpenKeeps(g, s, c, created, ch);
      StoredRowsEvolve(g, s, ControlStep(g, s, ch));
    case AwaitingStart(c, created) =>
      AwaitStartKeeps(g, s, c, created, ch);
      StoredRowsEvolve(g, s, ControlStep(g, s, ch));
    case AwaitingStop(t, verifying) =>
      AwaitStopKeeps(g, s, t, verifying, ch);
      StoredRowsEvolve(g, s, ControlStep(g, s, ch));
    case _ =>
      QuietControl(g, s, ch);
      StoredRowsEvolve(g, s, ControlStep(g, s, ch));
  }

  lemma {:induction false} ThreadStored(g: Gateway, s: State, ch: Choice)
    requires StoreOk(g.digest, s.db) && StoredRows(g, s)
    ensures StoredRows(g, ThreadStep(g, s, ch))
  {
    hide Ingested, OnFrames, StoredRows, StoreOk, Evolves;
    AdvancesReflexive(s.db);
    var s' := ThreadStep(g, s, ch);
    match s.cap.thread
    case Alive(Holding(frames)) =>
      if frames == [] {
        StoredRowsEvolve(g, s, s');
        return;
      }
      var key := if s.cap.key.Some? then s.cap.key.value else "";
      IngestedStored(g, s, frames, key, ch.fail);
      var next := Ingested(g, s, frames, key, ch.fail).0;
      AdvancesReflexive(next.db);
      StoredRowsEvolve(g, next, s');
    case _ => StoredRowsEvolve(g, s, s');
  }

  lemma {:induction false} StepStored(g: Gateway, s: State, a: Action)
    requires Core(g, s) && StoreOk(g.digest, s.db) && Kept(LedgerOf(s)) && StoredRows(g, s)
    ensures StoredRows(g, Step(g, s, a))
  {
    hide ControlStep, ThreadStep, Kept, AtPc, Finish, OtherDb, QueueEvent, PlanCommand, StoredRows, StoreOk, Evolves;
    match a
    case Control(ch) => ControlStored(g, s, ch);
    case Thread(ch) => ThreadStored(g, s, ch);
    case _ =>
      StepCore(g, s, a);
      StoredRowsEvolve(g, s, Step(g, s, a));
  }

  // ------------------------------------------ what failed since this START

  /** The capture thread ended because the ingestor raised. */
  predicate StoreFailed(error: Option<Fault>) {
    error.Some? && error.value.StoreFault?
  }

  /** Every frame handed over from `mark` on was stored, unless the recorded error is the ingestor's. */
  ghost predicate CleanFrom(handed: seq<Handed>, mark: nat, error: Option<Fault>) {
    && mark <= |handed|
    && ((forall i :: mark <= i < |handed| ==> handed[i].stored) <==> !StoreFailed(error))
  }

  ghost predicate CleanSince(s: State) {
    CleanFrom(s.handed, s.mark, s.cap.error) && (s.cap.thread.Alive? ==> s.cap.error.None?)
  }

  ghost predicate Clean(s: State) {
    match s.pc
    case AwaitingStart(c, _) => |s.handed| == s.mark && s.owner == c.sessionKey
    case Hooking(c, _) => |s.handed| == s.mark && s.owner == c.sessionKey
    case Ready => CleanSettled(s)
    case Barrier(_) => CleanSettled(s)
    case Ack(_) => CleanSettled(s)
    case Join(t) => CleanHalt(s, t)
    case Send(t) => CleanHalt(s, t)
    case AwaitingStop(t, _) => CleanHalt(s, t)
    case Drain(t) => CleanHalt(s, t)
    case Settle(t) => CleanHalt(s, t)
    case _ => true
  }

  ghost predicate CleanSettled(s: State) {
    && (s.rt.state.Reading? ==> CleanSince(s))
    && (s.rt.completedCommand == Some(Stop) ==> CleanSince(s) && s.rt.completedSessionKey == Some(s.owner))
  }

  ghost predicate CleanHalt(s: State, t: Halt) {
    t.OnStop? ==> CleanSince(s) && s.owner == t.c.sessionKey
  }

  /** A record that has left the session behind: nothing to claim. */
  predicate Unclaimed(s: State) {
    match s.pc
    case Ready => !s.rt.state.Reading? && s.rt.completedCommand.None?
    case Join(t) => !t.OnStop?
    case Settle(t) => !t.OnStop?
    case Down => true
    case _ => false
  }

  lemma StartFailedUnclaimed(s: State, c: Command, created: bool, why: string)
    ensures Unclaimed(StartFailed(s, c, created, why))
  {
  }

  lemma FailuresUnclaimed(g: Gateway, s: State, t: Halt, why: string)
    ensures Unclaimed(Degrade(s, why))
    ensures Unclaimed(HaltFailed(g, s, t, why))
    ensures Unclaimed(Exit(g, s)) && Unclaimed(BeginShutdown(s))
  {
    hide Degrade;
    DegradeUnclaimed(s, why);
  }

  lemma DegradeUnclaimed(s: State, why: string)
    ensures Unclaimed(Degrade(s, why))
  {
    hide Strip;
  }

  lemma OpenClean(g: Gateway, s: State, c: Command, created: bool, ch: Choice)
    requires Core(g, s) && s.pc == Opening(c, created) && Custody(LedgerOf(s))
    ensures Clean(OpenStep(g, s, c, created, ch))
  {
    hide StartFailed, StartReturned, CleanFrom;
    var begun := SendStart(s.exec, g.reader, c.sessionKey, c.readerCode, ch.link);
    var s' := (if begun.sent then StartSent(g, s, c.sessionKey) else s).(exec := begun.exec);
    StartFailedUnclaimed(s', c, created, if begun.result.Err? then begun.result.message else "");
    assert |s.captured| == |s.handed|;
  }

  lemma AwaitStartClean(g: Gateway, s: State, c: Command, created: bool, ch: Choice)
    requires Clean(s) && s.pc == AwaitingStart(c, created)
    ensures Clean(AwaitStartStep(g, s, c, created, ch))
  {
    hide StartFailed, OnReceptions, MarkReaderStarted, CleanFrom;
    var (exec, r) := AwaitStart(s.exec, g.reader, c.sessionKey, ch.receptions);
    var s' := Buffered(s, exec);
    var m := if r.Err? then r.message else if MarkReaderStarted(s'.rt).Err? then MarkReaderStarted(s'.rt).message else "";
    StartFailedUnclaimed(s', c, created, m);
  }

  /** Starting the thread clears the error of the session before. */
  lemma StartForgetsError(c: Capture, e: Executor, device: Device, key: string, reader: string, spawn: Option<string>)
    requires c.thread.NoThread?
    ensures
      var (c', r) := StartCapture(c, e, device, key, reader, spawn);
      r.Ok? ==> c'.error.None?
  {
  }

  /** Frames that are stored keep the record exact; frames that are not need the error. */
  lemma CleanAppend(handed: seq<Handed>, mark: nat, frames: seq<Frame>, key: string, error: Option<Fault>, error': Option<Fault>)
    requires CleanFrom(handed, mark, error)
    ensures CleanFrom(handed + Hand(frames, key, true), mark, error)
    ensures frames != [] && StoreFailed(error') ==> CleanFrom(handed + Hand(frames, key, false), mark, error')
  {
    var more := handed + Hand(frames, key, true);
    assert forall i :: 0 <= i < |handed| ==> more[i] == handed[i];
    assert forall i :: |handed| <= i < |more| ==> more[i].stored;
    var failed := handed + Hand(frames, key, false);
    if frames != [] {
      assert !failed[|handed|].stored;
    }
  }

  lemma HookClean(g: Gateway, s: State, c: Command, created: bool, ch: Choice)
    requires Core(g, s) && Clean(s) && s.pc == Hooking(c, created)
    ensures Clean(HookStep(g, s, c, created, ch))
  {
    hide StartFailed, StartCapture;
    var (cap, r) := StartCapture(s.cap, s.exec, g.reader, c.sessionKey, c.readerCode, ch.fail);
    StartForgetsError(s.cap, s.exec, g.reader, c.sessionKey, c.readerCode, ch.fail);
    StartFailedUnclaimed(s.(cap := cap), c, created, if r.Err? then r.message else "");
  }

  lemma {:induction false} JoinClean(g: Gateway, s: State, t: Halt, ch: Choice)
    requires Clean(s) && s.pc == Join(t)
    ensures Clean(JoinStep(g, s, t, ch))
  {
    hide StopHook, HaltFailed, Exit, CleanFrom;
    var reader := if t.Shutdown? && t.k.None? then None else Some(g.reader.code);
    StoppedMeansAlone(s.cap, g.reader, HaltKey(t), reader, ch.fail);
    var stopped := StopHook(s.cap, g.reader, HaltKey(t), reader, ch.fail);
    FailuresUnclaimed(g, s.(cap := stopped.capture), t, if stopped.StopFailed? then stopped.message else "");
    FailuresUnclaimed(g, s, t, "");
  }

  lemma {:induction false} SendClean(g: Gateway, s: State, t: Halt, ch: Choice)
    requires Clean(s) && s.pc == Send(t)
    ensures Clean(SendStep(g, s, t, ch))
  {
    hide SendStop, HaltFailed, Exit;
    forall m: string, s': State ensures Unclaimed(HaltFailed(g, s', t, m)) {
      FailuresUnclaimed(g, s', t, m);
    }
    forall s': State ensures Unclaimed(Exit(g, s')) {
      FailuresUnclaimed(g, s', t, "");
    }
  }

  lemma {:induction false} AwaitStopClean(g: Gateway, s: State, t: Halt, verifying: bool, ch: Choice)
    requires Clean(s) && s.pc == AwaitingStop(t, verifying)
    ensures Clean(AwaitStopStep(g, s, t, verifying, ch))
  {
    hide OnReceptions, HaltFailed, AwaitVerify, MarkReaderStopped;
    forall m: string, s': State ensures Unclaimed(HaltFailed(g, s', t, m)) {
      FailuresUnclaimed(g, s', t, m);
    }
  }

  lemma DrainClean(g: Gateway, s: State, t: Halt, ch: Choice)
    requires Clean(s) && s.pc == Drain(t)
    ensures Clean(DrainStep(g, s, t, ch))
  {
    hide IngestOr, HaltFailed, Exit, CleanFrom;
    if t.OnStop? {
      CleanAppend(s.handed, s.mark, s.exec.pending, t.c.sessionKey, s.cap.error, s.cap.error);
    }
    forall m: string, s': State ensures Unclaimed(HaltFailed(g, s', t, m)) {
      FailuresUnclaimed(g, s', t, m);
    }
    forall s': State ensures Unclaimed(Exit(g, s')) {
      FailuresUnclaimed(g, s', t, "");
    }
  }

  lemma CompletedClean(s: State, c: Command)
    requires s.rt.state.Idle? && (c.kind.Stop? ==> CleanSince(s) && s.owner == c.sessionKey)
    ensures Clean(CommandCompleted(s, c))
  {
    hide CleanFrom;
  }

  lemma {:induction false} SettleClean(g: Gateway, s: State, t: Halt, ch: Choice)
    requires Core(g, s) && Clean(s) && s.pc == Settle(t)
    ensures Clean(SettleStep(g, s, t, ch))
  {
    hide FinishOr, Degrade, HaltFailed, Exit, CommandCompleted, CleanFrom;
    match t
    case CleanUp(c, created, why) =>
      var r := FinishOr(s.db.sessions, c, Cancelled, ch.fail);
      if !created {
        FailuresUnclaimed(g, s, t, why);
      } else if r.Ok? {
        FailuresUnclaimed(g, s.(db := s.db.(sessions := r.value)), t, why);
      } else {
        FailuresUnclaimed(g, s, t, why + "; newly-created local session cleanup also failed: " + r.message);
      }
    case OnStop(c) =>
      var r := FinishOr(s.db.sessions, c, Closed, ch.fail);
      if r.Ok? {
        CompletedClean(s.(db := s.db.(sessions := r.value)), c);
      } else {
        FailuresUnclaimed(g, s, t, r.message);
      }
    case OnAbort(c) =>
      var r := FinishOr(s.db.sessions, c, Cancelled, None);
      FailuresUnclaimed(g, s, t, if ch.fail.Some? then ch.fail.value else "");
      CompletedClean(s, c);
      CompletedClean(s.(db := s.db.(sessions := if r.Ok? then r.value else map[])), c);
    case Shutdown(_) =>
  }

  lemma {:induction false} ControlClean(g: Gateway, s: State, ch: Choice)
    requires Core(g, s) && Clean(s) && Custody(LedgerOf(s))
    ensures Clean(ControlStep(g, s, ch))
  {
    hide HookStep, JoinStep, SendStep, SettleStep, OpenStep, AwaitStartStep, AwaitStopStep, DrainStep, Custody,
      SyncStep, AllSent, CleanFrom, HasActive;
    match s.pc
    case Syncing(c) => SyncClean(g, s, c, ch);
    case Opening(c, created) => OpenClean(g, s, c, created, ch);
    case AwaitingStart(c, created) => AwaitStartClean(g, s, c, created, ch);
    case Hooking(c, created) => HookClean(g, s, c, created, ch);
    case Join(t) => JoinClean(g, s, t, ch);
    case Send(t) => SendClean(g, s, t, ch);
    case AwaitingStop(t, verifying) => AwaitStopClean(g, s, t, verifying, ch);
    case Drain(t) => DrainClean(g, s, t, ch);
    case Settle(t) => SettleClean(g, s, t, ch);
    case _ =>
  }

  lemma SyncClean(g: Gateway, s: State, c: Command, ch: Choice)
    ensures Clean(SyncStep(g, s, c, ch))
  {
    hide Synchronize, CleanFrom;
  }

  /** The thread may fail to store a frame, but then it records the error. */
  lemma ThreadCleanSince(g: Gateway, s: State, ch: Choice)
    requires CleanSince(s)
    ensures CleanSince(ThreadStep(g, s, ch))
  {
    hide IngestOr, ListenStep, CleanFrom;
    match s.cap.thread
    case Alive(Listening) =>
      ListenKeepsHanded(g, s, ch);
      CleanWithoutStoreFault(s.handed, s.mark, s.cap.error, ListenStep(g, s, ch).cap.error);
    case Alive(Holding(frames)) =>
      var key := if s.cap.key.Some? then s.cap.key.value else "";
      CleanAppend(s.handed, s.mark, frames, key, s.cap.error, ThreadStep(g, s, ch).cap.error);
    case _ =>
  }

  lemma ListenKeepsHanded(g: Gateway, s: State, ch: Choice)
    ensures
      var s' := ListenStep(g, s, ch);
      && s'.handed == s.handed && s'.mark == s.mark
      && (s'.cap.error == s.cap.error || (s'.cap.error.Some? && s'.cap.error.value.ReceiveFault?))
      && (s'.cap.thread.Alive? ==> s'.cap.error == s.cap.error)
  {
    hide OnFrames;
  }

  lemma CleanWithoutStoreFault(handed: seq<Handed>, mark: nat, error: Option<Fault>, error': Option<Fault>)
    requires CleanFrom(handed, mark, error) && !StoreFailed(error) && !StoreFailed(error')
    ensures CleanFrom(handed, mark, error')
  {
  }

  lemma {:induction false} ThreadClean(g: Gateway, s: State, ch: Choice)
    requires Core(g, s) && Clean(s)
    ensures Clean(ThreadStep(g, s, ch))
  {
    hide ThreadStep, CleanFrom, AllSent;
    ThreadIsFramed(g, s, ch);
    if CleanSince(s) {
      ThreadCleanSince(g, s, ch);
    }
  }

  lemma {:induction false} StepClean(g: Gateway, s: State, a: Action)
    requires Core(g, s) && Clean(s) && Custody(LedgerOf(s))
    ensures Clean(Step(g, s, a))
  {
    hide ControlStep, ThreadStep, Custody, Core, OtherDb, QueueEvent, PlanCommand, CleanFrom, ReceiveStep, InterruptStep, Finish;
    match a
    case Control(ch) => ControlClean(g, s, ch);
    case Thread(ch) => ThreadClean(g, s, ch);
    case Receive(c) => ReceiveClean(g, s, c);
    case Interrupt => InterruptClean(g, s);
    case _ =>
  }

  lemma ReceiveClean(g: Gateway, s: State, c: Command)
    requires Core(g, s) && Clean(s)
    ensures Clean(ReceiveStep(s, c))
  {
    hide PlanCommand, CleanFrom, AllSent;
    if WellFormed(c) {
      AcceptedIff(s.rt, c);
    }
  }

  lemma InterruptClean(g: Gateway, s: State)
    ensures Clean(InterruptStep(g, s)) || InterruptStep(g, s) == s
  {
    hide CleanFrom;
  }
}
