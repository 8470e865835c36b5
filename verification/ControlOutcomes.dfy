/**
  What each effect of the control thread leaves behind, from any state in which
  the record, the connection, the thread and the row agree.
 */
module ControlOutcomes {
  import opened Wrappers
  import opened Crc
  import opened ReaderProtocol
  import opened Store
  import opened RuntimeState
  import opened SessionService
  import opened DeliveryBarrier
  import opened TagIngestion
  import opened StoreEvolution
  import opened ReaderExecutor
  import opened CaptureService
  import opened ControlMachine
  import opened ControlInvariant

  /** Nothing has been sent to the reader, and the connection is as it was. */
  predicate ReaderUntouched(s: State, s': State) {
    s'.exec == s.exec && s'.cap == s.cap && s'.radio == s.radio && s'.quiet == s.quiet
  }

  /** The record has degraded with this text, or, for a blank text, shutdown has begun. */
  predicate DegradedWith(s: State, s': State, why: string) {
    if Strip(why) == "" then s'.rt == s.rt && s'.pc.Join? && s'.pc.t.Shutdown?
    else s'.pc.Ready? && s'.rt == Fresh(s.rt.readerCode, Degraded, s.rt.sessionKey, s.rt.lastRevision, Some(Strip(why)))
  }

  lemma DegradeMeans(s: State, why: string)
    ensures DegradedWith(s, Degrade(s, why), why)
    ensures Degrade(s, why) == s.(rt := Degrade(s, why).rt, pc := Degrade(s, why).pc) && !Degrade(s, why).pc.Send?
  {
    hide Strip;
  }

  lemma FailedMeans(g: Gateway, s: State, t: Halt, why: string)
    ensures
      var s' := HaltFailed(g, s, t, why);
      && s'.db == s.db && s'.radio == s.radio && !s'.pc.Send?
      && (!t.Shutdown? ==> s'.exec == s.exec && s'.handed == s.handed && s'.cap == s.cap && s'.quiet == s.quiet)
      && match t
         case CleanUp(_, _, _) => s'.pc.Settle? && s'.rt == s.rt
         case Shutdown(_) => s'.pc.Down? && s'.exec == INACTIVE
         case _ => DegradedWith(s, s', why)
  {
    hide Degrade, DegradedWith;
    DegradeMeans(s, why);
  }

  /** START's row: ACTIVE on this reader afterwards, or the command fails and nothing has changed. */
  lemma SyncOutcome(g: Gateway, s: State, c: Command, ch: Choice)
    requires Core(g, s) && s.pc == Syncing(c) && OneActive(s.db.sessions)
    ensures
      var s' := ControlStep(g, s, ch);
      && ReaderUntouched(s, s') && s'.db.events == s.db.events
      && if ch.fail.None? && Synchronize(s.db.sessions, g.devices, c).Ok?
         then s'.pc == Opening(c, c.sessionKey !in s.db.sessions) && RowIs(g, s', c.sessionKey, Status.Active)
         else s'.pc.Settle? && s'.pc.t.CleanUp? && !s'.pc.t.created && s'.db == s.db
  {
    hide Synchronize, OneActive;
    SynchronizeFacts(s.db.sessions, g.devices, c);
    SyncCreates(s.db.sessions, g.devices, c);
  }

  lemma SyncCreates(sessions: map<string, Session>, devices: map<string, Device>, c: Command)
    ensures
      var r := Synchronize(sessions, devices, c);
      r.Ok? ==> r.value.1 == (c.sessionKey !in sessions)
  {
  }

  /** START is sent on a fresh connection, or nothing is held and the row is cleaned up. */
  lemma OpenOutcome(g: Gateway, s: State, c: Command, created: bool, ch: Choice)
    requires Core(g, s) && s.pc == Opening(c, created)
    ensures
      var s' := ControlStep(g, s, ch);
      && s'.rt == s.rt && s'.cap == s.cap && s'.db == s.db && s'.exec.pending == []
      && (if ch.link.Refused? then s'.radio == s.radio && s'.quiet == s.quiet && s'.owner == s.owner
          else s'.radio == s.radio + [StartFrame(c.sessionKey)] && !s'.quiet && s'.owner == c.sessionKey && s'.mark == |s.captured|)
      && match ch.link
         case Up => s'.pc == AwaitingStart(c, created) && s'.exec.open && s'.exec.key.None?
         case Refused(m) => s'.pc == Settle(CleanUp(c, created, m)) && Unconnected(s')
         case SendFailed(m) => s'.pc == Settle(CleanUp(c, created, m)) && Unconnected(s')
  {
  }

  /** START answered: READING under the key on a live connection; not answered: no connection, and the clean-up. */
  lemma AwaitStartOutcome(g: Gateway, s: State, c: Command, created: bool, ch: Choice)
    requires Core(g, s) && s.pc == AwaitingStart(c, created)
    ensures
      var s' := ControlStep(g, s, ch);
      && s'.db == s.db && s.exec.pending <= s'.exec.pending
      && match AwaitStart(s.exec, g.reader, c.sessionKey, ch.receptions).1
         case Ok(_) => s'.pc == Hooking(c, created) && Planned(g, s', c, Reading) && Live(s', c.sessionKey)
         case Err(m) => s'.pc == Settle(CleanUp(c, created, m)) && Planned(g, s', c, Starting) && Unconnected(s')
  {
    hide OnReceptions;
  }

  /** Capturing starts on the live connection and START is completed, or the emergency stop begins. */
  lemma HookOutcome(g: Gateway, s: State, c: Command, created: bool, ch: Choice)
    requires Core(g, s) && s.pc == Hooking(c, created)
    ensures
      var s' := ControlStep(g, s, ch);
      && s'.exec == s.exec && s'.db == s.db && s'.cap.key == Some(c.sessionKey) && s'.cap.error.None?
      && match ch.fail
         case None =>
           s'.pc == Ack(c) && IsCompleted(s'.rt, c) && s'.rt.state.Reading? && s'.cap.thread == Alive(Top) && !s'.cap.stop
         case Some(m) => s'.pc == Join(CleanUp(c, created, m)) && s'.rt == s.rt && s'.cap.thread.Unstarted?
  {
  }

  /** The stop sequence goes on to the reader only once no capture thread is left. */
  lemma JoinOutcome(g: Gateway, s: State, t: Halt, ch: Choice)
    requires Core(g, s) && s.pc == Join(t)
    ensures
      var s' := ControlStep(g, s, ch);
      && s'.db == s.db && s'.radio == s.radio
      && (s'.pc.Send? ==> s'.pc.t == t && Alone(s') && !s.cap.thread.Alive? && s'.exec == s.exec && s'.rt == s.rt)
      && (s.cap.thread.Alive? && ch.fail.None? && (HaltKey(t).Some? ==> s.cap.key == HaltKey(t)) ==>
          s' == s.(cap := s.cap.(stop := true)))
  {
    hide StopHook, HaltFailed, Exit, HaltBefore, DegradedWith;
    var reader := if t.Shutdown? && t.k.None? then None else Some(g.reader.code);
    var stopped := StopHook(s.cap, g.reader, HaltKey(t), reader, ch.fail);
    StoppedMeansAlone(s.cap, g.reader, HaltKey(t), reader, ch.fail);
    if s.cap.thread.Alive? && ch.fail.None? && (HaltKey(t).Some? ==> s.cap.key == HaltKey(t)) {
      HookWaits(s.cap, g.reader, HaltKey(t), reader, ch.fail);
    }
    ExitFrame(g, s);
    if stopped.StopFailed? {
      FailedMeans(g, s.(cap := stopped.capture), t, stopped.message);
    }
  }

  lemma ExitFrame(g: Gateway, s: State)
    ensures Exit(g, s).db == s.db && Exit(g, s).radio == s.radio && Exit(g, s).pc.Down? && Exit(g, s).exec == INACTIVE
  {
  }

  lemma HookWaits(c: Capture, device: Device, key: Option<string>, reader: Option<string>, timeout: Option<string>)
    requires c.thread.Alive? && timeout.None? && (key.Some? ==> c.key == key) && (reader.None? || reader == Some(device.code))
    ensures StopHook(c, device, key, reader, timeout) == Joining(c.(stop := true))
  {
  }

  /**
    STOP is sent on the running connection, or on one of its own when ABORT finds
    none; when that fails nothing is held any more, whatever the failure.
   */
  lemma SendOutcome(g: Gateway, s: State, t: Halt, ch: Choice)
    requires Core(g, s) && s.pc == Send(t)
    ensures
      var s' := ControlStep(g, s, ch);
      && s'.db == s.db && (!s'.pc.Down? ==> s'.cap == s.cap && s'.quiet == s.quiet && s'.exec.pending == s.exec.pending)
      && s'.radio == (if ch.link.Refused? then s.radio else s.radio + [StopFrame])
      && if ch.link.Up?
         then s'.rt == s.rt && s'.pc == AwaitingStop(t, !Running(s.exec)) && s'.exec == s.exec
         else
           && Unconnected(s')
           && (t.OnStop? || t.OnAbort? ==> DegradedWith(s, s', ch.link.message) && s'.rt.sessionKey == Some(t.c.sessionKey))
           && (t.Shutdown? ==> s'.pc.Down?)
           && (t.CleanUp? ==> s'.pc.Settle? && s'.rt == s.rt)
  {
    hide HaltFailed, DegradedWith, Exit;
    SendGoes(g, s, t, ch);
    hide ControlStep;
    if !ch.link.Up? {
      var at := StopSent(s, ch.link.SendFailed?).(exec := s.exec.(open := false, key := None));
      var s' := HaltFailed(g, at, t, ch.link.message);
      FailedMeans(g, at, t, ch.link.message);
      DegradedFrame(s, at, s', ch.link.message);
      DegradedKeepsKey(at, s', ch.link.message);
    }
  }

  lemma SendGoes(g: Gateway, s: State, t: Halt, ch: Choice)
    requires Core(g, s) && s.pc == Send(t)
    ensures
      var s' := ControlStep(g, s, ch);
      if ch.link.Up? then s' == StopSent(s, true).(pc := AwaitingStop(t, !Running(s.exec)))
      else
        var at := StopSent(s, ch.link.SendFailed?).(exec := s.exec.(open := false, key := None));
        s' == HaltFailed(g, at, t, ch.link.message)
  {
    hide HaltFailed, Exit;
  }

  /**
    The STOP answer: confirmed, the connection is closed, the reader quiet and the
    record of STOP and ABORT cleared; otherwise the connection is closed all the
    same and STOP and ABORT degrade with their key.
   */
  lemma AwaitStopOutcome(g: Gateway, s: State, t: Halt, verifying: bool, ch: Choice)
    requires Core(g, s) && s.pc == AwaitingStop(t, verifying)
    ensures
      var s' := ControlStep(g, s, ch);
      var r := if verifying then AwaitVerify(g.reader, ch.receptions) else AwaitStop(s.exec, g.reader, ch.receptions).1;
      && s'.db == s.db && Unconnected(s')
      && match r
         case Ok(_) =>
           && s'.pc == Drain(t) && s'.quiet
           && (t.OnStop? || t.OnAbort? ==> Cleared(g, s', t.c))
           && (t.CleanUp? || t.Shutdown? ==> s'.rt == s.rt)
         case Err(m) =>
           && (t.OnStop? || t.OnAbort? ==> DegradedWith(s, s', m) && s'.rt.sessionKey == Some(t.c.sessionKey))
           && (t.Shutdown? ==> s'.pc.Down?)
           && (t.CleanUp? ==> s'.pc.Settle? && s'.rt == s.rt)
  {
    hide OnReceptions, AwaitVerify, HaltFailed, DegradedWith;
    var (exec, stopped) := AwaitStop(s.exec, g.reader, ch.receptions);
    var at := if verifying then s else Buffered(s, exec);
    var r := if verifying then AwaitVerify(g.reader, ch.receptions) else stopped;
    if r.Err? {
      FailedMeans(g, at, t, r.message);
      DegradedFrame(s, at, HaltFailed(g, at, t, r.message), r.message);
      DegradedKeepsKey(at, HaltFailed(g, at, t, r.message), r.message);
    }
  }

  /** Degrading looks at the record only, and keeps its key. */
  lemma DegradedFrame(s: State, at: State, s': State, why: string)
    requires at.rt == s.rt
    ensures DegradedWith(at, s', why) <==> DegradedWith(s, s', why)
  {
    hide Strip;
  }

  lemma DegradedKeepsKey(s: State, s': State, why: string)
    ensures DegradedWith(s, s', why) ==> s'.rt.sessionKey == s.rt.sessionKey
  {
    hide Strip;
  }

  /** Draining empties the buffer whether or not the frames could be stored, and hands over all of it. */
  lemma DrainOutcome(g: Gateway, s: State, t: Halt, ch: Choice)
    requires Core(g, s) && s.pc == Drain(t)
    ensures
      var s' := ControlStep(g, s, ch);
      var (drained, r) := DrainPending(g, s, HaltKey(t).value, ch.fail);
      && s'.exec.pending == [] && s'.db == drained.db && s'.db.sessions == s.db.sessions
      && (!t.Shutdown? ==>
          s'.handed == s.handed + Hand(s.exec.pending, HaltKey(t).value, r.Ok?))
      && match r
         case Ok(_) => s'.pc == if t.Shutdown? then Down else Settle(t)
         case Err(m) =>
           && (t.OnStop? || t.OnAbort? ==> DegradedWith(s, s', m) && s'.rt.sessionKey.None?)
           && (t.Shutdown? ==> s'.pc.Down?)
           && (t.CleanUp? ==> s'.pc.Settle? && s'.rt == s.rt)
  {
    hide IngestOr, HaltFailed, DegradedWith, Exit;
    var key := HaltKey(t).value;
    DrainFrame(g, s, key, ch.fail);
    assert Hand([], key, true) == [] && s.handed + [] == s.handed;
    var (drained, r) := DrainPending(g, s, key, ch.fail);
    ExitFrame(g, drained);
    if r.Err? {
      FailedMeans(g, drained, t, r.message);
      DegradedFrame(s, drained, HaltFailed(g, drained, t, r.message), r.message);
      DegradedKeepsKey(drained, HaltFailed(g, drained, t, r.message), r.message);
    }
  }

  /** STOP ends with its row CLOSED and the command remembered, or degrades with the row as it was. */
  lemma CloseOutcome(g: Gateway, s: State, c: Command, ch: Choice)
    requires Core(g, s) && s.pc == Settle(OnStop(c)) && OneActive(s.db.sessions)
    ensures
      var s' := ControlStep(g, s, ch);
      && s'.db.events == s.db.events
      && match ch.fail
         case None =>
           && s'.pc == Barrier(c) && RowIs(g, s', c.sessionKey, Closed)
           && IsCompleted(s'.rt, c) && s'.rt.state.Idle? && s'.rt.sessionKey.None?
         case Some(m) => DegradedWith(s, s', m) && s'.db == s.db
  {
    hide Degrade, DegradedWith, Finish, OneActive;
    FinishFacts(s.db.sessions, c.sessionKey, c.readerCode, Closed);
    if ch.fail.Some? {
      DegradeMeans(s, ch.fail.value);
    }
  }

  /** ABORT ends with its ACTIVE row CANCELLED, any other row untouched, and the command remembered. */
  lemma CancelOutcome(g: Gateway, s: State, c: Command, ch: Choice)
    requires Core(g, s) && s.pc == Settle(OnAbort(c)) && OneActive(s.db.sessions)
    ensures
      var s' := ControlStep(g, s, ch);
      && s'.db.events == s.db.events
      && match ch.fail
         case None =>
           && s'.pc == Ack(c) && IsCompleted(s'.rt, c) && s'.rt.state.Idle? && s'.rt.sessionKey.None?
           && (if RowIs(g, s, c.sessionKey, Status.Active) then RowIs(g, s', c.sessionKey, Cancelled)
               else s'.db == s.db)
         case Some(m) => DegradedWith(s, s', m) && s'.db == s.db
  {
    hide Degrade, DegradedWith, Finish, OneActive;
    FinishFacts(s.db.sessions, c.sessionKey, c.readerCode, Cancelled);
    if ch.fail.Some? {
      DegradeMeans(s, ch.fail.value);
    }
  }

  const CLEANUP_FAILED := "; newly-created local session cleanup also failed: "

  /**
    A failed START cancels the row it created, unless that fails too, leaves any
    other row alone, and degrades with the composed text.
   */
  lemma CleanUpOutcome(g: Gateway, s: State, c: Command, created: bool, why: string, ch: Choice)
    requires Core(g, s) && s.pc == Settle(CleanUp(c, created, why)) && OneActive(s.db.sessions)
    ensures
      var s' := ControlStep(g, s, ch);
      && s'.exec == s.exec && s'.db.events == s.db.events
      && (if created && ch.fail.None? then RowIs(g, s', c.sessionKey, Cancelled) else s'.db == s.db)
      && DegradedWith(s, s', if created && ch.fail.Some? then why + CLEANUP_FAILED + ch.fail.value else why)
  {
    hide Degrade, DegradedWith, Finish, OneActive;
    FinishFacts(s.db.sessions, c.sessionKey, c.readerCode, Cancelled);
    var r := FinishOr(s.db.sessions, c, Cancelled, ch.fail);
    var at := if created && r.Ok? then s.(db := s.db.(sessions := r.value)) else s;
    var text := if created && r.Err? then why + CLEANUP_FAILED + r.message else why;
    DegradeMeans(at, text);
    DegradedFrame(s, at, Degrade(at, text), text);
  }

  /** What a command leaves on arrival: nothing, only the ACK to send, or its planned record. */
  lemma ReceiveOutcome(g: Gateway, s: State, c: Command)
    requires Core(g, s) && s.pc.Ready? && WellFormed(c)
    ensures
      var s' := ReceiveStep(s, c);
      && s' == s.(rt := s'.rt, pc := s'.pc)
      && match PlanCommand(s.rt, c)
         case Err(_) => s' == s
         case Ok(Duplicate) => s'.rt == s.rt && s'.pc == (if c.kind.Stop? then Barrier(c) else Ack(c)) && IsCompleted(s.rt, c)
         case Ok(Accept(_)) =>
           && Planned(g, s', c, if c.kind.Start? then Starting else Stopping)
           && s'.pc == match c.kind case Start => Syncing(c) case Stop => Join(OnStop(c)) case Abort => Join(OnAbort(c))
  {
    hide AllSent, CompletionOk, PlanCommand;
    OtherReaderRefused(s.rt, c);
    var plan := PlanCommand(s.rt, c);
    if plan.Ok? && plan.value.Duplicate? {
      DuplicateMeans(s.rt, c);
    }
    AcceptedIff(s.rt, c);
  }

  lemma OtherReaderRefused(rt: Runtime, c: Command)
    ensures c.readerCode != rt.readerCode ==> PlanCommand(rt, c).Err?
  {
  }

  /** SIGTERM: from the worker loop into a shutdown that stops the reader iff a connection is active. */
  lemma InterruptOutcome(g: Gateway, s: State)
    requires Core(g, s) && !s.pc.Down?
    ensures
      var s' := InterruptStep(g, s);
      && s'.db == s.db && s'.radio == s.radio
      && if s.pc.BootSend? || s.pc.BootAwait? || s.pc.BootGate?
            || (s.pc.Join? && s.pc.t.Shutdown?) || (s.pc.Send? && s.pc.t.Shutdown?)
            || (s.pc.AwaitingStop? && s.pc.t.Shutdown?) || (s.pc.Drain? && s.pc.t.Shutdown?)
         then s'.pc.Down?
         else
           && s'.rt == s.rt && s'.cap == s.cap && s'.exec.pending == s.exec.pending
           && s'.pc == Join(Shutdown(if Running(s'.exec) then s'.rt.sessionKey else None))
           && (if s.pc.AwaitingStop? && !s.pc.verifying then Unconnected(s') else s'.exec == s.exec)
  {
    hide AllSent;
  }
}
