/** The guarantees of the session-control protocol, over every run. */
module ControlTheorems {
  import opened Wrappers
  import opened Crc
  import opened ReaderProtocol
  import opened Store
  import opened RuntimeState
  import opened SessionService
  import opened DeliveryBarrier
  import opened TagIngestion
  import opened IngestionUnion
  import opened StoreEvolution
  import opened ReaderExecutor
  import opened CaptureService
  import opened ControlMachine
  import opened ControlInvariant
  import opened FrameCustody
  import opened StopGuarantee
  import opened SessionContents

  // ------------------------------------------------------ ACKs and radio frames

  lemma FailuresKeepLog(g: Gateway, s: State, t: Halt, why: string)
    ensures Log(HaltFailed(g, s, t, why)) == Log(s)
    ensures Log(Degrade(s, why)) == Log(s)
    ensures Log(Exit(g, s)) == Log(s)
  {
    hide MarkDegraded;
  }

  /** What has left the worker: success ACKs and request frames. */
  function Log(s: State): (seq<Command>, seq<Radio>) {
    (s.acks, s.radio)
  }

  /** No frame, a STOP frame, or the START frame of the command being opened. */
  predicate OneFrame(s: State, s': State) {
    || s'.radio == s.radio
    || s'.radio == s.radio + [StopFrame]
    || (s.pc.Opening? && s'.radio == s.radio + [StartFrame(s.pc.c.sessionKey)])
  }

  lemma OpenLog(g: Gateway, s: State, c: Command, created: bool, ch: Choice)
    requires s.pc == Opening(c, created)
    ensures OneFrame(s, OpenStep(g, s, c, created, ch)) && OpenStep(g, s, c, created, ch).acks == s.acks
  {
    hide SendStart, MarkReaderStarted;
  }

  lemma JoinLog(g: Gateway, s: State, t: Halt, ch: Choice)
    ensures Log(JoinStep(g, s, t, ch)) == Log(s)
  {
    hide StopHook, MarkDegraded;
  }

  lemma SendLog(g: Gateway, s: State, t: Halt, ch: Choice)
    ensures OneFrame(s, SendStep(g, s, t, ch)) && SendStep(g, s, t, ch).acks == s.acks
  {
    hide SendStop, MarkDegraded;
  }

  lemma AwaitStopLog(g: Gateway, s: State, t: Halt, verifying: bool, ch: Choice)
    ensures Log(AwaitStopStep(g, s, t, verifying, ch)) == Log(s)
  {
    hide OnReceptions, AwaitVerify, MarkDegraded, MarkReaderStopped;
  }

  lemma DrainLog(g: Gateway, s: State, t: Halt, ch: Choice)
    ensures Log(DrainStep(g, s, t, ch)) == Log(s)
  {
    hide IngestOr, MarkDegraded;
  }

  lemma SettleLog(g: Gateway, s: State, t: Halt, ch: Choice)
    ensures Log(SettleStep(g, s, t, ch)) == Log(s)
  {
    hide FinishOr, MarkDegraded, MarkCommandCompleted;
  }

  lemma {:induction false} StartLog(g: Gateway, s: State, c: Command, created: bool, ch: Choice)
    ensures Log(SyncStep(g, s, c, ch)) == Log(s)
    ensures Log(AwaitStartStep(g, s, c, created, ch)) == Log(s)
    ensures Log(HookStep(g, s, c, created, ch)) == Log(s)
  {
    hide Synchronize, OnReceptions, StartCapture, MarkReaderStarted, MarkCommandCompleted;
  }

  lemma {:induction false} ControlLog(g: Gateway, s: State, ch: Choice)
    ensures OneFrame(s, ControlStep(g, s, ch))
    ensures ControlStep(g, s, ch).acks == if s.pc.Ack? then s.acks + [s.pc.c] else s.acks
  {
    hide HookStep, JoinStep, SendStep, SettleStep, OpenStep, AwaitStartStep, AwaitStopStep, DrainStep, SyncStep, AllSent, HasActive;
    match s.pc
    case Syncing(c) => StartLog(g, s, c, false, ch);
    case Opening(c, created) => OpenLog(g, s, c, created, ch);
    case AwaitingStart(c, created) => StartLog(g, s, c, created, ch);
    case Hooking(c, created) => StartLog(g, s, c, created, ch);
    case Join(t) => JoinLog(g, s, t, ch);
    case Send(t) => SendLog(g, s, t, ch);
    case AwaitingStop(t, verifying) => AwaitStopLog(g, s, t, verifying, ch);
    case Drain(t) => DrainLog(g, s, t, ch);
    case Settle(t) => SettleLog(g, s, t, ch);
    case _ =>
  }

  lemma {:induction false} StepLog(g: Gateway, s: State, a: Action)
    ensures OneFrame(s, Step(g, s, a))
    ensures Step(g, s, a).acks == if s.pc.Ack? && a.Control? then s.acks + [s.pc.c] else s.acks
  {
    hide ControlStep, ThreadStep, OtherDb, QueueEvent, Finish, PlanCommand;
    match a
    case Control(ch) => ControlLog(g, s, ch);
    case Thread(ch) => ThreadIsFramed(g, s, ch);
    case _ =>
  }

  // --------------------------------------------------------------- the invariant

  /** Every STOP that was acknowledged as a success is final. */
  ghost predicate AcksFinal(g: Gateway, s: State) {
    forall c :: c in s.acks && c.kind.Stop? ==> Final(s.db, c.sessionKey, g.reader.code)
  }

  ghost predicate Inv(g: Gateway, s: State) {
    && Core(g, s) && StoreOk(g.digest, s.db)
    && Kept(LedgerOf(s)) && StoredRows(g, s) && Clean(s) && Contents(g, LedgerOf(s), s.db.events)
    && AcksFinal(g, s)
  }

  lemma {:induction false} StepAcks(g: Gateway, s: State, a: Action)
    requires Core(g, s) && StoreOk(g.digest, s.db) && AcksFinal(g, s)
    ensures AcksFinal(g, Step(g, s, a))
  {
    hide Core, StoreOk, Evolves, Final, Step;
    var s' := Step(g, s, a);
    StepLog(g, s, a);
    StepCore(g, s, a);
    forall c | c in s'.acks && c.kind.Stop? ensures Final(s'.db, c.sessionKey, g.reader.code) {
      if c !in s.acks {
        AckedRow(g, s);
      }
      FinalIsForever(s.db, s'.db, c.sessionKey, g.reader.code);
    }
  }

  lemma {:induction false} StepInv(g: Gateway, s: State, a: Action)
    requires Inv(g, s)
    ensures Inv(g, Step(g, s, a)) && Evolves(s.db, Step(g, s, a).db)
  {
    hide Core, StoreOk, Custody, Marked, StoredRows, Clean, Contents, AcksFinal, Step, Evolves;
    StepCore(g, s, a);
    StepKeeps(g, s, a);
    StepStored(g, s, a);
    StepClean(g, s, a);
    StepContents(g, s, a);
    StepAcks(g, s, a);
  }

  lemma InitialInv(g: Gateway, db: Db)
    requires StoreOk(g.digest, db)
    ensures Inv(g, Initial(g, db))
  {
    hide StoreOk;
    assert Tag([] + [], "") == [];
  }

  lemma {:induction false} RunInv(g: Gateway, s: State, p: seq<Action>)
    requires Inv(g, s)
    ensures Inv(g, Run(g, s, p))
    decreases |p|
  {
    hide Inv, Step;
    if p != [] {
      StepInv(g, s, p[0]);
      RunInv(g, Step(g, s, p[0]), p[1..]);
    }
  }

  /** The state after a run from any lawful database, with the reader in any state. */
  ghost function After(g: Gateway, db: Db, p: seq<Action>): State {
    Run(g, Initial(g, db), p)
  }

  lemma Reachable(g: Gateway, db: Db, p: seq<Action>)
    requires StoreOk(g.digest, db)
    ensures Inv(g, After(g, db, p))
  {
    hide Inv;
    InitialInv(g, db);
    RunInv(g, Initial(g, db), p);
  }

  // --------------------------------------------------------------- STOP ACK

  /** The session keeps the rows it has, and gets no other. */
  ghost predicate NothingAdded(before: Db, after: Db, key: string) {
    && |before.events| <= |after.events|
    && (forall i :: 0 <= i < |before.events| ==> Later(before.events[i], after.events[i]))
    && forall i :: |before.events| <= i < |after.events| ==> after.events[i].session != Some(key)
  }

  lemma {:induction false} FinalOverRun(g: Gateway, s: State, q: seq<Action>, key: string)
    requires Inv(g, s) && Final(s.db, key, g.reader.code)
    ensures Final(Run(g, s, q).db, key, g.reader.code) && NothingAdded(s.db, Run(g, s, q).db, key)
    decreases |q|
  {
    hide Inv, Step, AllSent, Advances;
    if q != [] {
      var next := Step(g, s, q[0]);
      StepInv(g, s, q[0]);
      FinalIsForever(s.db, next.db, key, g.reader.code);
      NoRowAdded(s.db, next.db, key);
      FinalOverRun(g, next, q[1..], key);
      var last := Run(g, s, q).db.events;
      forall i | 0 <= i < |next.db.events| ensures last[i].session == next.db.events[i].session {
        assert Later(next.db.events[i], last[i]);
      }
    }
  }

  /**
    In every interleaving: once a success ACK for STOP of a session has been sent,
    from then on and forever the session is CLOSED on this reader, every final
    event of it is SENT, and no event is added to it.
   */
  lemma {:induction false} StopAckFinality(g: Gateway, db: Db, p: seq<Action>, q: seq<Action>, c: Command)
    requires StoreOk(g.digest, db)
    requires c in After(g, db, p).acks && c.kind.Stop?
    ensures
      var now, later := After(g, db, p), Run(g, After(g, db, p), q);
      && Final(now.db, c.sessionKey, g.reader.code)
      && Final(later.db, c.sessionKey, g.reader.code)
      && NothingAdded(now.db, later.db, c.sessionKey)
  {
    hide Core, StoreOk, Custody, Marked, StoredRows, Clean, Final;
    Reachable(g, db, p);
    FinalOverRun(g, After(g, db, p), q, c.sessionKey);
  }

  // --------------------------------------------------------- frames and sessions

  /**
    In every run, the ingestor got the captured frames one by one in order, each
    under the session it was captured in; the rest is in the thread's hands or in
    the buffer.
   */
  lemma {:induction false} EveryFrameAccounted(g: Gateway, db: Db, p: seq<Action>)
    requires StoreOk(g.digest, db)
    ensures
      var s := After(g, db, p);
      && |s.captured| == |s.handed| + |InHands(s.cap)| + |s.exec.pending|
      && (forall i :: 0 <= i < |s.handed| ==> s.captured[i] == Tagged(s.handed[i].frame, s.handed[i].session))
      && (forall i :: 0 <= i < |InHands(s.cap)| ==> s.captured[|s.handed| + i] == Tagged(InHands(s.cap)[i], s.owner))
      && (forall i :: 0 <= i < |s.exec.pending| ==>
            s.captured[|s.handed| + |InHands(s.cap)| + i] == Tagged(s.exec.pending[i], s.owner))
  {
    hide Core, StoreOk, Marked, StoredRows, Clean, Contents, AcksFinal;
    Reachable(g, db, p);
  }

  /** The session's row for a captured frame's EPC. */
  ghost predicate FrameHasRow(g: Gateway, events: seq<Event>, session: string, frame: Frame) {
    HasRow(events, g.digest, g.reader.code, session, EpcOf(frame))
  }

  /** Every frame captured since the last START frame has its row. */
  ghost predicate AllHaveRows(g: Gateway, s: State, events: seq<Event>) {
    forall i :: s.mark <= i < |s.captured| ==> FrameHasRow(g, events, s.owner, s.captured[i].frame)
  }

  /** Every frame that was not stored shows a tag that the session has anyway. */
  ghost predicate Covered(s: State) {
    forall i :: s.mark <= i < |s.handed| && !s.handed[i].stored ==> Redundant(s, s.handed[i].frame)
  }

  /** The tag had a row when START was sent, or was stored from another frame since. */
  ghost predicate Redundant(s: State, frame: Frame) {
    EpcOf(frame) in s.known + StoredEpcs(s.handed, s.mark)
  }

  lemma RowIffEpc(events: seq<Event>, digest: Digest, reader: string, session: string, epc: string)
    requires KeyedRows(events, digest)
    ensures HasRow(events, digest, reader, session, epc) <==> epc in Epcs(events, reader, session)
  {
    hide EventKey;
    if HasRow(events, digest, reader, session, epc) {
      var i :| 0 <= i < |events| && IsRowOf(events[i], digest, reader, session, epc);
      KeyIsFinal(digest, session, epc);
      assert InSession(events[i], session, reader);
    }
    if epc in Epcs(events, reader, session) {
      var i :| 0 <= i < |events| && InSession(events[i], session, reader) && events[i].epc == epc;
      assert KeyedRow(events[i], digest);
      assert IsRowOf(events[i], digest, reader, session, epc);
    }
  }

  /** With all frames handed over, the rows are there exactly if no unstored frame was the only one of its tag. */
  lemma RowsIffCovered(g: Gateway, s: State)
    requires KeyedRows(s.db.events, g.digest) && Contents(g, LedgerOf(s), s.db.events)
    requires s.owner != "" && s.captured == Passed(s.handed) && CleanSince(s)
    ensures AllHaveRows(g, s, s.db.events) <==> (StoreFailed(s.cap.error) ==> Covered(s))
  {
    hide HasRow, EpcOf, Epcs, KeyedRows;
    forall i | s.mark <= i < |s.handed|
      ensures FrameHasRow(g, s.db.events, s.owner, s.handed[i].frame) <==> Redundant(s, s.handed[i].frame)
      ensures s.handed[i].stored ==> Redundant(s, s.handed[i].frame)
    {
      RowIffEpc(s.db.events, g.digest, g.reader.code, s.owner, EpcOf(s.handed[i].frame));
      assert s.handed[i].stored ==> EpcOf(s.handed[i].frame) in StoredEpcs(s.handed, s.mark);
    }
    assert forall i :: 0 <= i < |s.handed| ==> s.captured[i].frame == s.handed[i].frame;
    if AllHaveRows(g, s, s.db.events) {
      forall i | s.mark <= i < |s.handed| && !s.handed[i].stored ensures Redundant(s, s.handed[i].frame) {
        assert FrameHasRow(g, s.db.events, s.owner, s.captured[i].frame);
      }
    }
  }

  /** A STOP between its STOP frame's answer and its ACK: nothing is buffered or held. */
  lemma StopHandsOver(g: Gateway, s: State, c: Command)
    requires Inv(g, s)
    requires s.pc == Settle(OnStop(c)) || (s.pc == Barrier(c) || (s.pc == Ack(c) && c.kind.Stop?))
    ensures s.captured == Passed(s.handed) && CleanSince(s) && s.owner == c.sessionKey && s.owner != ""
    ensures KeyedRows(s.db.events, g.digest)
  {
    hide AllSent, StoredRows, AcksFinal, Contents, CleanFrom, OneActive, UniqueKeys, KeyedRow, RowIs;
    assert Tag([] + [], s.owner) == [];
  }

  /**
    STOP completes: just before the row is closed it is still ACTIVE and every
    captured frame has been handed over. Every frame captured since this session's
    START has its row exactly if the tag ingestor did not raise in the capture
    thread, or what it failed to store was redundant.
   */
  lemma {:induction false} StopStoresEverything(g: Gateway, db: Db, p: seq<Action>, ch: Choice, c: Command)
    requires StoreOk(g.digest, db)
    requires After(g, db, p).pc == Settle(OnStop(c)) && Step(g, After(g, db, p), Control(ch)).pc == Barrier(c)
    ensures
      var s, s' := After(g, db, p), Step(g, After(g, db, p), Control(ch));
      && RowIs(g, s, c.sessionKey, Status.Active) && RowIs(g, s', c.sessionKey, Closed)
      && s.captured == Passed(s.handed) && s.owner == c.sessionKey
      && (forall i :: s.mark <= i < |s.captured| ==> s.captured[i].session == c.sessionKey)
      && s'.db.events == s.db.events
      && (AllHaveRows(g, s, s.db.events) <==> (StoreFailed(s.cap.error) ==> Covered(s)))
  {
    hide StoreOk, AcksFinal, HasRow, EpcOf, Evolves, Custody, Contents, AllHaveRows, Covered, StoredRows, CleanFrom;
    var s, s' := After(g, db, p), Step(g, After(g, db, p), Control(ch));
    Reachable(g, db, p);
    StepInv(g, s, Control(ch));
    ControlKeepsEvents(g, s, ch);
    StopHandsOver(g, s, c);
    RowsIffCovered(g, s);
  }

  /** A SENT row for this EPC. */
  ghost predicate Delivered(events: seq<Event>, digest: Digest, reader: string, session: string, epc: string) {
    exists i :: 0 <= i < |events| && IsRowOf(events[i], digest, reader, session, epc) && events[i].state.Sent?
  }

  /** Behind the barrier a row is a delivered one. */
  lemma RowIsDelivered(g: Gateway, s: State, key: string, epc: string)
    requires AllSent(s.db.events, key, g.reader.code)
    ensures HasRow(s.db.events, g.digest, g.reader.code, key, epc) <==> Delivered(s.db.events, g.digest, g.reader.code, key, epc)
  {
    hide EventKey;
    if HasRow(s.db.events, g.digest, g.reader.code, key, epc) {
      var row :| 0 <= row < |s.db.events| && IsRowOf(s.db.events[row], g.digest, g.reader.code, key, epc);
      KeyIsFinal(g.digest, key, epc);
      assert InSession(s.db.events[row], key, g.reader.code);
    }
  }

  /** Every tag captured since START is in a SENT event of the session. */
  ghost predicate AllDelivered(g: Gateway, s: State, key: string) {
    forall i :: s.mark <= i < |s.captured| ==>
      Delivered(s.db.events, g.digest, g.reader.code, key, EpcOf(s.captured[i].frame))
  }

  lemma DeliveredIffCovered(g: Gateway, s: State)
    requires Inv(g, s) && s.pc.Ack? && s.pc.c.kind.Stop?
    ensures AllDelivered(g, s, s.pc.c.sessionKey) <==> (StoreFailed(s.cap.error) ==> Covered(s))
    ensures (forall i :: s.mark <= i < |s.handed| ==> s.handed[i].stored) <==> !StoreFailed(s.cap.error)
  {
    var key := s.pc.c.sessionKey;
    StopHandsOver(g, s, s.pc.c);
    RowsIffCovered(g, s);
    AckedRow(g, s);
    hide Inv, HasRow, EpcOf, AllSent, Covered, Delivered;
    forall i | s.mark <= i < |s.captured|
      ensures FrameHasRow(g, s.db.events, key, s.captured[i].frame)
         <==> Delivered(s.db.events, g.digest, g.reader.code, key, EpcOf(s.captured[i].frame))
    {
      RowIsDelivered(g, s, key, EpcOf(s.captured[i].frame));
    }
  }

  /**
    End to end, and exactly: when the success ACK of a STOP is about to be sent,
    every tag captured since the session's START is in a SENT event of it if and
    only if storing did not fail in the capture thread, or each frame it failed on
    shows a tag that the session had at START or got from another frame. The first
    is the same as every frame having been stored.
   */
  lemma {:induction false} AckedStopDeliveredIff(g: Gateway, db: Db, p: seq<Action>)
    requires StoreOk(g.digest, db)
    requires After(g, db, p).pc.Ack? && After(g, db, p).pc.c.kind.Stop?
    ensures
      var s := After(g, db, p);
      && (AllDelivered(g, s, s.pc.c.sessionKey) <==> (StoreFailed(s.cap.error) ==> Covered(s)))
      && ((forall i :: s.mark <= i < |s.handed| ==> s.handed[i].stored) <==> !StoreFailed(s.cap.error))
  {
    hide Inv;
    Reachable(g, db, p);
    DeliveredIffCovered(g, After(g, db, p));
  }

  /** With a healthy capture service, every tag captured since START is delivered. */
  lemma {:induction false} AckedStopDelivered(g: Gateway, db: Db, p: seq<Action>, i: nat)
    requires StoreOk(g.digest, db)
    requires
      var s := After(g, db, p);
      s.pc.Ack? && s.pc.c.kind.Stop? && Healthy(s.cap) && s.mark <= i < |s.captured|
    ensures
      var s := After(g, db, p);
      Delivered(s.db.events, g.digest, g.reader.code, s.pc.c.sessionKey, EpcOf(s.captured[i].frame))
  {
    hide Run, Covered, Delivered;
    AckedStopDeliveredIff(g, db, p);
    assert AllDelivered(g, After(g, db, p), After(g, db, p).pc.c.sessionKey);
  }

  // ------------------------------------------------------------------ ownership

  /** The control thread is using the connection or the buffer. */
  predicate ControlHasReader(pc: Pc) {
    pc.BootSend? || pc.BootAwait? || pc.Opening? || pc.AwaitingStart? || pc.Send? || pc.AwaitingStop? || pc.Drain?
  }

  /**
    The capture thread and the control thread never use the reader at the same
    time; and the thread only comes to life after START has been answered, with
    the connection running for the same session.
   */
  lemma {:induction false} ExclusiveReader(g: Gateway, db: Db, p: seq<Action>, a: Action)
    requires StoreOk(g.digest, db)
    ensures
      var s, s' := After(g, db, p), Step(g, After(g, db, p), a);
      && !(ControlHasReader(s.pc) && s.cap.thread.Alive?)
      && (s'.cap.thread.Alive? && !s.cap.thread.Alive? ==>
          s.pc.Hooking? && a.Control? && Live(s, s.pc.c.sessionKey) && s'.cap.key == s.exec.key)
  {
    hide StoreOk, AcksFinal, Custody, Marked, Clean, StoredRows;
    Reachable(g, db, p);
    ThreadBorn(g, After(g, db, p), a);
  }

  /** No thread comes to life in this step. */
  predicate NoBirth(s: State, s': State) {
    s'.cap.thread.Alive? ==> s.cap.thread.Alive?
  }

  lemma {:induction false} ControlNoBirth(g: Gateway, s: State, ch: Choice)
    requires !s.pc.Hooking?
    ensures NoBirth(s, ControlStep(g, s, ch))
  {
    hide HookStep, JoinStep, SendStep, SettleStep, OpenStep, AwaitStopStep, DrainStep, Synchronize, AllSent, HasActive,
      OnReceptions, AwaitVerify, MarkReaderStarted;
    match s.pc
    case Opening(c, created) => OpenNoBirth(g, s, c, created, ch);
    case Join(t) => JoinNoBirth(g, s, t, ch);
    case Send(t) => SendNoBirth(g, s, t, ch);
    case AwaitingStop(t, verifying) => AwaitStopNoBirth(g, s, t, verifying, ch);
    case Drain(t) => DrainNoBirth(g, s, t, ch);
    case Settle(t) => SettleNoBirth(g, s, t, ch);
    case _ =>
  }

  lemma OpenNoBirth(g: Gateway, s: State, c: Command, created: bool, ch: Choice)
    ensures NoBirth(s, OpenStep(g, s, c, created, ch))
  {
    hide SendStart, MarkReaderStarted;
  }

  lemma SettleNoBirth(g: Gateway, s: State, t: Halt, ch: Choice)
    ensures NoBirth(s, SettleStep(g, s, t, ch))
  {
    hide FinishOr, MarkDegraded, MarkCommandCompleted;
  }

  lemma JoinNoBirth(g: Gateway, s: State, t: Halt, ch: Choice)
    ensures NoBirth(s, JoinStep(g, s, t, ch))
  {
    hide StopHook, MarkDegraded;
    var reader := if t.Shutdown? && t.k.None? then None else Some(g.reader.code);
    StoppedMeansAlone(s.cap, g.reader, HaltKey(t), reader, ch.fail);
  }

  lemma SendNoBirth(g: Gateway, s: State, t: Halt, ch: Choice)
    ensures NoBirth(s, SendStep(g, s, t, ch))
  {
    hide SendStop, MarkDegraded;
  }

  lemma AwaitStopNoBirth(g: Gateway, s: State, t: Halt, verifying: bool, ch: Choice)
    ensures NoBirth(s, AwaitStopStep(g, s, t, verifying, ch))
  {
    hide OnReceptions, AwaitVerify, MarkDegraded, MarkReaderStopped;
  }

  lemma DrainNoBirth(g: Gateway, s: State, t: Halt, ch: Choice)
    ensures NoBirth(s, DrainStep(g, s, t, ch))
  {
    hide IngestOr, MarkDegraded;
  }

  lemma {:induction false} ThreadBorn(g: Gateway, s: State, a: Action)
    requires Core(g, s)
    ensures
      var s' := Step(g, s, a);
      s'.cap.thread.Alive? && !s.cap.thread.Alive? ==>
        s.pc.Hooking? && a.Control? && Live(s, s.pc.c.sessionKey) && s'.cap.key == s.exec.key
  {
    hide PlanCommand, Finish, OtherDb, QueueEvent, ThreadStep, ControlStep;
    match a
    case Thread(ch) => ThreadIsFramed(g, s, ch);
    case Control(ch) =>
      if s.pc.Hooking? {
        HookBirth(g, s, s.pc.c, s.pc.created, ch);
      } else {
        ControlNoBirth(g, s, ch);
      }
    case _ =>
  }

  lemma HookBirth(g: Gateway, s: State, c: Command, created: bool, ch: Choice)
    requires s.pc == Hooking(c, created)
    ensures
      var s' := ControlStep(g, s, ch);
      s'.cap.thread.Alive? && !s.cap.thread.Alive? ==> s'.cap.key == Some(c.sessionKey)
  {
    hide MarkCommandCompleted;
  }

  // ------------------------------------------------- runtime record and hardware

  /**
    Runtime record, connection, session row and reader agree. READING: inventory
    runs for the session, whose row is ACTIVE. IDLE: no session, no connection, and
    a STOP was confirmed after the last START frame. STARTING and STOPPING do not
    outlive the handling of a command, and an active connection always carries the
    runtime's key.
   */
  lemma {:induction false} RuntimeAgrees(g: Gateway, db: Db, p: seq<Action>)
    requires StoreOk(g.digest, db)
    ensures
      var s := After(g, db, p);
      && (Running(s.exec) ==> s.rt.sessionKey == s.exec.key)
      && (s.pc.Ready? || s.pc.Barrier? || s.pc.Ack? ==>
          && s.rt.state in {Idle, Reading, Degraded}
          && (s.rt.state.Reading? ==>
              Running(s.exec) && s.exec.key == s.rt.sessionKey && RowIs(g, s, s.rt.sessionKey.value, Status.Active))
          && (s.rt.state.Idle? ==>
              s.rt.sessionKey.None? && s.exec == INACTIVE && s.cap.thread.NoThread? && s.quiet))
  {
    hide StoreOk, AcksFinal, Custody, Marked, Clean, StoredRows, AllSent, CompletionOk;
    Reachable(g, db, p);
  }

  // ------------------------------------------------------------------- sessions

  lemma {:induction false} RunRows(g: Gateway, s: State, q: seq<Action>)
    requires Inv(g, s)
    ensures Advances(s.db.sessions, Run(g, s, q).db.sessions)
    decreases |q|
  {
    hide Inv, Step, Advances, EventsEvolve;
    if q == [] {
      AdvancesReflexive(s.db);
    } else {
      var next := Step(g, s, q[0]);
      StepInv(g, s, q[0]);
      RunRows(g, next, q[1..]);
      AdvancesTransitive(s.db.sessions, next.db.sessions, Run(g, s, q).db.sessions);
    }
  }

  /** CLOSED and CANCELLED are absorbing, and each device has at most one ACTIVE session. */
  lemma {:induction false} SessionsNeverReopen(g: Gateway, db: Db, p: seq<Action>, q: seq<Action>)
    requires StoreOk(g.digest, db)
    ensures
      var now, later := After(g, db, p), Run(g, After(g, db, p), q);
      && OneActive(now.db.sessions)
      && forall k :: k in now.db.sessions && !now.db.sessions[k].status.Active? ==>
           k in later.db.sessions && later.db.sessions[k] == now.db.sessions[k]
  {
    hide Core, Custody, Marked, StoredRows, Clean, Contents, AcksFinal, UniqueKeys, KeyedRows;
    Reachable(g, db, p);
    RunRows(g, After(g, db, p), q);
  }

  /** A START frame goes out only while the session's row is ACTIVE on this reader. */
  lemma {:induction false} StartNeedsActiveRow(g: Gateway, s: State, a: Action, key: string)
    requires Inv(g, s) && Step(g, s, a).radio == s.radio + [StartFrame(key)]
    ensures RowIs(g, s, key, Status.Active)
  {
    hide Step, StoreOk, Custody, Marked, StoredRows, Clean, Contents, AcksFinal;
    StepLog(g, s, a);
    assert (s.radio + [StartFrame(key)])[|s.radio|] == StartFrame(key);
  }

  lemma {:induction false} NoStartOverRun(g: Gateway, s: State, q: seq<Action>, key: string)
    requires Inv(g, s) && key in s.db.sessions && !s.db.sessions[key].status.Active?
    ensures s.radio <= Run(g, s, q).radio && StartFrame(key) !in Run(g, s, q).radio[|s.radio|..]
    decreases |q|
  {
    hide Inv, Step, EventsEvolve;
    if q != [] {
      var next := Step(g, s, q[0]);
      StepInv(g, s, q[0]);
      StepLog(g, s, q[0]);
      if next.radio == s.radio + [StartFrame(key)] {
        StartNeedsActiveRow(g, s, q[0], key);
      } else {
        NoStartOverRun(g, next, q[1..], key);
        var last := Run(g, s, q).radio;
        assert last[|s.radio|..] == last[|s.radio|..|next.radio|] + last[|next.radio|..];
      }
    }
  }

  /** No START frame is ever sent for a finished session, whatever is replayed. */
  lemma {:induction false} NoStartAfterFinish(g: Gateway, db: Db, p: seq<Action>, q: seq<Action>, key: string)
    requires StoreOk(g.digest, db)
    requires key in After(g, db, p).db.sessions && !After(g, db, p).db.sessions[key].status.Active?
    ensures
      var now, later := After(g, db, p), Run(g, After(g, db, p), q);
      now.radio <= later.radio && StartFrame(key) !in later.radio[|now.radio|..]
  {
    hide Inv;
    Reachable(g, db, p);
    NoStartOverRun(g, After(g, db, p), q, key);
  }

  // ----------------------------------------------------------------- redelivery

  /** Redeliveries of c and commands that are refused, amid everything but process ends. */
  ghost predicate Harmless(s: State, c: Command, a: Action) {
    match a
    case Receive(d) => d == c || PlanCommand(s.rt, d).Err?
    case Interrupt => false
    case Crash => false
    case Recover(_, _) => false
    case _ => true
  }

  ghost predicate HarmlessRun(g: Gateway, s: State, c: Command, q: seq<Action>)
    decreases |q|
  {
    q == [] || (Harmless(s, c, q[0]) && HarmlessRun(g, Step(g, s, q[0]), c, q[1..]))
  }

  predicate BetweenCommands(pc: Pc) {
    pc.Ready? || pc.Barrier? || pc.Ack?
  }

  ghost predicate Unaffected(g: Gateway, s: State, s': State) {
    && BetweenCommands(s'.pc)
    && s'.rt == s.rt
    && s'.radio == s.radio
    && (forall k :: k in s.db.sessions && s.db.sessions[k].device == g.reader.code ==>
          k in s'.db.sessions && s'.db.sessions[k] == s.db.sessions[k])
  }

  lemma {:induction false} HarmlessStep(g: Gateway, s: State, c: Command, a: Action)
    requires BetweenCommands(s.pc) && StoreOk(g.digest, s.db)
    requires WellFormed(c) && CompletionCurrent(s.rt, c) && Harmless(s, c, a)
    ensures Unaffected(g, s, Step(g, s, a))
  {
    hide ThreadStep, OtherDb, QueueEvent, AllSent, PlanCommand, StoreOk;
    RedeliveryIsDuplicate(s.rt, c, c);
    match a
    case Thread(ch) => ThreadIsFramed(g, s, ch);
    case Elsewhere(other) => OtherEvolves(g, s.db, other);
    case _ =>
  }

  /**
    After a command has completed and until another one is accepted, any number of
    redeliveries, mixed with refused commands and everything that other threads
    and workers do, sends nothing to the reader, changes no session row of it, and
    leaves the runtime record equal.
   */
  lemma {:induction false} RedeliveryIsIdempotent(g: Gateway, s: State, c: Command, q: seq<Action>)
    requires Inv(g, s) && BetweenCommands(s.pc)
    requires WellFormed(c) && CompletionCurrent(s.rt, c) && HarmlessRun(g, s, c, q)
    ensures Unaffected(g, s, Run(g, s, q))
    decreases |q|
  {
    hide Step, Harmless, Core, StoreOk, Custody, Marked, StoredRows, Clean, Contents, AcksFinal, Evolves;
    if q != [] {
      var next := Step(g, s, q[0]);
      StepInv(g, s, q[0]);
      HarmlessStep(g, s, c, q[0]);
      RedeliveryIsIdempotent(g, next, c, q[1..]);
    }
  }

  /** The same from the moment that any reachable command has just completed. */
  lemma {:induction false} RedeliveryAfterCompletion(g: Gateway, db: Db, p: seq<Action>, c: Command, q: seq<Action>)
    requires StoreOk(g.digest, db)
    requires After(g, db, p).pc == Barrier(c) || After(g, db, p).pc == Ack(c)
    requires HarmlessRun(g, After(g, db, p), c, q)
    ensures Unaffected(g, After(g, db, p), Run(g, After(g, db, p), q))
  {
    hide StoreOk, Custody, Marked, StoredRows, Clean, Contents, AcksFinal, HarmlessRun, Settled, AllSent;
    Reachable(g, db, p);
    RedeliveryIsIdempotent(g, After(g, db, p), c, q);
  }
}
