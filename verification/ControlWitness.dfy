/**
  A run in which STOP is acknowledged as a success although the tag of a captured
  frame was never stored: no step of STOP consults the capture thread's error.
 */
module ControlWitness {
  import opened Wrappers
  import opened Crc
  import opened ReaderProtocol
  import opened TagData
  import opened Store
  import opened RuntimeState
  import opened SessionService
  import opened DeliveryBarrier
  import opened TagIngestion
  import opened IngestionUnion
  import opened StopGuarantee
  import opened ReaderExecutor
  import opened CaptureService
  import opened ControlMachine
  import opened ControlTheorems

  const READER := Device("R", true, Receiving, false, 1)
  const GATEWAY := Gateway(READER, map["R" := READER], x => x)
  const START := Command("S", "R", Start, 1, None)
  const STOP := Command("S", "R", Stop, 2, None)

  /** The frames of a run: the answers to STOP and START, and a tag observation. */
  datatype Air = Air(stopped: Frame, started: Frame, tag: Frame)

  predicate Sound(a: Air) {
    && IsFrame(a.stopped, COMMAND_STOP) && IsFrame(a.started, COMMAND_START_INVENTORY) && IsFrame(a.tag, COMMAND_ACTIVE_TAG)
  }

  predicate IsFrame(f: Frame, command: byte) {
    f.address == 1 && f.command == command && f.status == 0
  }

  function Receives(f: Frame): Choice {
    Choice(None, Up, [Frames([f])])
  }

  const OK := Choice(None, Up, [])

  const BROKEN := Choice(Some("database is locked"), Up, [])

  const ROW := Session("R", Receipt, Status.Active)

  // ---------------------------------------------------------------- the stages

  const COLD := Initial(GATEWAY, Db(map[], []))

  const BOOTED := COLD.(pc := Ready, rt := Fresh("R", Idle, None, 0, None), quiet := true, radio := [StopFrame])

  /** START has been executed; capturing is on. */
  const STARTED := BOOTED.(
    pc := Ready,
    rt := Fresh("R", Reading, Some("S"), 1, None).(completedRevision := 1, completedCommand := Some(Start), completedSessionKey := Some("S")),
    exec := Executor(true, Some("S"), []),
    cap := Capture(Alive(Top), false, Some("S"), None),
    db := Db(map["S" := ROW], []),
    quiet := false, owner := "S", mark := 0, acks := [START], radio := [StopFrame, StartFrame("S")])

  /** A tag was captured and is about to be stored. */
  function TagHeld(a: Air): State {
    STARTED.(cap := STARTED.cap.(thread := Alive(Holding([a.tag]))), captured := [Tagged(a.tag, "S")])
  }

  /** Storing it failed. */
  function FrameLost(a: Air): State {
    TagHeld(a).(
      cap := Capture(Ended, true, Some("S"), Some(StoreFault("database is locked"))), handed := [Handed(a.tag, "S", false)])
  }

  function Acked(a: Air): State {
    FrameLost(a).(
      rt := Fresh("R", Idle, None, 2, None).(completedRevision := 2, completedCommand := Some(Stop), completedSessionKey := Some("S")),
      exec := INACTIVE,
      cap := Capture(NoThread, true, None, Some(StoreFault("database is locked"))),
      db := Db(map["S" := ROW.(status := Closed)], []),
      quiet := true, acks := [START, STOP], radio := [StopFrame, StartFrame("S"), StopFrame])
  }

  function BootActions(a: Air): seq<Action> {
    [Boot, Control(OK)] + [Control(Receives(a.stopped)), Control(OK)]
  }

  function StartActions(a: Air): seq<Action> {
    [Receive(START), Control(OK)] + [Control(OK), Control(Receives(a.started))] + [Control(OK), Control(OK)]
  }

  function CaptureActions(a: Air): seq<Action> {
    [Thread(OK), Thread(OK)] + [Thread(Receives(a.tag))]
  }

  function StopActions(a: Air): seq<Action> {
    [Receive(STOP), Control(OK)] + [Control(OK), Control(Receives(a.stopped))] + [Control(OK), Control(OK)] + [Control(OK), Control(OK)]
  }

  lemma Boots(a: Air)
    requires Sound(a)
    ensures Run(GATEWAY, COLD, BootActions(a)) == BOOTED
  {
    hide SyncStep, OpenStep, AwaitStartStep, HookStep, JoinStep, SendStep, AwaitStopStep, DrainStep, SettleStep, BarrierStep,
      AckStep, ReceiveStep, ThreadStep, InterruptStep, OtherDb, QueueEvent, Finish, Exit;
    var s1 := Step(GATEWAY, COLD, Boot);
    var s2 := Step(GATEWAY, s1, Control(OK));
    RunTwo(GATEWAY, COLD, Boot, Control(OK));
    assert AwaitVerify(READER, Receives(a.stopped).receptions).Ok?;
    var s3 := Step(GATEWAY, s2, Control(Receives(a.stopped)));
    var s4 := Step(GATEWAY, s3, Control(OK));
    assert s4 == BOOTED;
    RunTwo(GATEWAY, s2, Control(Receives(a.stopped)), Control(OK));
    RunConcat(GATEWAY, COLD, [Boot, Control(OK)], [Control(Receives(a.stopped)), Control(OK)]);
  }

  const OPENING := BOOTED.(
    pc := Opening(START, true), rt := Fresh("R", Starting, Some("S"), 1, None), db := Db(map["S" := ROW], []))

  const HOOKING := OPENING.(
    pc := Hooking(START, true), rt := Fresh("R", Reading, Some("S"), 1, None),
    exec := Executor(true, Some("S"), []),
    quiet := false, owner := "S", radio := [StopFrame, StartFrame("S")])

  lemma StartsSyncing()
    ensures Run(GATEWAY, BOOTED, [Receive(START), Control(OK)]) == OPENING
  {
    hide BootSendStep, BootAwaitStep, BootGateStep, OpenStep, AwaitStartStep, HookStep, JoinStep, SendStep, AwaitStopStep, DrainStep,
      SettleStep, BarrierStep, AckStep, ThreadStep, InterruptStep, OtherDb, QueueEvent, Finish, Exit;
    hide SendStart, OnReceptions;
    var s1 := Step(GATEWAY, BOOTED, Receive(START));
    assert !HasActive(s1.db.sessions, "R");
    assert Step(GATEWAY, s1, Control(OK)) == OPENING;
    RunTwo(GATEWAY, BOOTED, Receive(START), Control(OK));
  }

  lemma StartsReader(a: Air)
    requires Sound(a)
    ensures Run(GATEWAY, OPENING, [Control(OK), Control(Receives(a.started))]) == HOOKING
  {
    hide StartFailed, HaltFailed, BeginShutdown, Degrade, IngestOr;
    hide BootSendStep, BootAwaitStep, BootGateStep, SyncStep, HookStep, JoinStep, SendStep, AwaitStopStep, DrainStep, SettleStep,
      BarrierStep, AckStep, ReceiveStep, ThreadStep, InterruptStep, OtherDb, QueueEvent, Finish, Exit;
    hide Synchronize;
    var s1 := Step(GATEWAY, OPENING, Control(OK));
    assert s1.pc == AwaitingStart(START, true);
    var answer := Receives(a.started);
    assert AwaitStart(s1.exec, READER, "S", answer.receptions) == (Executor(true, Some("S"), []), Ok(()));
    assert Step(GATEWAY, s1, Control(answer)) == HOOKING;
    RunTwo(GATEWAY, OPENING, Control(OK), Control(answer));
  }

  lemma StartsCapturing()
    ensures Run(GATEWAY, HOOKING, [Control(OK), Control(OK)]) == STARTED
  {
    hide StartFailed, HaltFailed, BeginShutdown, Degrade, IngestOr;
    hide BootSendStep, BootAwaitStep, BootGateStep, SyncStep, OpenStep, AwaitStartStep, JoinStep, SendStep, AwaitStopStep, DrainStep,
      SettleStep, BarrierStep, ReceiveStep, ThreadStep, InterruptStep, OtherDb, QueueEvent, Finish, Exit;
    hide SendStart, OnReceptions, Synchronize;
    var s1 := Step(GATEWAY, HOOKING, Control(OK));
    assert s1.pc == Ack(START);
    assert Step(GATEWAY, s1, Control(OK)) == STARTED;
    RunTwo(GATEWAY, HOOKING, Control(OK), Control(OK));
  }

  lemma Starts(a: Air)
    requires Sound(a)
    ensures Run(GATEWAY, BOOTED, StartActions(a)) == STARTED
  {
    hide Step;
    StartsSyncing();
    StartsReader(a);
    StartsCapturing();
    var p, q, r := [Receive(START), Control(OK)], [Control(OK), Control(Receives(a.started))], [Control(OK), Control(OK)];
    RunConcat(GATEWAY, BOOTED, p + q, r);
    RunConcat(GATEWAY, BOOTED, p, q);
  }

  const LISTENING := STARTED.(cap := STARTED.cap.(thread := Alive(Listening)))

  lemma Listens()
    ensures Run(GATEWAY, STARTED, [Thread(OK), Thread(OK)]) == LISTENING
  {
    hide ControlStep, ReceiveStep, InterruptStep, OtherDb, QueueEvent, Finish, Exit, ListenStep, IngestOr;
    RunTwo(GATEWAY, STARTED, Thread(OK), Thread(OK));
  }

  lemma CapturesFrame(a: Air)
    requires Sound(a)
    ensures Run(GATEWAY, STARTED, CaptureActions(a)) == TagHeld(a)
  {
    hide ControlStep, ReceiveStep, InterruptStep, OtherDb, QueueEvent, Finish, Exit, IngestOr;
    Listens();
    assert OnFrames(1, POLL_REQUEST, [a.tag], []) == Waiting([a.tag]);
    var s' := Step(GATEWAY, LISTENING, Thread(Receives(a.tag)));
    assert s'.captured == [Tagged(a.tag, "S")];
    assert s' == TagHeld(a);
    RunOne(GATEWAY, LISTENING, Thread(Receives(a.tag)));
    RunConcat(GATEWAY, STARTED, [Thread(OK), Thread(OK)], [Thread(Receives(a.tag))]);
  }

  lemma LosesFrame(a: Air)
    requires Sound(a)
    ensures Run(GATEWAY, TagHeld(a), [Thread(BROKEN)]) == FrameLost(a)
  {
    hide ControlStep, ReceiveStep, OtherDb, QueueEvent, Finish, Exit, Ingest;
    var s' := Step(GATEWAY, TagHeld(a), Thread(BROKEN));
    assert s'.handed == [Handed(a.tag, "S", false)];
    RunOne(GATEWAY, TagHeld(a), Thread(BROKEN));
  }

  /** The frame is sound: with a healthy database the same step stores it. */
  lemma HealthyStoreKeepsFrame(a: Air, epc: string)
    requires Sound(a) && EpcOf(a.tag) == epc
    requires ToReads(GATEWAY.digest, READER, "S", [a.tag]) == Ok([Read(EventKey(GATEWAY.digest, "S", epc), epc)])
    ensures HasRow(Run(GATEWAY, TagHeld(a), [Thread(OK)]).db.events, GATEWAY.digest, "R", "S", epc)
  {
    hide ControlStep, ReceiveStep, OtherDb, QueueEvent, Finish, Exit, Ingest, EventKey, EpcOf, HasRow;
    RunOne(GATEWAY, TagHeld(a), Thread(OK));
    StoresTag([a.tag], epc);
    IngestOk(TagHeld(a).db, GATEWAY.digest, READER, "S", [a.tag]);
  }

  lemma StoresTag(frames: seq<Frame>, epc: string)
    requires ToReads(GATEWAY.digest, READER, "S", frames) == Ok([Read(EventKey(GATEWAY.digest, "S", epc), epc)])
    ensures Ingest(STARTED.db, GATEWAY.digest, READER, "S", frames).Ok?
  {
    hide ToReads, EventKey, QueuedCount, Persisted, AllIntact;
    StoresRead(Read(EventKey(GATEWAY.digest, "S", epc), epc));
  }

  lemma StoresRead(read: Read)
    ensures AllIntact(Persisted([], "R", "S", [read]), "R", "S", [read])
  {
    var row := NewRow("R", read);
    assert [read][1..] == [];
    assert Create([], "R", [read]) == Create([] + [row], "R", []);
    assert [] + [row] == [row];
    var events := Persisted([], "R", "S", [read]);
    assert events == [row.(session := Some("S"), state := QueueState.Queued)];
    assert RowIntact(events, "R", "S", read);
  }

  function StopBegun(a: Air): State {
    FrameLost(a).(
      pc := Send(OnStop(STOP)), rt := Fresh("R", Stopping, Some("S"), 2, None),
      cap := Capture(NoThread, true, None, Some(StoreFault("database is locked"))))
  }

  function ReaderQuiet(a: Air): State {
    StopBegun(a).(
      pc := Drain(OnStop(STOP)), rt := Fresh("R", Idle, None, 2, None), exec := INACTIVE,
      quiet := true, radio := [StopFrame, StartFrame("S"), StopFrame])
  }

  function RowClosed(a: Air): State {
    Acked(a).(pc := Barrier(STOP), acks := [START])
  }

  lemma StopsCapturing(a: Air)
    requires Sound(a)
    ensures Run(GATEWAY, FrameLost(a), [Receive(STOP), Control(OK)]) == StopBegun(a)
  {
    hide StartFailed, HaltFailed, BeginShutdown, Degrade, IngestOr;
    hide BootSendStep, BootAwaitStep, BootGateStep, SyncStep, OpenStep, AwaitStartStep, HookStep, SendStep, AwaitStopStep, DrainStep,
      SettleStep, BarrierStep, AckStep, ThreadStep, InterruptStep, OtherDb, QueueEvent, Finish, Exit;
    hide SendStart, OnReceptions, Synchronize;
    var s1 := Step(GATEWAY, FrameLost(a), Receive(STOP));
    assert Step(GATEWAY, s1, Control(OK)) == StopBegun(a);
    RunTwo(GATEWAY, FrameLost(a), Receive(STOP), Control(OK));
  }

  lemma StopsReader(a: Air)
    requires Sound(a)
    ensures Run(GATEWAY, StopBegun(a), [Control(OK), Control(Receives(a.stopped))]) == ReaderQuiet(a)
  {
    hide StartFailed, HaltFailed, BeginShutdown, Degrade, IngestOr;
    hide BootSendStep, BootAwaitStep, BootGateStep, SyncStep, OpenStep, AwaitStartStep, HookStep, JoinStep, DrainStep, SettleStep,
      BarrierStep, AckStep, ReceiveStep, ThreadStep, InterruptStep, OtherDb, QueueEvent, Finish, Exit;
    hide SendStart, Synchronize;
    var s1 := Step(GATEWAY, StopBegun(a), Control(OK));
    assert s1.pc == AwaitingStop(OnStop(STOP), false);
    var answer := Receives(a.stopped);
    assert AwaitStop(s1.exec, READER, answer.receptions) == (INACTIVE, Ok(()));
    assert Step(GATEWAY, s1, Control(answer)) == ReaderQuiet(a);
    RunTwo(GATEWAY, StopBegun(a), Control(OK), Control(answer));
  }

  lemma DrainsNothing(a: Air)
    requires Sound(a)
    ensures Step(GATEWAY, ReaderQuiet(a), Control(OK)) == ReaderQuiet(a).(pc := Settle(OnStop(STOP)))
  {
    hide StartFailed, HaltFailed, BeginShutdown, Degrade, IngestOr;
    hide BootSendStep, BootAwaitStep, BootGateStep, SyncStep, OpenStep, AwaitStartStep, HookStep, JoinStep, SendStep, AwaitStopStep,
      SettleStep, BarrierStep, AckStep, ReceiveStep, ThreadStep, InterruptStep, OtherDb, QueueEvent, Exit;
    hide SendStart, Synchronize, OnReceptions;
  }

  lemma StopsSession(a: Air)
    requires Sound(a)
    ensures Run(GATEWAY, ReaderQuiet(a), [Control(OK), Control(OK)]) == RowClosed(a)
  {
    hide StartFailed, HaltFailed, BeginShutdown, Degrade, IngestOr;
    hide BootSendStep, BootAwaitStep, BootGateStep, SyncStep, OpenStep, AwaitStartStep, HookStep, JoinStep, SendStep, AwaitStopStep,
      DrainStep, BarrierStep, AckStep, ReceiveStep, ThreadStep, InterruptStep, OtherDb, QueueEvent, Exit;
    hide SendStart, Synchronize, OnReceptions;
    DrainsNothing(a);
    var s1 := ReaderQuiet(a).(pc := Settle(OnStop(STOP)));
    assert Step(GATEWAY, s1, Control(OK)) == RowClosed(a);
    RunTwo(GATEWAY, ReaderQuiet(a), Control(OK), Control(OK));
  }

  lemma StopAcks(a: Air)
    requires Sound(a)
    ensures Run(GATEWAY, RowClosed(a), [Control(OK), Control(OK)]) == Acked(a)
  {
    hide BootSendStep, BootAwaitStep, BootGateStep, SyncStep, OpenStep, AwaitStartStep, HookStep, JoinStep, SendStep, AwaitStopStep,
      DrainStep, SettleStep, ReceiveStep, ThreadStep, InterruptStep, OtherDb, QueueEvent, Finish, Exit;
    hide SendStart, Synchronize, OnReceptions;
    var s1 := Step(GATEWAY, RowClosed(a), Control(OK));
    assert s1.pc == Ack(STOP);
    assert Step(GATEWAY, s1, Control(OK)) == Acked(a);
    RunTwo(GATEWAY, RowClosed(a), Control(OK), Control(OK));
  }

  lemma Stops(a: Air)
    requires Sound(a)
    ensures Run(GATEWAY, FrameLost(a), StopActions(a)) == Acked(a)
  {
    hide Step;
    StopsCapturing(a);
    StopsReader(a);
    StopsSession(a);
    StopAcks(a);
    var p, q := [Receive(STOP), Control(OK)], [Control(OK), Control(Receives(a.stopped))];
    var r, t := [Control(OK), Control(OK)], [Control(OK), Control(OK)];
    RunConcat(GATEWAY, FrameLost(a), p + q + r, t);
    RunConcat(GATEWAY, FrameLost(a), p + q, r);
    RunConcat(GATEWAY, FrameLost(a), p, q);
  }

  // ------------------------------------------------- the frames, from the wire

  /** The frame that the reader puts on the wire for a command and a payload. */
  function OnWire(command: byte, payload: seq<byte>): (f: Frame)
    requires |payload| <= 65526
    ensures f.address == 1 && f.command == command && f.status == 0 && f.payload == payload
    ensures ParseFrame(f.raw) == Ok(f)
  {
    BuildThenParse(1, 0, command as int, payload, 0);
    Frame(1, 0, command, 0, payload, BuildFrame(1, 0, command as int, payload, 0).value)
  }

  const OBSERVED := Fields(None, None, Some([0xE2, 0x00]), None, None)

  const HEADER: seq<byte> := [0, 0, 0, 4, 0]

  function Observation(): (payload: seq<byte>)
    ensures |payload| == 8 && ParsedTag(payload) == Ok(Decode(0, OBSERVED))
  {
    EncodeThenParse(HEADER, OBSERVED, []);
    assert Encode(HEADER, OBSERVED) + [] == Encode(HEADER, OBSERVED);
    Encode(HEADER, OBSERVED)
  }

  /** An observation of the tag with EPC E200. */
  const TAG := OnWire(COMMAND_ACTIVE_TAG, Observation())

  lemma TagIsE200()
    ensures EpcOf(TAG) == "E200"
    ensures ToReads(GATEWAY.digest, READER, "S", [TAG]) == Ok([Read(EventKey(GATEWAY.digest, "S", "E200"), "E200")])
  {
    hide ParseFrame, BuildFrame, ParsedTag, EventKey;
    var read := Read(EventKey(GATEWAY.digest, "S", "E200"), "E200");
    assert ParsedTag(TAG.payload).Ok? && ParsedTag(TAG.payload).value.epc == "E200";
    assert ToRead(GATEWAY.digest, READER, "S", TAG) == Ok(read);
    assert [TAG][1..] == [];
    assert [read] + [] == [read];
  }

  const WIRE := Air(OnWire(COMMAND_STOP, []), OnWire(COMMAND_START_INVENTORY, []), TAG)

  /** Whatever sound frames the run has, it loses the tag, and a healthy database keeps it. */
  lemma RunLosesFrame(a: Air, epc: string)
    requires Sound(a) && EpcOf(a.tag) == epc
    requires ToReads(GATEWAY.digest, READER, "S", [a.tag]) == Ok([Read(EventKey(GATEWAY.digest, "S", epc), epc)])
    ensures
      var captured := BootActions(a) + StartActions(a) + CaptureActions(a);
      var kept := After(GATEWAY, Db(map[], []), captured + [Thread(OK)]);
      && After(GATEWAY, Db(map[], []), captured + [Thread(BROKEN)] + StopActions(a)) == Acked(a)
      && HasRow(kept.db.events, GATEWAY.digest, "R", "S", epc)
  {
    hide Step, EventKey, EpcOf, HasRow, ToReads;
    Boots(a);
    Starts(a);
    CapturesFrame(a);
    LosesFrame(a);
    HealthyStoreKeepsFrame(a, epc);
    Stops(a);
    var captured := BootActions(a) + StartActions(a) + CaptureActions(a);
    RunConcat(GATEWAY, COLD, captured + [Thread(BROKEN)], StopActions(a));
    RunConcat(GATEWAY, COLD, captured, [Thread(BROKEN)]);
    RunConcat(GATEWAY, COLD, captured, [Thread(OK)]);
    RunConcat(GATEWAY, COLD, BootActions(a) + StartActions(a), CaptureActions(a));
    RunConcat(GATEWAY, COLD, BootActions(a), StartActions(a));
  }

  /**
    From an empty database there is a run that sends a success ACK for STOP of a
    session although the one tag captured in it has no row: storing it failed in
    the capture thread. The frame is a sound one from the wire, which the parser
    accepts and which the same run up to there stores if the database is healthy.
   */
  lemma {:induction false} AckedStopCanLoseFrame()
    ensures ParseFrame(TAG.raw) == Ok(TAG) && ParsedTag(TAG.payload).Ok? && EpcOf(TAG) == "E200"
    ensures exists captured: seq<Action>, stopped: seq<Action> ::
      var lost := After(GATEWAY, Db(map[], []), captured + [Thread(BROKEN)] + stopped);
      var kept := After(GATEWAY, Db(map[], []), captured + [Thread(OK)]);
      && STOP in lost.acks && StoreFailed(lost.cap.error)
      && lost.captured == [Tagged(TAG, STOP.sessionKey)] && lost.mark == 0
      && !HasRow(lost.db.events, GATEWAY.digest, "R", "S", EpcOf(TAG))
      && HasRow(kept.db.events, GATEWAY.digest, "R", "S", EpcOf(TAG))
  {
    hide Run, Step, OnWire, ParseFrame, ParsedTag, EventKey, EpcOf;
    TagIsE200();
    RunLosesFrame(WIRE, "E200");
    var captured, stopped := BootActions(WIRE) + StartActions(WIRE) + CaptureActions(WIRE), StopActions(WIRE);
    var lost := After(GATEWAY, Db(map[], []), captured + [Thread(BROKEN)] + stopped);
    assert lost == Acked(WIRE);
  }
}
