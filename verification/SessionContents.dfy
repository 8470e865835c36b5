/**
  What the rows of the session in progress hold: the EPCs it had when its START
  frame was sent, and those of the frames stored since then.
 */
module SessionContents {
  import opened Wrappers
  import opened Crc
  import opened ReaderProtocol
  import opened Store
  import opened RuntimeState
  import opened SessionService
  import opened DeliveryBarrier
  import opened TagIngestion
  import opened IngestionUnion
  import opened StoreEvolution
  import opened ReaderExecutor
  import opened CaptureService
  import opened ControlMachine
  import opened ControlInvariant
  import opened FrameCustody
  import opened StopGuarantee

  /** The EPCs of the frames stored from `mark` on. */
  ghost function StoredEpcs(handed: seq<Handed>, mark: nat): set<string> {
    set i | mark <= i < |handed| && handed[i].stored :: EpcOf(handed[i].frame)
  }

  ghost predicate Contents(g: Gateway, l: Ledger, events: seq<Event>) {
    && l.mark <= |l.handed|
    && (l.owner != "" ==> Epcs(events, g.reader.code, l.owner) == l.known + StoredEpcs(l.handed, l.mark))
  }

  /** Nothing that Contents looks at has changed, or the process has ended. */
  ghost predicate SameSession(l: Ledger, l': Ledger) {
    || (l'.handed == l.handed && l'.owner == l.owner && l'.mark == l.mark && l'.known == l.known)
    || l' == NO_FRAMES
  }

  /** The same rows, whatever happened to their queue states. */
  ghost predicate SameIdentities(before: seq<Event>, after: seq<Event>) {
    |before| == |after| && forall i :: 0 <= i < |before| ==> Later(before[i], after[i])
  }

  lemma SameIdentitiesSameEpcs(before: seq<Event>, after: seq<Event>, reader: string, session: string)
    requires SameIdentities(before, after)
    ensures Epcs(after, reader, session) == Epcs(before, reader, session)
  {
    forall i | 0 <= i < |before|
      ensures InSession(after[i], session, reader) == InSession(before[i], session, reader) && after[i].epc == before[i].epc
    {
      assert Later(before[i], after[i]);
    }
  }

  lemma SameSessionKeeps(g: Gateway, l: Ledger, l': Ledger, before: seq<Event>, after: seq<Event>)
    requires Contents(g, l, before) && SameSession(l, l') && SameIdentities(before, after)
    ensures Contents(g, l', after)
  {
    hide Epcs, StoredEpcs;
    SameIdentitiesSameEpcs(before, after, g.reader.code, l.owner);
  }

  // ------------------------------------------------------------- storing frames

  lemma StoredEpcsAppend(handed: seq<Handed>, mark: nat, frames: seq<Frame>, key: string)
    requires mark <= |handed|
    ensures StoredEpcs(handed + Hand(frames, key, true), mark) == StoredEpcs(handed, mark) + EpcsOf(frames)
    ensures StoredEpcs(handed + Hand(frames, key, false), mark) == StoredEpcs(handed, mark)
  {
    hide EpcOf;
    var more := handed + Hand(frames, key, true);
    forall e | e in StoredEpcs(handed, mark) + EpcsOf(frames) ensures e in StoredEpcs(more, mark) {
      if e in StoredEpcs(handed, mark) {
        var i :| mark <= i < |handed| && handed[i].stored && EpcOf(handed[i].frame) == e;
        assert more[i] == handed[i];
      } else {
        var i :| 0 <= i < |frames| && EpcOf(frames[i]) == e;
        assert more[|handed| + i] == Handed(frames[i], key, true);
      }
    }
    forall e | e in StoredEpcs(more, mark) ensures e in StoredEpcs(handed, mark) + EpcsOf(frames) {
      var i :| mark <= i < |more| && more[i].stored && EpcOf(more[i].frame) == e;
      if i >= |handed| {
        assert more[i] == Handed(frames[i - |handed|], key, true);
      }
    }
    var failed := handed + Hand(frames, key, false);
    forall e | e in StoredEpcs(handed, mark) ensures e in StoredEpcs(failed, mark) {
      var i :| mark <= i < |handed| && handed[i].stored && EpcOf(handed[i].frame) == e;
      assert failed[i] == handed[i];
    }
    assert forall i :: |handed| <= i < |failed| ==> !failed[i].stored;
  }

  lemma IngestedContents(g: Gateway, s: State, frames: seq<Frame>, fail: Option<string>)
    requires StoreOk(g.digest, s.db) && Contents(g, LedgerOf(s), s.db.events)
    ensures
      var s' := Ingested(g, s, frames, s.owner, fail).0;
      Contents(g, LedgerOf(s'), s'.db.events)
  {
    hide Ingest, Epcs, EpcsOf, StoredEpcs, OneActive, UniqueKeys, KeyedRows;
    StoredEpcsAppend(s.handed, s.mark, frames, s.owner);
    if Ingest(s.db, g.digest, g.reader, s.owner, frames).Ok? {
      IngestIsUnion(s.db, g.digest, g.reader, s.owner, frames);
    }
  }

  lemma SameEventsSame(events: seq<Event>)
    ensures SameIdentities(events, events)
  {
  }

  lemma DrainContents(g: Gateway, s: State, t: Halt, ch: Choice)
    requires StoreOk(g.digest, s.db) && Contents(g, LedgerOf(s), s.db.events)
    requires Alone(s) && HaltKey(t).Some? && Bound(s, HaltKey(t).value)
    ensures
      var s' := DrainStep(g, s, t, ch);
      Contents(g, LedgerOf(s'), s'.db.events)
  {
    hide HaltFailed, Ingested, Exit, Contents, StoreOk;
    var key := HaltKey(t).value;
    var (s', r) := DrainPending(g, s, key, ch.fail);
    if s.exec.pending != [] {
      var emptied := s.(exec := s.exec.(pending := []));
      SameEventsSame(s.db.events);
      SameSessionKeeps(g, LedgerOf(s), LedgerOf(emptied), s.db.events, s.db.events);
      IngestedContents(g, emptied, s.exec.pending, ch.fail);
    }
    var last := DrainStep(g, s, t, ch);
    SameEventsSame(s'.db.events);
    ExitKeeps(g, s');
    ExitDb(g, s');
    if r.Err? {
      HaltFailedKeeps(g, s', t, r.message);
      HaltFailedDb(g, s', t, r.message);
    }
    SameSessionKeeps(g, LedgerOf(s'), LedgerOf(last), s'.db.events, last.db.events);
  }

  lemma ThreadContents(g: Gateway, s: State, ch: Choice)
    requires StoreOk(g.digest, s.db) && Owned(s) && Contents(g, LedgerOf(s), s.db.events)
    ensures
      var s' := ThreadStep(g, s, ch);
      Contents(g, LedgerOf(s'), s'.db.events)
  {
    hide Ingested, OnFrames, Contents, StoreOk;
    var s' := ThreadStep(g, s, ch);
    SameEventsSame(s.db.events);
    match s.cap.thread
    case Alive(Holding(frames)) =>
      if frames == [] {
        SameSessionKeeps(g, LedgerOf(s), LedgerOf(s'), s.db.events, s'.db.events);
      } else {
        IngestedContents(g, s, frames, ch.fail);
        var next := Ingested(g, s, frames, s.owner, ch.fail).0;
        SameEventsSame(next.db.events);
        SameSessionKeeps(g, LedgerOf(next), LedgerOf(s'), next.db.events, s'.db.events);
      }
    case _ => SameSessionKeeps(g, LedgerOf(s), LedgerOf(s'), s.db.events, s'.db.events);
  }

  // -------------------------------------------------------------- every action

  lemma OpenContents(g: Gateway, s: State, c: Command, created: bool, ch: Choice)
    requires Empty(s) && Custody(LedgerOf(s)) && Contents(g, LedgerOf(s), s.db.events)
    ensures
      var s' := OpenStep(g, s, c, created, ch);
      Contents(g, LedgerOf(s'), s.db.events)
  {
    hide StartFailed, StartReturned, SendStart, Contents, StartSent, Custody;
    var begun := SendStart(s.exec, g.reader, c.sessionKey, c.readerCode, ch.link);
    SendStartPending(s.exec, g.reader, c.sessionKey, c.readerCode, ch.link);
    StartSentFrame(g, s, c.sessionKey);
    StartSentContents(g, s, c.sessionKey);
    SameEventsSame(s.db.events);
    var sent := if begun.sent then StartSent(g, s, c.sessionKey) else s;
    var s' := sent.(exec := begun.exec);
    if begun.result.Err? {
      StartFailedKeeps(s', c, created, begun.result.message);
    } else {
      StartReturnedKeeps(s', c, created);
    }
    SameSessionKeeps(g, LedgerOf(sent), LedgerOf(OpenStep(g, s, c, created, ch)), s.db.events, s.db.events);
  }

  /** At a START frame everything captured before has been handed over. */
  lemma StartSentContents(g: Gateway, s: State, key: string)
    requires Custody(LedgerOf(s)) && InHands(s.cap) == [] && s.exec.pending == []
    ensures Contents(g, LedgerOf(StartSent(g, s, key)), s.db.events)
  {
    hide Epcs;
    assert StoredEpcs(s.handed, |s.captured|) == {};
  }

  lemma AwaitContents(g: Gateway, s: State, ch: Choice)
    requires s.pc.AwaitingStart? || s.pc.AwaitingStop?
    ensures SameSession(LedgerOf(s), LedgerOf(ControlStep(g, s, ch)))
  {
    hide StartFailed, StartReturned, AwaitStart, StopConfirmed, HaltFailed, AwaitStop, AwaitVerify;
    if s.pc.AwaitingStart? {
      var (c, created) := (s.pc.c, s.pc.created);
      var (exec, r) := AwaitStart(s.exec, g.reader, c.sessionKey, ch.receptions);
      AwaitStartGrows(s.exec, g.reader, c.sessionKey, ch.receptions);
      if r.Ok? {
        StartReturnedKeeps(Buffered(s, exec), c, created);
      } else {
        StartFailedKeeps(Buffered(s, exec), c, created, r.message);
      }
    } else {
      var t := s.pc.t;
      var (exec, stopped) := AwaitStop(s.exec, g.reader, ch.receptions);
      AwaitStopGrows(s.exec, g.reader, ch.receptions);
      var s' := if s.pc.verifying then s else Buffered(s, exec);
      var r := if s.pc.verifying then AwaitVerify(g.reader, ch.receptions) else stopped;
      if r.Ok? {
        StopConfirmedKeeps(g, s', t);
      } else {
        HaltFailedKeeps(g, s', t, r.message);
      }
    }
  }

  /** Only draining adds rows. */
  lemma ControlKeepsEvents(g: Gateway, s: State, ch: Choice)
    requires !s.pc.Drain?
    ensures ControlStep(g, s, ch).db.events == s.db.events
  {
    if s.pc.Syncing? || s.pc.Settle? {
      hide Synchronize, FinishOr, MarkDegraded, MarkCommandCompleted;
    } else {
      hide ControlStep;
      ControlKeepsStore(g, s, ch);
    }
  }

  lemma ControlContents(g: Gateway, s: State, ch: Choice)
    requires Core(g, s) && StoreOk(g.digest, s.db) && Kept(LedgerOf(s)) && Contents(g, LedgerOf(s), s.db.events)
    ensures
      var s' := ControlStep(g, s, ch);
      Contents(g, LedgerOf(s'), s'.db.events)
  {
    hide HookStep, JoinStep, SendStep, SettleStep, OpenStep, AwaitStartStep, AwaitStopStep, DrainStep, Settled,
      BootSendStep, BootAwaitStep, BootGateStep, SyncStep, BarrierStep, AckStep, AllSent, Contents, StoreOk, Custody, Marked;
    var s' := ControlStep(g, s, ch);
    SameEventsSame(s.db.events);
    if s.pc.Drain? {
      DrainContents(g, s, s.pc.t, ch);
    } else {
      ControlKeepsEvents(g, s, ch);
      if s.pc.Opening? {
        OpenContents(g, s, s.pc.c, s.pc.created, ch);
      } else {
        if s.pc.AwaitingStart? || s.pc.AwaitingStop? {
          AwaitContents(g, s, ch);
        } else {
          QuietControl(g, s, ch);
        }
        SameSessionKeeps(g, LedgerOf(s), LedgerOf(s'), s.db.events, s'.db.events);
      }
    }
  }

  lemma OtherContents(g: Gateway, db: Db, other: OtherStep, session: string)
    requires StoreOk(g.digest, db)
    ensures Epcs(OtherDb(g, db, other).events, g.reader.code, session) == Epcs(db.events, g.reader.code, session)
  {
    hide Ingest, Synchronize, Finish, Epcs, EpcsOf, EventKey, EpcOf, OneActive, UniqueKeys, KeyedRows;
    if other.OtherIngest? && other.device.code != g.reader.code {
      var r := Ingest(db, g.digest, other.device, other.key, other.frames);
      if r.Ok? {
        IngestOk(db, g.digest, other.device, other.key, other.frames);
        OtherEpcs(db.events, r.value.0.events, g.digest, other.device.code, other.key, other.frames, g.reader.code, session);
      }
    }
  }

  lemma QueueSameIdentities(events: seq<Event>, id: nat, q: QueueStep)
    requires id < |events|
    ensures SameIdentities(events, events[id := QueueEvent(events[id], q)])
  {
    hide QueueEvent;
    QueueIsLater(events[id], q);
  }

  lemma StepContents(g: Gateway, s: State, a: Action)
    requires Core(g, s) && StoreOk(g.digest, s.db) && Kept(LedgerOf(s)) && Contents(g, LedgerOf(s), s.db.events)
    ensures
      var s' := Step(g, s, a);
      Contents(g, LedgerOf(s'), s'.db.events)
  {
    hide ControlStep, ThreadStep, Kept, AtPc, Finish, OtherDb, QueueEvent, ReceiveStep, InterruptStep, Exit, StoreOk, Epcs,
      StoredEpcs;
    SameEventsSame(s.db.events);
    match a
    case Control(ch) => ControlContents(g, s, ch);
    case Thread(ch) => ThreadContents(g, s, ch);
    case Elsewhere(other) => OtherContents(g, s.db, other, s.owner);
    case Queue(id, q) =>
      if id < |s.db.events| {
        QueueSameIdentities(s.db.events, id, q);
        SameSessionKeeps(g, LedgerOf(s), LedgerOf(s), s.db.events, Step(g, s, a).db.events);
      }
    case _ =>
      RestKeeps(g, s, a);
      SameSessionKeeps(g, LedgerOf(s), LedgerOf(Step(g, s, a)), s.db.events, Step(g, s, a).db.events);
  }

  /** Starting, receiving, being interrupted, crashing and recovering touch no event. */
  lemma RestKeeps(g: Gateway, s: State, a: Action)
    requires a.Boot? || a.Receive? || a.Interrupt? || a.Crash? || a.Recover?
    ensures SameSession(LedgerOf(s), LedgerOf(Step(g, s, a))) && Step(g, s, a).db.events == s.db.events
  {
    hide ControlStep, ThreadStep, OtherDb, QueueEvent, PlanCommand, Finish;
  }
}
