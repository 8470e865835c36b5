/**
  Ingestion keeps exactly one final row per session and EPC
  (bridge_core/final_tag_ingestion.py:141-261), whatever the digest: a collision
  makes a call fail, it never merges two observations.
 */
module IngestionUnion {
  import opened Wrappers
  import opened Crc
  import opened ReaderProtocol
  import opened TagData
  import opened Store
  import opened SessionService
  import opened DeliveryBarrier
  import opened TagIngestion

  /** The uniqueness constraint on raw events. */
  ghost predicate UniqueKeys(events: seq<Event>) {
    forall i, j :: 0 <= i < |events| && 0 <= j < |events| && events[i].device == events[j].device && events[i].key == events[j].key
      ==> i == j
  }

  /** A final row of a session carries the key that its session and EPC determine. */
  ghost predicate KeyedRow(e: Event, digest: Digest) {
    IsFinal(e) && e.session.Some? ==> e.key == EventKey(digest, e.session.value, e.epc)
  }

  ghost predicate KeyedRows(events: seq<Event>, digest: Digest) {
    forall i :: 0 <= i < |events| ==> KeyedRow(events[i], digest)
  }

  /** The EPCs stored for a session of a reader. */
  ghost function Epcs(events: seq<Event>, reader: string, session: string): set<string> {
    set i | 0 <= i < |events| && InSession(events[i], session, reader) :: events[i].epc
  }

  function EpcOf(frame: Frame): string {
    match ParsedTag(frame.payload) case Ok(tag) => tag.epc case Err(_) => ""
  }

  ghost function EpcsOf(frames: seq<Frame>): set<string> {
    set i | 0 <= i < |frames| :: EpcOf(frames[i])
  }

  /** A row made from one of the reads. */
  ghost predicate FromRead(e: Event, device: string, observed: seq<Read>) {
    exists w :: 0 <= w < |observed| && e == NewRow(device, observed[w])
  }

  lemma {:induction false} CreateShape(events: seq<Event>, device: string, observed: seq<Read>)
    requires UniqueKeys(events)
    ensures
      var after := Create(events, device, observed);
      UniqueKeys(after) && forall i :: |events| <= i < |after| ==> FromRead(after[i], device, observed)
    decreases |observed|
  {
    var after := Create(events, device, observed);
    if observed != [] {
      var row := NewRow(device, observed[0]);
      var next := if FindRow(events, device, observed[0].key).Some? then events else events + [row];
      CreateShape(next, device, observed[1..]);
      forall i | |events| <= i < |after| ensures FromRead(after[i], device, observed) {
        if i >= |next| {
          var w :| 0 <= w < |observed[1..]| && after[i] == NewRow(device, observed[1..][w]);
          assert after[i] == NewRow(device, observed[w + 1]);
        } else {
          assert after[i] == after[..|next|][i] == next[i];
          assert after[i] == NewRow(device, observed[0]);
        }
      }
    }
  }

  /** What a successful call adds: new queued rows of this session, one per new EPC. */
  ghost predicate NewFinalRow(e: Event, digest: Digest, device: string, session: string, frames: seq<Frame>) {
    && e.device == device && e.session == Some(session) && e.state.Queued? && e.attempts == []
    && e.epc in EpcsOf(frames)
    && e.key == EventKey(digest, session, e.epc)
  }

  /** Every frame has its row: the right reader, session, key and EPC. */
  ghost predicate HasRow(events: seq<Event>, digest: Digest, device: string, session: string, epc: string) {
    exists i :: 0 <= i < |events| && IsRowOf(events[i], digest, device, session, epc)
  }

  ghost predicate IsRowOf(e: Event, digest: Digest, device: string, session: string, epc: string) {
    e.device == device && e.session == Some(session) && e.epc == epc && e.key == EventKey(digest, session, epc)
  }

  function ReadOf(digest: Digest, session: string, frame: Frame): Read {
    Read(EventKey(digest, session, EpcOf(frame)), EpcOf(frame))
  }

  lemma ReadOfFrame(digest: Digest, device: Device, session: string, frame: Frame)
    requires ToRead(digest, device, session, frame).Ok?
    ensures ToRead(digest, device, session, frame).value == ReadOf(digest, session, frame)
  {
    hide ParsedTag, EventKey;
  }

  /** A persisted row made from one of the reads. */
  ghost predicate PersistedRow(e: Event, device: string, session: string, observed: seq<Read>) {
    exists w :: 0 <= w < |observed|
                && e == Event(device, observed[w].key, observed[w].epc, Some(session), QueueState.Queued, [])
  }

  lemma PersistedShape(events: seq<Event>, device: string, session: string, observed: seq<Read>)
    requires UniqueKeys(events)
    ensures
      var after := Persisted(events, device, session, observed);
      && |events| <= |after| && after[..|events|] == events
      && UniqueKeys(after)
      && forall i :: |events| <= i < |after| ==> PersistedRow(after[i], device, session, observed)
  {
    hide Create, FindRow;
    var created := Create(events, device, observed);
    CreateShape(events, device, observed);
    var after := Persisted(events, device, session, observed);
    assert created[..|events|] == events;
    forall i | 0 <= i < |created| ensures after[i].device == created[i].device && after[i].key == created[i].key {
      if i < |events| { assert after[i] == events[i] == created[i]; }
    }
    forall i | |events| <= i < |after| ensures PersistedRow(after[i], device, session, observed) {
      assert FromRead(created[i], device, observed);
      var w :| 0 <= w < |observed| && created[i] == NewRow(device, observed[w]);
      assert after[i] == Event(device, observed[w].key, observed[w].epc, Some(session), QueueState.Queued, []);
    }
  }

  lemma ReadsOfFrames(digest: Digest, device: Device, session: string, frames: seq<Frame>)
    requires ToReads(digest, device, session, frames).Ok?
    ensures
      var observed := ToReads(digest, device, session, frames).value;
      |observed| == |frames| && forall k :: 0 <= k < |frames| ==> observed[k] == ReadOf(digest, session, frames[k])
  {
    hide ToRead, ReadOf;
    var observed := ToReads(digest, device, session, frames).value;
    forall k | 0 <= k < |frames| ensures observed[k] == ReadOf(digest, session, frames[k]) {
      ReadOfFrame(digest, device, session, frames[k]);
    }
  }

  lemma {:induction false} IngestOk(db: Db, digest: Digest, device: Device, session: string, frames: seq<Frame>)
    requires UniqueKeys(db.events)
    requires Ingest(db, digest, device, session, frames).Ok?
    ensures
      var (db', result) := Ingest(db, digest, device, session, frames).value;
      && session in db.sessions && db.sessions[session].device == device.code && db.sessions[session].status.Active?
      && db'.sessions == db.sessions
      && |db.events| <= |db'.events| && db'.events[..|db.events|] == db.events
      && UniqueKeys(db'.events)
      && (forall i :: |db.events| <= i < |db'.events| ==> NewFinalRow(db'.events[i], digest, device.code, session, frames))
      && (forall k :: 0 <= k < |frames| ==> HasRow(db'.events, digest, device.code, session, EpcOf(frames[k])))
      && result.created == |db'.events| - |db.events|
      && result.frameCount == |frames| == result.created + result.duplicates
  {
    hide ToReads, Persisted, FindRow, EventKey, EpcOf, QueuedCount, UniqueKeys;
    var after := Ingest(db, digest, device, session, frames).value.0.events;
    var observed := ToReads(digest, device, session, frames).value;
    PersistedShape(db.events, device.code, session, observed);
    ReadsOfFrames(digest, device, session, frames);
    forall i | |db.events| <= i < |after| ensures NewFinalRow(after[i], digest, device.code, session, frames) {
      assert PersistedRow(after[i], device.code, session, observed);
      var w :| 0 <= w < |observed| && after[i] == Event(device.code, observed[w].key, observed[w].epc, Some(session), QueueState.Queued, []);
      assert EpcOf(frames[w]) in EpcsOf(frames);
    }
    forall k | 0 <= k < |frames| ensures HasRow(after, digest, device.code, session, EpcOf(frames[k])) {
      assert RowIntact(after, device.code, session, observed[k]);
      var row := FindRow(after, device.code, observed[k].key).value;
      assert IsRowOf(after[row], digest, device.code, session, EpcOf(frames[k]));
    }
  }

  // ------------------------------------------------------------ set union

  lemma KeyIsFinal(digest: Digest, session: string, epc: string)
    ensures "final:" <= EventKey(digest, session, epc)
  {
  }

  /** The key of an event is read from the left: the prefix, 24 characters for the session, 24 for the EPC. */
  lemma {:induction false} KeyLayout(digest: Digest, session: string, epc: string)
    requires |digest(session)| == 24 && |digest(epc)| == 24
    ensures
      var key := EventKey(digest, session, epc);
      |key| == 55 && key[..6] == "final:" && key[6..30] == digest(session) && key[30] == ':' && key[31..] == digest(epc)
  {
    var key := EventKey(digest, session, epc);
    assert key == ("final:" + digest(session)) + ":" + digest(epc);
    assert key[..30] == "final:" + digest(session);
    assert key[30..] == ":" + digest(epc);
  }

  lemma {:induction false} IngestKeepsKeyed(db: Db, digest: Digest, device: Device, session: string, frames: seq<Frame>)
    requires UniqueKeys(db.events) && KeyedRows(db.events, digest)
    requires Ingest(db, digest, device, session, frames).Ok?
    ensures KeyedRows(Ingest(db, digest, device, session, frames).value.0.events, digest)
  {
    hide Ingest, EventKey, EpcOf, UniqueKeys;
    IngestOk(db, digest, device, session, frames);
    var after := Ingest(db, digest, device, session, frames).value.0.events;
    forall i | 0 <= i < |after| ensures KeyedRow(after[i], digest) {
      if i < |db.events| {
        assert after[i] == after[..|db.events|][i] == db.events[i];
      }
    }
  }

  /** One row per EPC. */
  lemma {:induction false} OneRowPerEpc(events: seq<Event>, digest: Digest, reader: string, session: string, i: nat, j: nat)
    requires UniqueKeys(events) && KeyedRows(events, digest)
    requires i < |events| && j < |events|
    requires InSession(events[i], session, reader) && InSession(events[j], session, reader)
    requires events[i].epc == events[j].epc
    ensures i == j
  {
    hide EventKey;
    assert KeyedRow(events[i], digest) && KeyedRow(events[j], digest);
  }

  /** Distinct elements: as many as the sequence is long. */
  lemma {:induction false} DistinctCount(epcs: seq<string>)
    requires forall i, j :: 0 <= i < |epcs| && 0 <= j < |epcs| && epcs[i] == epcs[j] ==> i == j
    ensures |set i | 0 <= i < |epcs| :: epcs[i]| == |epcs|
  {
    var all := set i | 0 <= i < |epcs| :: epcs[i];
    if epcs != [] {
      var n := |epcs| - 1;
      var front := epcs[..n];
      DistinctCount(front);
      var some := set i | 0 <= i < |front| :: front[i];
      assert epcs[n] !in some;
      forall e | e in all ensures e in some + {epcs[n]} {
        var i :| 0 <= i < |epcs| && e == epcs[i];
        if i < n { assert e == front[i]; }
      }
      forall e | e in some + {epcs[n]} ensures e in all {
        if e in some {
          var i :| 0 <= i < |front| && e == front[i];
          assert e == epcs[i];
        }
      }
      assert all == some + {epcs[n]};
    }
  }

  /** The rows that a call added carry distinct EPCs, new to the session. */
  lemma AddedRows(before: seq<Event>, after: seq<Event>, digest: Digest, reader: string, session: string, rows: seq<string>)
    requires UniqueKeys(after) && KeyedRows(after, digest)
    requires |after| == |before| + |rows|
    requires forall i :: 0 <= i < |before| ==> after[i] == before[i]
    requires forall i :: 0 <= i < |rows| ==> InSession(after[|before| + i], session, reader) && after[|before| + i].epc == rows[i]
    ensures |set i | 0 <= i < |rows| :: rows[i]| == |rows|
    ensures forall i :: 0 <= i < |rows| ==> rows[i] !in Epcs(before, reader, session)
  {
    hide UniqueKeys, KeyedRows;
    var n := |before|;
    forall i, j | 0 <= i < |rows| && 0 <= j < |rows| && rows[i] == rows[j] ensures i == j {
      OneRowPerEpc(after, digest, reader, session, n + i, n + j);
    }
    DistinctCount(rows);
    forall i | 0 <= i < |rows| ensures rows[i] !in Epcs(before, reader, session) {
      if rows[i] in Epcs(before, reader, session) {
        var j :| 0 <= j < n && InSession(before[j], session, reader) && before[j].epc == rows[i];
        OneRowPerEpc(after, digest, reader, session, n + i, j);
      }
    }
  }

  /** A successful call adds exactly its EPCs to its session, and counts the new ones. */
  lemma {:induction false} IngestIsUnion(db: Db, digest: Digest, device: Device, session: string, frames: seq<Frame>)
    requires UniqueKeys(db.events) && KeyedRows(db.events, digest)
    requires Ingest(db, digest, device, session, frames).Ok?
    ensures
      var (db', result) := Ingest(db, digest, device, session, frames).value;
      var before := Epcs(db.events, device.code, session);
      && Epcs(db'.events, device.code, session) == before + EpcsOf(frames)
      && result.created == |EpcsOf(frames) - before|
  {
    hide Ingest, EventKey, EpcOf, UniqueKeys, KeyedRows, EpcsOf, Epcs, HasRow;
    IngestOk(db, digest, device, session, frames);
    IngestKeepsKeyed(db, digest, device, session, frames);
    var (after, n) := (Ingest(db, digest, device, session, frames).value.0.events, |db.events|);
    var rows := seq(|after| - n, i requires 0 <= i < |after| - n => after[n + i].epc);
    forall i | n <= i < |after| ensures InSession(after[i], session, device.code) && after[i].epc in EpcsOf(frames) {
      KeyIsFinal(digest, session, after[i].epc);
    }
    assert forall i :: 0 <= i < n ==> after[i] == after[..n][i] == db.events[i];
    AddedRows(db.events, after, digest, device.code, session, rows);
    AddedEpcs(db.events, after, device.code, session, rows);
    var before, placed := Epcs(db.events, device.code, session), set i | 0 <= i < |rows| :: rows[i];
    forall e | e in EpcsOf(frames) ensures e in before + placed {
      FrameHasEpc(after, digest, device.code, session, frames, e);
    }
    NewOnes(before, placed, EpcsOf(frames));
  }

  lemma NewOnes(before: set<string>, placed: set<string>, all: set<string>)
    requires placed <= all <= before + placed && placed !! before
    ensures all - before == placed && before + placed == before + all
  {
  }

  lemma AddedEpcs(before: seq<Event>, after: seq<Event>, reader: string, session: string, rows: seq<string>)
    requires |after| == |before| + |rows|
    requires forall i :: 0 <= i < |before| ==> after[i] == before[i]
    requires forall i :: 0 <= i < |rows| ==> InSession(after[|before| + i], session, reader) && after[|before| + i].epc == rows[i]
    ensures Epcs(after, reader, session) == Epcs(before, reader, session) + set i | 0 <= i < |rows| :: rows[i]
  {
    var placed := set i | 0 <= i < |rows| :: rows[i];
    forall e | e in Epcs(after, reader, session) ensures e in Epcs(before, reader, session) + placed {
      var i :| 0 <= i < |after| && InSession(after[i], session, reader) && after[i].epc == e;
      if i >= |before| { assert rows[i - |before|] == e; }
    }
    forall e | e in Epcs(before, reader, session) + placed ensures e in Epcs(after, reader, session) {
      if e in placed {
        var i :| 0 <= i < |rows| && rows[i] == e;
        assert after[|before| + i].epc == e;
      } else {
        var i :| 0 <= i < |before| && InSession(before[i], session, reader) && before[i].epc == e;
        assert after[i].epc == e;
      }
    }
  }

  lemma FrameHasEpc(events: seq<Event>, digest: Digest, reader: string, session: string, frames: seq<Frame>, epc: string)
    requires forall k :: 0 <= k < |frames| ==> HasRow(events, digest, reader, session, EpcOf(frames[k]))
    requires epc in EpcsOf(frames)
    ensures epc in Epcs(events, reader, session)
  {
    hide EventKey, EpcOf;
    var k :| 0 <= k < |frames| && EpcOf(frames[k]) == epc;
    var i :| 0 <= i < |events| && IsRowOf(events[i], digest, reader, session, epc);
    KeyIsFinal(digest, session, epc);
  }

  // ---------------------------------------------------------------- whole runs

  /**
    A call for any reader and session, or any change to queue states and attempts.
    An arbitrary choice of calls stands for every way to batch the frames.
   */
  datatype Change =
    | Call(device: Device, session: string, frames: seq<Frame>)
    | Touch(events: seq<Event>)
    | Sessions(sessions: map<string, Session>)

  /** Delivery moves events through the queue; it never moves them elsewhere. */
  ghost predicate SameRows(before: seq<Event>, after: seq<Event>) {
    && |before| == |after|
    && forall i :: 0 <= i < |before| ==> after[i].(state := before[i].state, attempts := before[i].attempts) == before[i]
  }

  ghost function Changed(db: Db, digest: Digest, step: Change): Db {
    match step
    case Call(device, session, frames) =>
      (match Ingest(db, digest, device, session, frames) case Ok((db', _)) => db' case Err(_) => db)
    case Touch(events) => if SameRows(db.events, events) then db.(events := events) else db
    case Sessions(sessions) => db.(sessions := sessions)
  }

  ghost function Replay(db: Db, digest: Digest, steps: seq<Change>): Db
    decreases |steps|
  {
    if steps == [] then db else Replay(Changed(db, digest, steps[0]), digest, steps[1..])
  }

  /** The EPCs and the creations of the successful calls for one session. */
  ghost function Gain(db: Db, digest: Digest, step: Change, reader: string, session: string): (set<string>, nat) {
    if step.Call? && step.device.code == reader && step.session == session then
      match Ingest(db, digest, step.device, session, step.frames)
      case Ok((_, result)) => (EpcsOf(step.frames), result.created)
      case Err(_) => ({}, 0)
    else ({}, 0)
  }

  ghost function Gains(db: Db, digest: Digest, steps: seq<Change>, reader: string, session: string): (set<string>, nat)
    decreases |steps|
  {
    if steps == [] then ({}, 0)
    else
      var first := Gain(db, digest, steps[0], reader, session);
      var rest := Gains(Changed(db, digest, steps[0]), digest, steps[1..], reader, session);
      (first.0 + rest.0, first.1 + rest.1)
  }

  lemma {:induction false} AfterStep(db: Db, digest: Digest, step: Change, reader: string, session: string)
    requires UniqueKeys(db.events) && KeyedRows(db.events, digest)
    ensures
      var db' := Changed(db, digest, step);
      var (epcs, created) := Gain(db, digest, step, reader, session);
      && UniqueKeys(db'.events) && KeyedRows(db'.events, digest)
      && Epcs(db'.events, reader, session) == Epcs(db.events, reader, session) + epcs
      && created == |epcs - Epcs(db.events, reader, session)|
  {
    hide Ingest, EventKey, EpcOf, EpcsOf;
    var db' := Changed(db, digest, step);
    match step
    case Sessions(_) =>
    case Touch(events) =>
      SameEpcs(db.events, db'.events, reader, session);
    case Call(device, key, frames) =>
      if Ingest(db, digest, device, key, frames).Ok? {
        IngestOk(db, digest, device, key, frames);
        IngestKeepsKeyed(db, digest, device, key, frames);
        if device.code == reader && key == session {
          IngestIsUnion(db, digest, device, key, frames);
        } else {
          OtherEpcs(db.events, db'.events, digest, device.code, key, frames, reader, session);
        }
      }
  }

  lemma SameEpcs(before: seq<Event>, after: seq<Event>, reader: string, session: string)
    requires before == after || SameRows(before, after)
    ensures Epcs(after, reader, session) == Epcs(before, reader, session)
  {
    forall i | 0 <= i < |before|
      ensures InSession(after[i], session, reader) == InSession(before[i], session, reader) && after[i].epc == before[i].epc
    {
    }
  }

  lemma OtherEpcs(before: seq<Event>, after: seq<Event>, digest: Digest, device: string, key: string, frames: seq<Frame>,
                  reader: string, session: string)
    requires |before| <= |after| && after[..|before|] == before
    requires forall i :: |before| <= i < |after| ==> NewFinalRow(after[i], digest, device, key, frames)
    requires device != reader || key != session
    ensures Epcs(after, reader, session) == Epcs(before, reader, session)
  {
    hide EpcsOf, EventKey;
    assert forall i :: 0 <= i < |before| ==> after[i] == after[..|before|][i] == before[i];
    assert forall i :: |before| <= i < |after| ==> !InSession(after[i], session, reader);
  }

  /**
    Over every run and every batching, the final rows of a session are one per
    distinct EPC that its successful calls observed, and `created` adds up to them.
   */
  lemma {:induction false} RunsAreUnions(db: Db, digest: Digest, steps: seq<Change>, reader: string, session: string)
    requires UniqueKeys(db.events) && KeyedRows(db.events, digest)
    ensures
      var db' := Replay(db, digest, steps);
      var (epcs, created) := Gains(db, digest, steps, reader, session);
      && UniqueKeys(db'.events) && KeyedRows(db'.events, digest)
      && Epcs(db'.events, reader, session) == Epcs(db.events, reader, session) + epcs
      && created == |epcs - Epcs(db.events, reader, session)|
    decreases |steps|
  {
    hide Changed, Gain, Epcs, UniqueKeys, KeyedRows;
    if steps != [] {
      AfterStep(db, digest, steps[0], reader, session);
      var next := Changed(db, digest, steps[0]);
      RunsAreUnions(next, digest, steps[1..], reader, session);
      var before := Epcs(db.events, reader, session);
      var first := Gain(db, digest, steps[0], reader, session).0;
      var rest := Gains(next, digest, steps[1..], reader, session).0;
      assert (first + rest) - before == (first - before) + (rest - (before + first));
      assert (first - before) !! (rest - (before + first));
    }
  }
}
