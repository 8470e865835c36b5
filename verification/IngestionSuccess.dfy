/**
  When a call of ingest_final_active_tag_frames succeeds, said without the
  transaction's own steps (bridge_core/final_tag_ingestion.py:141-261).
 */
module IngestionSuccess {
  import opened Wrappers
  import opened Crc
  import opened ReaderProtocol
  import opened TagData
  import opened Store
  import opened SessionService
  import opened DeliveryBarrier
  import opened TagIngestion
  import opened IngestionUnion

  /** An observation by this reader that has an EPC. */
  predicate Observation(device: Device, frame: Frame) {
    frame.command == 0xF9 && frame.address == device.address && frame.status == 0 && EpcOf(frame) != ""
  }

  ghost predicate Observations(device: Device, frames: seq<Frame>) {
    forall i :: 0 <= i < |frames| ==> Observation(device, frames[i])
  }

  /** The reader may serve sessions of this operation. */
  predicate Serves(device: Device, operation: Operation) {
    device.shared || (device.role.Receiving? && operation.Receipt?) || (device.role.Dispatching? && operation.Dispatch?)
  }

  /** The frames' EPCs have distinct keys, and no row holds such a key for anything else. */
  ghost predicate NoCollision(events: seq<Event>, digest: Digest, reader: string, session: string, frames: seq<Frame>) {
    && (forall i, j | 0 <= i < |frames| && 0 <= j < |frames| ::
         EventKey(digest, session, EpcOf(frames[i])) == EventKey(digest, session, EpcOf(frames[j])) ==>
           EpcOf(frames[i]) == EpcOf(frames[j]))
    && (forall i, k | 0 <= i < |events| && 0 <= k < |frames| ::
         events[i].device == reader && events[i].key == EventKey(digest, session, EpcOf(frames[k])) ==>
           events[i].epc == EpcOf(frames[k]) && events[i].session == Some(session))
  }

  /** The session's rows of these EPCs are on their way to Odoo, or there. */
  ghost predicate UnderWay(events: seq<Event>, reader: string, session: string, frames: seq<Frame>) {
    forall i :: 0 <= i < |events| && InSession(events[i], session, reader) && events[i].epc in EpcsOf(frames) ==>
      events[i].state in {QueueState.Queued, QueueState.Inflight, QueueState.Retry, QueueState.Sent}
  }

  /** The session may take the call: it is named, this reader's, ACTIVE, and the reader is enabled. */
  predicate Open(db: Db, device: Device, session: string) {
    && 1 <= |session| <= 128 && device.enabled
    && session in db.sessions && db.sessions[session].device == device.code && db.sessions[session].status.Active?
  }

  lemma ToReadIff(digest: Digest, device: Device, session: string, frame: Frame)
    ensures ToRead(digest, device, session, frame).Ok? <==> Observation(device, frame)
  {
    hide ParsedTag, EventKey;
  }

  lemma {:induction false} ToReadsIff(digest: Digest, device: Device, session: string, frames: seq<Frame>)
    ensures ToReads(digest, device, session, frames).Ok? <==> Observations(device, frames)
  {
    hide ToRead, Observation;
    if frames != [] {
      ToReadIff(digest, device, session, frames[0]);
      ToReadsIff(digest, device, session, frames[1..]);
      assert Observations(device, frames) <==> Observation(device, frames[0]) && Observations(device, frames[1..]) by {
        forall i | 1 <= i < |frames| ensures frames[i] == frames[1..][i - 1] {
        }
      }
    }
  }

  ghost predicate HasKey(events: seq<Event>, device: string, key: string) {
    exists i :: 0 <= i < |events| && events[i].device == device && events[i].key == key
  }

  lemma {:induction false} CreateCovers(events: seq<Event>, device: string, observed: seq<Read>, key: string)
    ensures
      HasKey(Create(events, device, observed), device, key) <==>
      HasKey(events, device, key) || exists w :: 0 <= w < |observed| && observed[w].key == key
    decreases |observed|
  {
    if observed != [] {
      var found := FindRow(events, device, observed[0].key).Some?;
      var next := if found then events else events + [NewRow(device, observed[0])];
      CreateCovers(next, device, observed[1..], key);
      assert HasKey(next, device, key) <==> HasKey(events, device, key) || observed[0].key == key by {
        NextHasKey(events, device, observed[0], key);
      }
      if w :| 0 <= w < |observed| && observed[w].key == key {
        if w > 0 { assert observed[1..][w - 1].key == key; }
      }
      if w :| 0 <= w < |observed[1..]| && observed[1..][w].key == key {
        assert observed[w + 1].key == key;
      }
    }
  }

  lemma NextHasKey(events: seq<Event>, device: string, read: Read, key: string)
    ensures HasKey(events + [NewRow(device, read)], device, key) <==> HasKey(events, device, key) || read.key == key
  {
    var next := events + [NewRow(device, read)];
    assert next[|events|].key == read.key;
    assert forall i :: 0 <= i < |events| ==> next[i] == events[i];
  }

  /** Of the rows with a key there is one, before or after. */
  lemma RowAt(events: seq<Event>, device: string, key: string, i: nat)
    requires UniqueKeys(events) && i < |events| && events[i].device == device && events[i].key == key
    ensures FindRow(events, device, key) == Some(i)
  {
  }

  lemma PersistedHasKey(events: seq<Event>, device: string, session: string, observed: seq<Read>, w: nat)
    requires w < |observed|
    ensures HasKey(Persisted(events, device, session, observed), device, observed[w].key)
  {
    hide Create, FindRow;
    CreateCovers(events, device, observed, observed[w].key);
    var created := Create(events, device, observed);
    var i :| 0 <= i < |created| && created[i].device == device && created[i].key == observed[w].key;
    var after := Persisted(events, device, session, observed);
    assert after[i].device == created[i].device && after[i].key == created[i].key by {
      if i < |events| { assert created[i] == created[..|events|][i]; }
    }
  }

  // ---------------------------------------------------------- one direction

  lemma {:induction false} SuccessMeans(db: Db, digest: Digest, device: Device, session: string, frames: seq<Frame>)
    requires UniqueKeys(db.events) && KeyedRows(db.events, digest)
    requires Ingest(db, digest, device, session, frames).Ok?
    ensures Open(db, device, session) && Observations(device, frames)
    ensures EpcsOf(frames) <= Epcs(db.events, device.code, session) || Serves(device, db.sessions[session].operation)
    ensures NoCollision(db.events, digest, device.code, session, frames)
    ensures UnderWay(db.events, device.code, session, frames)
  {
    hide ToReads, Persisted, EventKey, EpcOf, EpcsOf, Epcs, QueuedCount, UniqueKeys, KeyedRows, AllIntact, Observation;
    ToReadsIff(digest, device, session, frames);
    IngestIsUnion(db, digest, device, session, frames);
    EmptyDifference(EpcsOf(frames), Epcs(db.events, device.code, session));
    RowsMatch(db, digest, device, session, frames);
  }

  lemma EmptyDifference(a: set<string>, b: set<string>)
    ensures |a - b| == 0 ==> a <= b
  {
    if |a - b| == 0 {
      assert a - b == {};
      forall e | e in a ensures e in b {
        assert e in a - b || e in b;
      }
    }
  }

  lemma CommitChecks(db: Db, digest: Digest, device: Device, session: string, frames: seq<Frame>)
    requires Ingest(db, digest, device, session, frames).Ok?
    ensures
      var observed := ToReads(digest, device, session, frames);
      var after := Ingest(db, digest, device, session, frames).value.0.events;
      && observed.Ok? && after == Persisted(db.events, device.code, session, observed.value)
      && AllIntact(after, device.code, session, observed.value)
  {
    hide ToReads, Persisted, AllIntact, QueuedCount, Assignable;
  }

  /** After a successful call, the row of a frame's key is that frame's. */
  lemma RowMatches(db: Db, digest: Digest, device: Device, session: string, frames: seq<Frame>, i: nat, k: nat)
    requires UniqueKeys(db.events) && Ingest(db, digest, device, session, frames).Ok?
    requires
      var after := Ingest(db, digest, device, session, frames).value.0.events;
      i < |after| && k < |frames|
      && after[i].device == device.code && after[i].key == EventKey(digest, session, EpcOf(frames[k]))
    ensures Ingest(db, digest, device, session, frames).value.0.events[i].epc == EpcOf(frames[k])
    ensures Ingest(db, digest, device, session, frames).value.0.events[i].session == Some(session)
    ensures
      Ingest(db, digest, device, session, frames).value.0.events[i].state
      in {QueueState.Queued, QueueState.Inflight, QueueState.Retry, QueueState.Sent}
  {
    hide Ingest, ToReads, Persisted, FindRow, EventKey, EpcOf, QueuedCount, UniqueKeys;
    CommitChecks(db, digest, device, session, frames);
    var observed := ToReads(digest, device, session, frames).value;
    var after := Ingest(db, digest, device, session, frames).value.0.events;
    PersistedShape(db.events, device.code, session, observed);
    ReadsOfFrames(digest, device, session, frames);
    RowAt(after, device.code, observed[k].key, i);
    assert RowIntact(after, device.code, session, observed[k]);
  }

  lemma RowsMatch(db: Db, digest: Digest, device: Device, session: string, frames: seq<Frame>)
    requires UniqueKeys(db.events) && KeyedRows(db.events, digest)
    requires Ingest(db, digest, device, session, frames).Ok?
    ensures NoCollision(db.events, digest, device.code, session, frames)
    ensures UnderWay(db.events, device.code, session, frames)
  {
    hide Ingest, EventKey, EpcOf, UniqueKeys, KeyedRows;
    IngestOk(db, digest, device, session, frames);
    var after := Ingest(db, digest, device, session, frames).value.0.events;
    assert forall i :: 0 <= i < |db.events| ==> db.events[i] == after[..|db.events|][i] == after[i];
    forall i, j | 0 <= i < |frames| && 0 <= j < |frames|
                  && EventKey(digest, session, EpcOf(frames[i])) == EventKey(digest, session, EpcOf(frames[j]))
      ensures EpcOf(frames[i]) == EpcOf(frames[j])
    {
      assert HasRow(after, digest, device.code, session, EpcOf(frames[i]));
      var row :| 0 <= row < |after| && IsRowOf(after[row], digest, device.code, session, EpcOf(frames[i]));
      RowMatches(db, digest, device, session, frames, row, j);
    }
    forall i, k | 0 <= i < |db.events| && 0 <= k < |frames|
                  && db.events[i].device == device.code && db.events[i].key == EventKey(digest, session, EpcOf(frames[k]))
      ensures db.events[i].epc == EpcOf(frames[k]) && db.events[i].session == Some(session)
    {
      RowMatches(db, digest, device, session, frames, i, k);
    }
    forall i | 0 <= i < |db.events| && InSession(db.events[i], session, device.code) && db.events[i].epc in EpcsOf(frames)
      ensures db.events[i].state in {QueueState.Queued, QueueState.Inflight, QueueState.Retry, QueueState.Sent}
    {
      var k :| 0 <= k < |frames| && EpcOf(frames[k]) == db.events[i].epc;
      SessionRowKey(db.events, digest, device.code, session, i);
      RowMatches(db, digest, device, session, frames, i, k);
    }
  }

  lemma SessionRowKey(events: seq<Event>, digest: Digest, reader: string, session: string, i: nat)
    requires KeyedRows(events, digest) && i < |events| && InSession(events[i], session, reader)
    ensures events[i].key == EventKey(digest, session, events[i].epc)
  {
    hide EventKey;
    assert KeyedRow(events[i], digest);
  }

  // -------------------------------------------------------- and the other

  lemma {:induction false} SuccessFollows(db: Db, digest: Digest, device: Device, session: string, frames: seq<Frame>)
    requires UniqueKeys(db.events) && KeyedRows(db.events, digest)
    requires Open(db, device, session) && Observations(device, frames)
    requires EpcsOf(frames) <= Epcs(db.events, device.code, session) || Serves(device, db.sessions[session].operation)
    requires NoCollision(db.events, digest, device.code, session, frames)
    requires UnderWay(db.events, device.code, session, frames)
    ensures Ingest(db, digest, device, session, frames).Ok?
  {
    hide ToReads, Persisted, EventKey, EpcOf, Epcs, QueuedCount, UniqueKeys, KeyedRows, Observation, NoCollision, UnderWay, RowIntact;
    ToReadsIff(digest, device, session, frames);
    var observed := ToReads(digest, device, session, frames).value;
    var after := Persisted(db.events, device.code, session, observed);
    PersistedShape(db.events, device.code, session, observed);
    ReadsOfFrames(digest, device, session, frames);
    forall k | 0 <= k < |observed| ensures RowIntact(after, device.code, session, observed[k]) {
      FrameIntact(db.events, digest, device.code, session, frames, observed, k);
    }
    if |after| > |db.events| {
      NewEpc(db.events, digest, device.code, session, frames, observed);
    }
  }

  lemma FrameIntact(
    events: seq<Event>, digest: Digest, reader: string, session: string, frames: seq<Frame>, observed: seq<Read>, k: nat)
    requires UniqueKeys(events) && NoCollision(events, digest, reader, session, frames)
    requires UnderWay(events, reader, session, frames)
    requires |observed| == |frames| && k < |frames|
    requires forall i :: 0 <= i < |frames| ==> observed[i] == ReadOf(digest, session, frames[i])
    ensures RowIntact(Persisted(events, reader, session, observed), reader, session, observed[k])
  {
    hide Persisted, FindRow, EventKey, EpcOf, UniqueKeys;
    var after := Persisted(events, reader, session, observed);
    PersistedShape(events, reader, session, observed);
    PersistedHasKey(events, reader, session, observed, k);
    var i :| 0 <= i < |after| && after[i].device == reader && after[i].key == observed[k].key;
    RowAt(after, reader, observed[k].key, i);
    if i < |events| {
      assert after[i] == after[..|events|][i] == events[i];
      assert events[i].key == EventKey(digest, session, EpcOf(frames[k]));
      KeyIsFinal(digest, session, EpcOf(frames[k]));
      assert InSession(events[i], session, reader) && EpcOf(frames[k]) in EpcsOf(frames);
    } else {
      assert PersistedRow(after[i], reader, session, observed);
      var w :| 0 <= w < |observed| && after[i] == Event(reader, observed[w].key, observed[w].epc, Some(session), QueueState.Queued, []);
      assert EventKey(digest, session, EpcOf(frames[w])) == EventKey(digest, session, EpcOf(frames[k]));
    }
  }

  /** A row is only added for an EPC that the session did not have. */
  lemma NewEpc(events: seq<Event>, digest: Digest, reader: string, session: string, frames: seq<Frame>, observed: seq<Read>)
    requires UniqueKeys(events) && KeyedRows(events, digest)
    requires |observed| == |frames| && forall i :: 0 <= i < |frames| ==> observed[i] == ReadOf(digest, session, frames[i])
    requires |Persisted(events, reader, session, observed)| > |events|
    ensures !(EpcsOf(frames) <= Epcs(events, reader, session))
  {
    hide Persisted, EventKey, EpcOf, KeyedRows, UniqueKeys;
    var n := |events|;
    var after := Persisted(events, reader, session, observed);
    PersistedShape(events, reader, session, observed);
    assert PersistedRow(after[n], reader, session, observed);
    var w :| 0 <= w < |observed| && after[n] == Event(reader, observed[w].key, observed[w].epc, Some(session), QueueState.Queued, []);
    assert EpcOf(frames[w]) in EpcsOf(frames);
    if EpcOf(frames[w]) in Epcs(events, reader, session) {
      var j :| 0 <= j < n && InSession(events[j], session, reader) && events[j].epc == EpcOf(frames[w]);
      SessionRowKey(events, digest, reader, session, j);
      assert after[j] == after[..n][j];
      Distinct(after, j, n);
    }
  }

  lemma Distinct(events: seq<Event>, i: nat, j: nat)
    requires UniqueKeys(events) && i < |events| && j < |events| && i != j
    ensures events[i].device != events[j].device || events[i].key != events[j].key
  {
  }

  /**
    A call succeeds exactly if the session takes it, every frame is an observation,
    a new EPC fits the reader's role, no digest collides, and what the session
    already has of these EPCs has neither been given up nor lost its place in the
    queue. In particular a tag may be read again in any state of its delivery.
   */
  lemma {:induction false} IngestSucceedsIff(db: Db, digest: Digest, device: Device, session: string, frames: seq<Frame>)
    requires UniqueKeys(db.events) && KeyedRows(db.events, digest)
    ensures
      Ingest(db, digest, device, session, frames).Ok? <==>
      && Open(db, device, session) && Observations(device, frames)
      && (EpcsOf(frames) <= Epcs(db.events, device.code, session) || Serves(device, db.sessions[session].operation))
      && NoCollision(db.events, digest, device.code, session, frames)
      && UnderWay(db.events, device.code, session, frames)
  {
    hide Ingest, Epcs, EpcsOf, NoCollision, UnderWay, Observations, UniqueKeys, KeyedRows, Serves;
    if Ingest(db, digest, device, session, frames).Ok? {
      SuccessMeans(db, digest, device, session, frames);
    }
    if Open(db, device, session) && Observations(device, frames)
       && (EpcsOf(frames) <= Epcs(db.events, device.code, session) || Serves(device, db.sessions[session].operation))
       && NoCollision(db.events, digest, device.code, session, frames)
       && UnderWay(db.events, device.code, session, frames)
    {
      SuccessFollows(db, digest, device, session, frames);
    }
  }
}
