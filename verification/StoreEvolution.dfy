/**
  How the shared database may change, whoever changes it: session rows only move
  forward, event rows keep their identity, SENT, REJECTED and DEAD are final, and a new event belongs
  to a session that is ACTIVE on the event's reader.
 */
module StoreEvolution {
  import opened Wrappers
  import opened Crc
  import opened ReaderProtocol
  import opened Store
  import opened QueuePolicy
  import opened DeliveryService
  import opened RuntimeState
  import opened SessionService
  import opened DeliveryBarrier
  import opened TagIngestion
  import opened IngestionUnion

  /** The database's constraints, and the keying of final rows. */
  ghost predicate StoreOk(digest: Digest, db: Db) {
    OneActive(db.sessions) && UniqueKeys(db.events) && KeyedRows(db.events, digest)
  }

  /** The same event, later. */
  predicate Later(before: Event, after: Event) {
    && after.device == before.device && after.key == before.key && after.epc == before.epc && after.session == before.session
    && (Terminal(before.state) ==> after.state == before.state)
  }

  /** A row that a reader could add while these sessions were in force. */
  predicate Addable(sessions: map<string, Session>, e: Event) {
    && e.session.Some?
    && e.session.value in sessions
    && sessions[e.session.value].status.Active?
    && sessions[e.session.value].device == e.device
  }

  ghost predicate EventsEvolve(sessions: map<string, Session>, before: seq<Event>, after: seq<Event>) {
    && |before| <= |after|
    && (forall i :: 0 <= i < |before| ==> Later(before[i], after[i]))
    && (forall i :: |before| <= i < |after| ==> Addable(sessions, after[i]))
  }

  ghost predicate Evolves(before: Db, after: Db) {
    Advances(before.sessions, after.sessions) && EventsEvolve(before.sessions, before.events, after.events)
  }

  // -------------------------------------------------------------- each writer

  lemma SessionsEvolve(digest: Digest, db: Db, sessions: map<string, Session>)
    requires StoreOk(digest, db) && Advances(db.sessions, sessions) && OneActive(sessions)
    ensures Evolves(db, db.(sessions := sessions)) && StoreOk(digest, db.(sessions := sessions))
  {
    hide UniqueKeys, KeyedRows, Advances, OneActive;
  }

  lemma {:induction false} IngestEvolves(digest: Digest, db: Db, device: Device, key: string, frames: seq<Frame>)
    requires StoreOk(digest, db) && Ingest(db, digest, device, key, frames).Ok?
    ensures
      var db' := Ingest(db, digest, device, key, frames).value.0;
      Evolves(db, db') && StoreOk(digest, db') && db'.sessions == db.sessions
  {
    hide Ingest, UniqueKeys, KeyedRows, OneActive, EpcsOf, EpcOf, EventKey, HasRow;
    IngestOk(db, digest, device, key, frames);
    IngestKeepsKeyed(db, digest, device, key, frames);
    var after := Ingest(db, digest, device, key, frames).value.0.events;
    forall i | 0 <= i < |db.events| ensures Later(db.events[i], after[i]) {
      assert after[i] == after[..|db.events|][i];
    }
  }

  /** A queue operation on one row, by any worker, however stale. */
  lemma {:induction false} RowEvolves(digest: Digest, db: Db, id: nat, e: Event)
    requires StoreOk(digest, db) && id < |db.events|
    requires Later(db.events[id], e)
    ensures
      var db' := db.(events := db.events[id := e]);
      Evolves(db, db') && StoreOk(digest, db')
  {
    hide OneActive, EventKey;
    var after := db.events[id := e];
    forall i | 0 <= i < |after| ensures KeyedRow(after[i], digest) {
      assert KeyedRow(db.events[i], digest);
    }
  }

  // --------------------------------------------------------------- finality

  /** A closed session, with everything observed in it delivered. */
  ghost predicate Final(db: Db, key: string, reader: string) {
    && key in db.sessions && db.sessions[key].status.Closed? && db.sessions[key].device == reader
    && AllSent(db.events, key, reader)
  }

  /** A finished session gets no further event. */
  lemma NoRowAdded(before: Db, after: Db, key: string)
    requires Evolves(before, after) && key in before.sessions && !before.sessions[key].status.Active?
    ensures forall i :: |before.events| <= i < |after.events| ==> after.events[i].session != Some(key)
  {
  }

  lemma {:induction false} FinalIsForever(before: Db, after: Db, key: string, reader: string)
    requires Evolves(before, after) && Final(before, key, reader)
    ensures Final(after, key, reader)
  {
    NoRowAdded(before, after, key);
    forall i | 0 <= i < |after.events| && InSession(after.events[i], key, reader) ensures after.events[i].state.Sent? {
      assert i < |before.events|;
      assert Later(before.events[i], after.events[i]);
      assert InSession(before.events[i], key, reader);
    }
  }

  lemma RowIsForever(before: Db, after: Db, digest: Digest, reader: string, session: string, epc: string)
    requires Evolves(before, after) && HasRow(before.events, digest, reader, session, epc)
    ensures HasRow(after.events, digest, reader, session, epc)
  {
    hide EventKey;
    var i :| 0 <= i < |before.events| && IsRowOf(before.events[i], digest, reader, session, epc);
    assert Later(before.events[i], after.events[i]);
    assert IsRowOf(after.events[i], digest, reader, session, epc);
  }
}
