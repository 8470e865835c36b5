/**
  Persisting tag observations (bridge_core/final_tag_ingestion.py,
  bridge_core/ingestion.py, bridge_core/session_assignment.py,
  bridge_core/session_assignment_cycle.py). The digest of an event key is an
  arbitrary function: nothing below assumes that it avoids collisions.
 */
module TagIngestion {
  import opened Wrappers
  import opened Crc
  import opened ReaderProtocol
  import opened TagData
  import opened Store
  import opened QueuePolicy
  import opened SessionService

  type Digest = string -> string

  datatype Read = Read(key: string, epc: string)

  /** _event_key */
  function EventKey(digest: Digest, sessionKey: string, epc: string): string {
    "final:" + digest(sessionKey) + ":" + digest(epc)
  }

  /** _frame_to_technical_read; the EPC is hexadecimal upper case as parsed. */
  function ToRead(digest: Digest, device: Device, sessionKey: string, frame: Frame): Result<Read> {
    if frame.command != COMMAND_ACTIVE_TAG then Err("Final tag ingestion accepts active RFID tag frames only.")
    else if frame.address != device.address then Err("Active tag frame reader address mismatch.")
    else if frame.status != 0 then Err("Active tag frame reports reader failure status.")
    else
      var tag :- ParsedTag(frame.payload);
      if tag.epc == "" then Err("Active tag frame does not contain an EPC.")
      else Ok(Read(EventKey(digest, sessionKey, tag.epc), tag.epc))
  }

  function ToReads(digest: Digest, device: Device, sessionKey: string, frames: seq<Frame>): (r: Result<seq<Read>>)
    ensures r.Ok? ==> |r.value| == |frames|
    ensures r.Ok? ==> forall i :: 0 <= i < |frames| ==> ToRead(digest, device, sessionKey, frames[i]) == Ok(r.value[i])
  {
    if frames == [] then Ok([])
    else
      var first :- ToRead(digest, device, sessionKey, frames[0]);
      var rest :- ToReads(digest, device, sessionKey, frames[1..]);
      Ok([first] + rest)
  }

  /** The row with this device and event key, of which there is at most one. */
  function FindRow(events: seq<Event>, device: string, key: string): (row: Option<nat>)
    ensures row.Some? ==> row.value < |events| && events[row.value].device == device && events[row.value].key == key
    ensures row.None? ==> forall i :: 0 <= i < |events| ==> !(events[i].device == device && events[i].key == key)
  {
    if events == [] then None
    else if events[0].device == device && events[0].key == key then Some(0)
    else match FindRow(events[1..], device, key) case Some(i) => Some(i + 1) case None => None
  }

  function NewRow(device: string, read: Read): Event {
    Event(device, read.key, read.epc, None, QueueState.Unassigned, [])
  }

  /** ingest_technical_reads: get_or_create for each read. */
  function Create(events: seq<Event>, device: string, observed: seq<Read>): (events': seq<Event>)
    ensures |events| <= |events'| && events'[..|events|] == events
    decreases |observed|
  {
    if observed == [] then events
    else if FindRow(events, device, observed[0].key).Some? then Create(events, device, observed[1..])
    else Create(events + [NewRow(device, observed[0])], device, observed[1..])
  }

  ghost function ActiveKeys(sessions: map<string, Session>, device: string): set<string> {
    set k | k in sessions && sessions[k].device == device && sessions[k].status.Active?
  }

  datatype Assignment = Assigned(event: Event) | AssignmentFailed

  /** assign_event_to_active_session, given the session that the query finds. */
  function AssignTo(e: Event, device: Device, key: string, session: Session): Assignment {
    if !e.state.Unassigned? || e.session.Some? then AssignmentFailed
    else if !device.shared && session.operation != RoleOperation(device.role) then AssignmentFailed
    else if !Allowed(e.state, QueueState.Queued) then AssignmentFailed
    else Assigned(e.(session := Some(key), state := QueueState.Queued))
  }

  datatype IngestionResult = IngestionResult(
    frameCount: nat, created: nat, duplicates: int, queued: nat)

  /** What a successful call leaves of an event that its reads name. */
  predicate Intact(e: Event, read: Read, sessionKey: string) {
    && e.epc == read.epc
    && e.session == Some(sessionKey)
    && (e.state.Queued? || e.state.Inflight? || e.state.Retry? || e.state.Sent?)
  }

  function QueuedCount(events: seq<Event>, device: string, sessionKey: string): nat {
    if events == [] then 0
    else
      var last := events[|events| - 1];
      QueuedCount(events[..|events| - 1], device, sessionKey)
      + if last.device == device && last.session == Some(sessionKey) && last.state.Queued? then 1 else 0
  }

  /** queued_count is the number of the session's QUEUED rows of the reader. */
  lemma {:induction false} QueuedCountIs(events: seq<Event>, device: string, sessionKey: string)
    ensures QueuedCount(events, device, sessionKey) == |QueuedRows(events, device, sessionKey)|
  {
    if events == [] {
      assert QueuedRows(events, device, sessionKey) == {};
    } else {
      var n := |events| - 1;
      QueuedCountIs(events[..n], device, sessionKey);
      var last := if QueuedRow(events[n], device, sessionKey) then {n} else {};
      assert QueuedRows(events, device, sessionKey) == QueuedRows(events[..n], device, sessionKey) + last;
    }
  }

  predicate QueuedRow(e: Event, device: string, sessionKey: string) {
    e.device == device && e.session == Some(sessionKey) && e.state == QueueState.Queued
  }

  ghost function QueuedRows(events: seq<Event>, device: string, sessionKey: string): set<int> {
    set i | 0 <= i < |events| && QueuedRow(events[i], device, sessionKey)
  }

  /** New rows, assigned to the session. */
  function AssignedRows(created: seq<Event>, sessionKey: string): (rows: seq<Event>)
    ensures |rows| == |created|
    ensures forall i :: 0 <= i < |rows| ==>
              rows[i] == created[i].(session := Some(sessionKey), state := QueueState.Queued)
  {
    seq(|created|, i requires 0 <= i < |created| => created[i].(session := Some(sessionKey), state := QueueState.Queued))
  }

  /** The rows after creating and assigning, before the integrity check. */
  function Persisted(events: seq<Event>, device: string, sessionKey: string, observed: seq<Read>): seq<Event> {
    events + AssignedRows(Create(events, device, observed)[|events|..], sessionKey)
  }

  /** The integrity check over every read, new or duplicate. */
  ghost predicate AllIntact(events: seq<Event>, device: string, sessionKey: string, observed: seq<Read>) {
    forall i :: 0 <= i < |observed| ==> RowIntact(events, device, sessionKey, observed[i])
  }

  predicate RowIntact(events: seq<Event>, device: string, sessionKey: string, read: Read) {
    var row := FindRow(events, device, read.key);
    row.Some? && Intact(events[row.value], read, sessionKey)
  }

  predicate Assignable(device: Device, session: Session) {
    device.shared || session.operation == RoleOperation(device.role)
  }

  /**
    ingest_final_active_tag_frames as one transaction: all rows, or none. The
    query for the device's ACTIVE session finds this session, because there is at
    most one; every row it is assigned to is new and unassigned.
   */
  ghost function Ingest(db: Db, digest: Digest, device: Device, sessionKey: string, frames: seq<Frame>)
    : Result<(Db, IngestionResult)>
  {
    if sessionKey == "" then Err("RFID session key cannot be empty.")
    else if |sessionKey| > 128 then Err("RFID session key exceeds 128 characters.")
    else if !device.enabled then Err("RFID reader device must be enabled.")
    else if sessionKey !in db.sessions || db.sessions[sessionKey].device != device.code
            || !db.sessions[sessionKey].status.Active? then Err("No matching active local RFID session exists.")
    else
      var observed :- ToReads(digest, device, sessionKey, frames);
      Commit(db, device, sessionKey, observed)
  }

  /** The part of the transaction behind the validation of the frames. */
  ghost function Commit(db: Db, device: Device, sessionKey: string, observed: seq<Read>): Result<(Db, IngestionResult)>
    requires sessionKey in db.sessions
  {
    var events := Persisted(db.events, device.code, sessionKey, observed);
    var created := |events| - |db.events|;
    if created > 0 && !Assignable(device, db.sessions[sessionKey]) then
      Err("One or more RFID events failed session assignment.")
    else if !AllIntact(events, device.code, sessionKey, observed) then
      Err("Existing RFID event does not match its deterministic event key, session or queue state.")
    else
      Ok((db.(events := events),
          IngestionResult(|observed|, created, |observed| - created, QueuedCount(events, device.code, sessionKey))))
  }

  lemma IngestKeepsSessions(db: Db, digest: Digest, device: Device, sessionKey: string, frames: seq<Frame>)
    ensures
      var r := Ingest(db, digest, device, sessionKey, frames);
      r.Ok? ==> r.value.0.sessions == db.sessions && sessionKey in db.sessions && db.sessions[sessionKey].status.Active?
  {
    hide Persisted, AllIntact, QueuedCount, ToReads, Assignable;
  }

  // ------------------------------------------------------------- the methods

  datatype AssignmentCycle = AssignmentCycle(placed: nat, unplaced: nat, failed: nat)

  /** All rows from `from` on are assigned to the one ACTIVE session, or none is. */
  ghost predicate CycleOutcome(
    before: seq<Event>, after: seq<Event>, from: nat, device: Device, key: string, session: Session, c: AssignmentCycle)
    requires from <= |before|
  {
    if Assignable(device, session)
    then c == AssignmentCycle(|before| - from, 0, 0) && after == before[..from] + AssignedRows(before[from..], key)
    else c == AssignmentCycle(0, 0, |before| - from) && after == before
  }

  /** run_active_session_assignment_cycle over the rows from `from` on. */
  method AssignNewRows(d: Database, device: Device, from: nat) returns (c: AssignmentCycle)
    requires from <= |d.events| && OneActive(d.sessions)
    requires forall i :: from <= i < |d.events| ==> d.events[i].state.Unassigned? && d.events[i].session.None?
    modifies d
    ensures d.sessions == old(d.sessions)
    ensures ActiveKeys(d.sessions, device.code) == {} ==>
              c == AssignmentCycle(0, |old(d.events)| - from, 0) && d.events == old(d.events)
    ensures forall key :: key in ActiveKeys(d.sessions, device.code) ==>
              CycleOutcome(old(d.events), d.events, from, device, key, d.sessions[key], c)
  {
    ghost var before := d.events;
    var active := set k | k in d.sessions && d.sessions[k].device == device.code && d.sessions[k].status.Active?;
    assert active == ActiveKeys(d.sessions, device.code);
    if active == {} {
      return AssignmentCycle(0, |d.events| - from, 0);
    }
    var key :| key in active;
    assert forall k :: k in active ==> k == key;
    c := AssignmentCycle(0, 0, 0);
    var i, n := from, |d.events|;
    while i < n
      invariant from <= i <= n == |before| == |d.events|
      invariant d.sessions == old(d.sessions)
      invariant c == if Assignable(device, d.sessions[key]) then AssignmentCycle(i - from, 0, 0) else AssignmentCycle(0, 0, i - from)
      invariant forall j :: 0 <= j < |before| && !(from <= j < i) ==> d.events[j] == before[j]
      invariant forall j :: from <= j < i ==>
        d.events[j] ==
        if Assignable(device, d.sessions[key])
        then before[j].(session := Some(key), state := QueueState.Queued) else before[j]
    {
      var assignment := AssignTo(d.events[i], device, key, d.sessions[key]);
      if assignment.Assigned? {
        d.events := d.events[i := assignment.event];
        c := c.(placed := c.placed + 1);
      } else {
        c := c.(failed := c.failed + 1);
      }
      i := i + 1;
    }
  }

  /** ingest_technical_reads: the get_or_create loop. */
  method CreateRows(d: Database, device: string, observed: seq<Read>)
    modifies d
    ensures d.View() == old(d.View()).(events := Create(old(d.events), device, observed))
    ensures forall i :: |old(d.events)| <= i < |d.events| ==> d.events[i].state.Unassigned? && d.events[i].session.None?
  {
    ghost var saved := d.events;
    var k := 0;
    assert observed[0..] == observed;
    while k < |observed|
      invariant 0 <= k <= |observed|
      invariant d.sessions == old(d.sessions)
      invariant Create(d.events, device, observed[k..]) == Create(saved, device, observed)
      invariant |saved| <= |d.events|
      invariant forall i :: |saved| <= i < |d.events| ==> d.events[i].state.Unassigned? && d.events[i].session.None?
    {
      assert observed[k..][1..] == observed[k + 1..];
      if FindRow(d.events, device, observed[k].key).None? {
        d.events := d.events + [NewRow(device, observed[k])];
      }
      k := k + 1;
    }
  }

  /** The integrity loop. */
  method CheckRows(events: seq<Event>, device: string, sessionKey: string, observed: seq<Read>) returns (ok: bool)
    ensures ok == AllIntact(events, device, sessionKey, observed)
  {
    var k := 0;
    while k < |observed|
      invariant 0 <= k <= |observed|
      invariant forall i :: 0 <= i < k ==> RowIntact(events, device, sessionKey, observed[i])
    {
      if !RowIntact(events, device, sessionKey, observed[k]) {
        return false;
      }
      k := k + 1;
    }
    return true;
  }

  /** Create and assign; what a failure leaves behind is rolled back by the caller. */
  method PersistRows(d: Database, device: Device, sessionKey: string, observed: seq<Read>) returns (r: Result<nat>)
    requires OneActive(d.sessions) && sessionKey in d.sessions
    requires d.sessions[sessionKey].device == device.code && d.sessions[sessionKey].status.Active?
    modifies d
    ensures d.sessions == old(d.sessions)
    ensures
      var events := Persisted(old(d.events), device.code, sessionKey, observed);
      var created := |events| - |old(d.events)|;
      if created > 0 && !Assignable(device, d.sessions[sessionKey])
      then r == Err("One or more RFID events failed session assignment.")
      else r == Ok(created) && d.events == events
  {
    hide Create;
    var n := |d.events|;
    CreateRows(d, device.code, observed);
    ghost var created := d.events;
    assert created == created[..n] + created[n..];
    assert sessionKey in ActiveKeys(d.sessions, device.code);
    var c := AssignNewRows(d, device, n);
    if c.failed > 0 {
      return Err("One or more RFID events failed session assignment.");
    }
    if c.unplaced > 0 {
      return Err("One or more RFID events remained unassigned.");
    }
    if c.placed != |d.events| - n {
      return Err("Persisted and assigned RFID event counts differ.");
    }
    return Ok(c.placed);
  }

  /** Persist, assign and check, restoring the rows when any of it fails. */
  method CommitRows(d: Database, device: Device, sessionKey: string, observed: seq<Read>)
    returns (r: Result<IngestionResult>)
    requires OneActive(d.sessions) && sessionKey in d.sessions
    requires d.sessions[sessionKey].device == device.code && d.sessions[sessionKey].status.Active?
    modifies d
    ensures
      match Commit(old(d.View()), device, sessionKey, observed)
      case Ok((db, result)) => r == Ok(result) && d.View() == db
      case Err(m) => r == Err(m) && d.View() == old(d.View())
  {
    hide Persisted, AllIntact, QueuedCount, OneActive, Assignable;
    var saved := d.events;
    var placed := PersistRows(d, device, sessionKey, observed);
    if placed.Err? {
      d.events := saved;
      return Err(placed.message);
    }
    var intact := CheckRows(d.events, device.code, sessionKey, observed);
    if !intact {
      d.events := saved;
      return Err("Existing RFID event does not match its deterministic event key, session or queue state.");
    }
    var queued := QueuedCount(d.events, device.code, sessionKey);
    return Ok(IngestionResult(|observed|, placed.value, |observed| - placed.value, queued));
  }

  method IngestFinalActiveTagFrames(
    d: Database, digest: Digest, device: Device, sessionKey: string, frames: seq<Frame>)
    returns (r: Result<IngestionResult>)
    requires OneActive(d.sessions)
    modifies d
    ensures
      match Ingest(old(d.View()), digest, device, sessionKey, frames)
      case Ok((db, result)) => r == Ok(result) && d.View() == db
      case Err(m) => r == Err(m) && d.View() == old(d.View())
  {
    hide Commit, ToReads, OneActive;
    if sessionKey == "" {
      return Err("RFID session key cannot be empty.");
    }
    if |sessionKey| > 128 {
      return Err("RFID session key exceeds 128 characters.");
    }
    if !device.enabled {
      return Err("RFID reader device must be enabled.");
    }
    if sessionKey !in d.sessions || d.sessions[sessionKey].device != device.code || !d.sessions[sessionKey].status.Active? {
      return Err("No matching active local RFID session exists.");
    }
    var observed :- ToReads(digest, device, sessionKey, frames);
    r := CommitRows(d, device, sessionKey, observed);
  }
}
