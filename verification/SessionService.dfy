/** The local session rows (bridge_core/final_session_service.py). */
module SessionService {
  import opened Wrappers
  import opened Store
  import opened RuntimeState

  function RoleOperation(role: Role): Operation {
    match role case Receiving => Receipt case Dispatching => Dispatch
  }

  /** _operation_for_reader */
  function OperationFor(device: Device, requested: Option<Operation>): Result<Operation> {
    var own := RoleOperation(device.role);
    match requested
    case None => Ok(own)
    case Some(operation) =>
      if device.shared then Ok(operation)
      else if operation != own then Err("Requested RFID session operation does not match the dedicated reader role.")
      else Ok(own)
  }

  predicate HasActive(sessions: map<string, Session>, device: string) {
    exists k :: k in sessions && sessions[k].device == device && sessions[k].status.Active?
  }

  /** synchronize_start_command: the new rows, and whether a row was created. */
  function Synchronize(sessions: map<string, Session>, devices: map<string, Device>, c: Command)
    : Result<(map<string, Session>, bool)>
  {
    if !c.kind.Start? then Err("Only a START command may create/synchronize a local session.")
    else if c.readerCode !in devices || !devices[c.readerCode].enabled then Err("Enabled RFID reader not found.")
    else
      var operation :- OperationFor(devices[c.readerCode], c.operation);
      if c.sessionKey in sessions then
        var existing := sessions[c.sessionKey];
        if existing.device != c.readerCode then Err("Existing local session belongs to a different reader.")
        else if existing.operation != operation then Err("Existing local session operation does not match.")
        else if !existing.status.Active? then Err("Odoo attempted to restart a locally closed/cancelled session.")
        else Ok((sessions, false))
      else if HasActive(sessions, c.readerCode) then Err("Reader already has a different active local RFID session.")
      else Ok((sessions[c.sessionKey := Session(c.readerCode, operation, Active)], true))
  }

  /** close_local_session and cancel_local_session; closing twice is allowed. */
  function Finish(sessions: map<string, Session>, key: string, reader: string, target: Status): Result<map<string, Session>> {
    if key !in sessions then Err("Local RFID session does not exist.")
    else if sessions[key].device != reader then Err("Local session reader identity mismatch.")
    else if sessions[key].status == target then Ok(sessions)
    else if !sessions[key].status.Active? then Err("Cannot finish session in this status.")
    else Ok(sessions[key := sessions[key].(status := target)])
  }

  function CloseSession(sessions: map<string, Session>, key: string, reader: string): Result<map<string, Session>> {
    if key == "" || reader == "" then Err("session_key and reader_code are required.")
    else Finish(sessions, key, reader, Closed)
  }

  function CancelSession(sessions: map<string, Session>, key: string, reader: string): Result<map<string, Session>> {
    Finish(sessions, key, reader, Cancelled)
  }

  // ------------------------------------------------------------- the methods

  method SynchronizeStartCommand(d: Database, devices: map<string, Device>, c: Command) returns (r: Result<bool>)
    modifies d
    ensures d.events == old(d.events)
    ensures
      match Synchronize(old(d.sessions), devices, c)
      case Ok((sessions, created)) => r == Ok(created) && d.sessions == sessions
      case Err(m) => r == Err(m) && d.sessions == old(d.sessions)
  {
    if !c.kind.Start? {
      return Err("Only a START command may create/synchronize a local session.");
    }
    if c.readerCode !in devices || !devices[c.readerCode].enabled {
      return Err("Enabled RFID reader not found.");
    }
    var operation :- OperationFor(devices[c.readerCode], c.operation);
    if c.sessionKey in d.sessions {
      var existing := d.sessions[c.sessionKey];
      if existing.device != c.readerCode {
        return Err("Existing local session belongs to a different reader.");
      }
      if existing.operation != operation {
        return Err("Existing local session operation does not match.");
      }
      if !existing.status.Active? {
        return Err("Odoo attempted to restart a locally closed/cancelled session.");
      }
      return Ok(false);
    }
    if HasActive(d.sessions, c.readerCode) {
      return Err("Reader already has a different active local RFID session.");
    }
    d.sessions := d.sessions[c.sessionKey := Session(c.readerCode, operation, Active)];
    return Ok(true);
  }

  method FinishSession(d: Database, key: string, reader: string, target: Status) returns (r: Result<()>)
    modifies d
    ensures d.events == old(d.events)
    ensures
      match Finish(old(d.sessions), key, reader, target)
      case Ok(sessions) => r == Ok(()) && d.sessions == sessions
      case Err(m) => r == Err(m) && d.sessions == old(d.sessions)
  {
    if key !in d.sessions {
      return Err("Local RFID session does not exist.");
    }
    var session := d.sessions[key];
    if session.device != reader {
      return Err("Local session reader identity mismatch.");
    }
    if session.status == target {
      return Ok(());
    }
    if !session.status.Active? {
      return Err("Cannot finish session in this status.");
    }
    d.sessions := d.sessions[key := session.(status := target)];
    return Ok(());
  }

  method CloseLocalSession(d: Database, key: string, reader: string) returns (r: Result<()>)
    modifies d
    ensures d.events == old(d.events)
    ensures
      match CloseSession(old(d.sessions), key, reader)
      case Ok(sessions) => r == Ok(()) && d.sessions == sessions
      case Err(m) => r == Err(m) && d.sessions == old(d.sessions)
  {
    if key == "" || reader == "" {
      return Err("session_key and reader_code are required.");
    }
    r := FinishSession(d, key, reader, Closed);
  }

  method CancelLocalSession(d: Database, key: string, reader: string) returns (r: Result<()>)
    modifies d
    ensures d.events == old(d.events)
    ensures
      match CancelSession(old(d.sessions), key, reader)
      case Ok(sessions) => r == Ok(()) && d.sessions == sessions
      case Err(m) => r == Err(m) && d.sessions == old(d.sessions)
  {
    r := FinishSession(d, key, reader, Cancelled);
  }

  // ------------------------------------------------------------- properties

  /** The unique constraint: one ACTIVE session per device. */
  ghost predicate OneActive(sessions: map<string, Session>) {
    forall j, k | j in sessions && k in sessions && sessions[j].status.Active? && sessions[k].status.Active? ::
      sessions[j].device == sessions[k].device ==> j == k
  }

  /** Rows stay, with their reader and operation, and finished rows stay as they are. */
  ghost predicate Advances(before: map<string, Session>, after: map<string, Session>) {
    forall k :: k in before ==>
      && k in after
      && after[k].device == before[k].device && after[k].operation == before[k].operation
      && (!before[k].status.Active? ==> after[k] == before[k])
  }

  /** The sessions of every other reader are untouched. */
  ghost predicate OnlyReader(before: map<string, Session>, after: map<string, Session>, reader: string) {
    && (forall k :: k in after && after[k].device != reader ==> k in before && before[k] == after[k])
    && (forall k :: k in before && before[k].device != reader ==> k in after && before[k] == after[k])
  }

  lemma {:induction false} SynchronizeFacts(sessions: map<string, Session>, devices: map<string, Device>, c: Command)
    requires OneActive(sessions)
    ensures
      var r := Synchronize(sessions, devices, c);
      r.Ok? ==>
        && OneActive(r.value.0) && Advances(sessions, r.value.0) && OnlyReader(sessions, r.value.0, c.readerCode)
        && c.sessionKey in r.value.0
        && r.value.0[c.sessionKey].device == c.readerCode && r.value.0[c.sessionKey].status.Active?
        && (c.sessionKey in sessions ==> sessions[c.sessionKey].status.Active?)
  {
  }

  /** The operation of the reader's role: a receiving reader's sessions are receipts, a dispatching reader's dispatches. */
  predicate OfRole(operation: Operation, role: Role) {
    (role.Receiving? && operation.Receipt?) || (role.Dispatching? && operation.Dispatch?)
  }

  /** The operation that START asks for: on a shared reader the requested one, if there is one, otherwise the role's. */
  predicate AskedFor(operation: Operation, device: Device, c: Command) {
    if device.shared && c.operation.Some? then Some(operation) == c.operation else OfRole(operation, device.role)
  }

  /** A dedicated reader takes no other operation than its role's. */
  predicate FitsReader(device: Device, c: Command) {
    c.operation.Some? && !device.shared ==> OfRole(c.operation.value, device.role)
  }

  /** The row may be reused: it is this reader's, ACTIVE, with the operation asked for. */
  predicate Reusable(session: Session, device: Device, c: Command) {
    session.device == c.readerCode && session.status.Active? && AskedFor(session.operation, device, c)
  }

  lemma OperationIs(device: Device, c: Command, operation: Operation)
    ensures OperationFor(device, c.operation).Ok? <==> FitsReader(device, c)
    ensures OperationFor(device, c.operation) == Ok(operation) <==> FitsReader(device, c) && AskedFor(operation, device, c)
  {
  }

  /**
    START gets its row exactly if the reader is known and enabled, the operation
    fits it, and the session's row is reusable or there is none and no other
    session is ACTIVE on the reader. A new row is ACTIVE with the operation asked
    for, and nothing else changes.
   */
  lemma {:induction false} SynchronizeIff(sessions: map<string, Session>, devices: map<string, Device>, c: Command)
    requires c.kind.Start?
    ensures
      var r := Synchronize(sessions, devices, c);
      && (r.Ok? <==>
          && c.readerCode in devices && devices[c.readerCode].enabled && FitsReader(devices[c.readerCode], c)
          && if c.sessionKey in sessions then Reusable(sessions[c.sessionKey], devices[c.readerCode], c)
             else forall k :: k in sessions && sessions[k].device == c.readerCode ==> !sessions[k].status.Active?)
      && (r.Ok? && c.sessionKey in sessions ==> r.value == (sessions, false))
      && (r.Ok? && c.sessionKey !in sessions ==>
          && r.value.1 && c.sessionKey in r.value.0
          && r.value.0 == sessions[c.sessionKey := Session(c.readerCode, r.value.0[c.sessionKey].operation, Active)]
          && AskedFor(r.value.0[c.sessionKey].operation, devices[c.readerCode], c))
  {
    hide OperationFor, AskedFor, FitsReader;
    if c.readerCode in devices {
      var device := devices[c.readerCode];
      var operation := OperationFor(device, c.operation);
      OperationIs(device, c, if operation.Ok? then operation.value else Receipt);
      if c.sessionKey in sessions {
        OperationIs(device, c, sessions[c.sessionKey].operation);
      }
    }
  }

  lemma {:induction false} FinishFacts(sessions: map<string, Session>, key: string, reader: string, target: Status)
    requires OneActive(sessions) && !target.Active?
    ensures
      var r := Finish(sessions, key, reader, target);
      && (r.Ok? <==> key in sessions && sessions[key].device == reader && sessions[key].status in {Active, target})
      && (r.Ok? ==>
          && OneActive(r.value) && Advances(sessions, r.value) && OnlyReader(sessions, r.value, reader)
          && key in r.value && r.value[key].status == target && r.value[key].device == reader
          && forall k :: k in r.value && k != key ==> k in sessions && r.value[k] == sessions[k])
  {
  }

  /** Closing refuses blank identities; cancelling looks the blank key up like any other. */
  lemma {:induction false} CloseAndCancel(sessions: map<string, Session>, key: string, reader: string)
    ensures
      CloseSession(sessions, key, reader).Ok? <==>
      && key != "" && reader != ""
      && key in sessions && sessions[key].device == reader && (sessions[key].status.Active? || sessions[key].status.Closed?)
    ensures CloseSession(sessions, key, reader).Ok? ==>
              CloseSession(sessions, key, reader).value == sessions[key := sessions[key].(status := Closed)]
    ensures
      CancelSession(sessions, key, reader).Ok? <==>
      key in sessions && sessions[key].device == reader && (sessions[key].status.Active? || sessions[key].status.Cancelled?)
    ensures CancelSession(sessions, key, reader).Ok? ==>
              CancelSession(sessions, key, reader).value == sessions[key := sessions[key].(status := Cancelled)]
  {
    if key in sessions {
      assert sessions[key := sessions[key]] == sessions;
    }
  }

  lemma AdvancesTransitive(a: map<string, Session>, b: map<string, Session>, c: map<string, Session>)
    requires Advances(a, b) && Advances(b, c)
    ensures Advances(a, c)
  {
  }
}
