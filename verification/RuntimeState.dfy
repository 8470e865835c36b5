/** Commands from Odoo and the runtime record they drive (bridge_core/final_runtime_state.py). */
module RuntimeState {
  import opened Wrappers
  import opened Store

  datatype Kind = Start | Stop | Abort

  datatype Command = Command(
    sessionKey: string,
    readerCode: string,
    kind: Kind,
    revision: int,
    operation: Option<Operation>)

  /** The text fields of a command payload after stripping; "" when absent. */
  datatype Payload = Payload(
    sessionKey: string,
    readerCode: string,
    command: string,
    revision: Option<int>,
    operation: string)

  /** OdooRFIDCommand.from_payload */
  function FromPayload(p: Payload): (r: Result<Command>)
    ensures r.Ok? ==> WellFormed(r.value)
  {
    if p.operation !in {"", "receipt", "dispatch"} then Err("RFID command operation must be 'receipt' or 'dispatch'.")
    else if p.sessionKey == "" then Err("RFID command is missing session_key.")
    else if p.readerCode == "" then Err("RFID command is missing reader_code.")
    else if p.command !in {"start", "stop", "abort"} then Err("Unsupported RFID command.")
    else if p.revision.None? then Err("RFID command revision must be an integer.")
    else if p.revision.value < 1 then Err("RFID command revision must be positive.")
    else
      Ok(Command(
        p.sessionKey, p.readerCode,
        if p.command == "start" then Start else if p.command == "stop" then Stop else Abort,
        p.revision.value,
        if p.operation == "" then None else if p.operation == "receipt" then Some(Receipt) else Some(Dispatch)))
  }

  /** The payload that carries a command. */
  function Carrier(c: Command): Payload {
    Payload(
      c.sessionKey, c.readerCode,
      match c.kind case Start => "start" case Stop => "stop" case Abort => "abort",
      Some(c.revision),
      match c.operation case None => "" case Some(Receipt) => "receipt" case Some(Dispatch) => "dispatch")
  }

  /**
    A payload is read as a command exactly if it carries it and the command is
    well formed; every other payload is refused.
   */
  lemma {:induction false} CarrierIffCommand(p: Payload, c: Command)
    ensures FromPayload(p) == Ok(c) <==> WellFormed(c) && p == Carrier(c)
    ensures FromPayload(p).Err? <==> forall d | WellFormed(d) :: p != Carrier(d)
  {
    var r := FromPayload(p);
    if r.Ok? {
      assert p == Carrier(r.value);
    }
  }

  predicate WellFormed(c: Command) {
    c.sessionKey != "" && c.readerCode != "" && c.revision >= 1
  }

  datatype RunState = Idle | Starting | Reading | Stopping | Degraded | Offline

  datatype Runtime = Runtime(
    readerCode: string,
    state: RunState,
    sessionKey: Option<string>,
    lastRevision: int,
    error: Option<string>,
    completedRevision: int,
    completedCommand: Option<Kind>,
    completedSessionKey: Option<string>)

  /** A record without a completed command, as the constructor's defaults give. */
  function Fresh(readerCode: string, state: RunState, sessionKey: Option<string>, lastRevision: int, error: Option<string>): Runtime {
    Runtime(readerCode, state, sessionKey, lastRevision, error, 0, None, None)
  }

  predicate IsCompleted(rt: Runtime, c: Command) {
    && rt.completedRevision == c.revision
    && rt.completedCommand == Some(c.kind)
    && rt.completedSessionKey == Some(c.sessionKey)
  }

  datatype Plan = Duplicate | Accept(after: Runtime)

  /** validate_command: whether the command is a duplicate, if it is valid at all. */
  function Validate(rt: Runtime, c: Command): Result<bool> {
    var revisionKey := if rt.sessionKey.Some? then rt.sessionKey else rt.completedSessionKey;
    if c.readerCode != rt.readerCode then Err("Command reader identity does not match this runtime.")
    else if revisionKey == Some(c.sessionKey) && c.revision < rt.lastRevision then
      Err("Command revision is older than the last processed revision.")
    else if revisionKey == Some(c.sessionKey) && c.revision == rt.lastRevision && rt.lastRevision != 0 then
      if IsCompleted(rt, c) then Ok(true)
      else Err("Command revision matches the last processed revision but is not the exact completed command.")
    else Ok(false)
  }

  /** plan_command with the three private planners. */
  function PlanCommand(rt: Runtime, c: Command): Result<Plan> {
    var duplicate :- Validate(rt, c);
    if duplicate then Ok(Duplicate)
    else
      match c.kind
      case Start =>
        if !rt.state.Idle? then Err("START is invalid in this reader state.")
        else if rt.sessionKey.Some? then Err("START is invalid while a local session key is present.")
        else Ok(Accept(Fresh(rt.readerCode, Starting, Some(c.sessionKey), c.revision, None)))
      case Stop =>
        if !rt.state.Reading? then Err("STOP is invalid in this reader state.")
        else if rt.sessionKey != Some(c.sessionKey) then Err("STOP session_key does not match active local session.")
        else Ok(Accept(Fresh(rt.readerCode, Stopping, rt.sessionKey, c.revision, None)))
      case Abort =>
        if rt.sessionKey.Some? && rt.sessionKey != Some(c.sessionKey) then
          Err("ABORT session_key does not match local session.")
        else Ok(Accept(Fresh(rt.readerCode, Stopping, Some(c.sessionKey), c.revision, None)))
  }

  function MarkReaderStarted(rt: Runtime): Result<Runtime> {
    if !rt.state.Starting? then Err("Reader can only become READING from STARTING.")
    else if rt.sessionKey.None? then Err("Cannot enter READING without a session key.")
    else Ok(Fresh(rt.readerCode, Reading, rt.sessionKey, rt.lastRevision, None))
  }

  function MarkReaderStopped(rt: Runtime): Result<Runtime> {
    if !rt.state.Stopping? then Err("Reader can only become IDLE from STOPPING.")
    else Ok(Fresh(rt.readerCode, Idle, None, rt.lastRevision, None))
  }

  function MarkCommandCompleted(rt: Runtime, c: Command): Result<Runtime> {
    if c.readerCode != rt.readerCode then Err("Completed command reader does not match runtime.")
    else if c.revision != rt.lastRevision then Err("Completed command revision does not match the runtime revision.")
    else
      Ok(rt.(completedRevision := c.revision,
             completedCommand := Some(c.kind),
             completedSessionKey := Some(c.sessionKey)))
  }

  predicate IsSpace(c: char) {
    c in {' ', '\t', '\n', '\r'}
  }

  /** str.strip on the whitespace that failure texts contain. */
  function Strip(s: string): string {
    if s == "" then ""
    else if IsSpace(s[0]) then Strip(s[1..])
    else if IsSpace(s[|s| - 1]) then Strip(s[..|s| - 1])
    else s
  }

  function MarkDegraded(rt: Runtime, error: string): Result<Runtime> {
    if Strip(error) == "" then Err("Degraded runtime requires an error message.")
    else Ok(Fresh(rt.readerCode, Degraded, rt.sessionKey, rt.lastRevision, Some(Strip(error))))
  }

  // ------------------------------------------------------------- properties

  /** The record remembers the completed command under the key that will be compared. */
  ghost predicate CompletionCurrent(rt: Runtime, c: Command) {
    && IsCompleted(rt, c)
    && rt.lastRevision == c.revision
    && rt.readerCode == c.readerCode
    && (rt.sessionKey.None? || rt.sessionKey == Some(c.sessionKey))
  }

  /**
    After completion, redelivering the command is recognised as a duplicate, and
    for that session every other command at or below its revision is refused.
   */
  lemma {:induction false} RedeliveryIsDuplicate(rt: Runtime, c: Command, other: Command)
    requires WellFormed(c) && WellFormed(other) && CompletionCurrent(rt, c)
    ensures PlanCommand(rt, c) == Ok(Duplicate)
    ensures PlanCommand(rt, other) == Ok(Duplicate) ==> other.(operation := c.operation) == c
    ensures other.sessionKey == c.sessionKey && other.revision <= c.revision && other.(operation := c.operation) != c ==>
              PlanCommand(rt, other).Err?
  {
  }

  /** Which commands are accepted, and the state and key each one plans. */
  lemma {:induction false} AcceptedIff(rt: Runtime, c: Command)
    requires WellFormed(c)
    ensures
      var p := PlanCommand(rt, c);
      var key := if rt.sessionKey.Some? then rt.sessionKey else rt.completedSessionKey;
      && (p.Ok? && p.value.Accept? <==>
          && c.readerCode == rt.readerCode
          && (key == Some(c.sessionKey) ==> rt.lastRevision < c.revision)
          && match c.kind
             case Start => rt.state.Idle? && rt.sessionKey.None?
             case Stop => rt.state.Reading? && rt.sessionKey == Some(c.sessionKey)
             case Abort => rt.sessionKey.None? || rt.sessionKey == Some(c.sessionKey))
      && (p.Ok? && p.value.Accept? ==>
          p.value.after ==
          Fresh(c.readerCode, if c.kind.Start? then Starting else Stopping, Some(c.sessionKey), c.revision, None))
  {
  }

  ghost predicate Blank(s: string) {
    forall i :: 0 <= i < |s| ==> s[i] == ' ' || s[i] == '\t' || s[i] == '\n' || s[i] == '\r'
  }

  /** Stripping takes white space off both ends and stops at the first other character of each. */
  lemma {:induction false} StripMeans(s: string) returns (front: string, back: string)
    ensures s == front + Strip(s) + back && Blank(front) && Blank(back)
    ensures Strip(s) != "" ==> !Blank([Strip(s)[0]]) && !Blank([Strip(s)[|Strip(s)| - 1]])
  {
    front, back := "", "";
    if s != "" {
      if IsSpace(s[0]) {
        var f, b := StripMeans(s[1..]);
        front, back := [s[0]] + f, b;
        assert s == [s[0]] + s[1..];
      } else if IsSpace(s[|s| - 1]) {
        var f, b := StripMeans(s[..|s| - 1]);
        front, back := f, b + [s[|s| - 1]];
        assert s == s[..|s| - 1] + [s[|s| - 1]];
      } else {
        assert [s[0]][0] == s[0] && [s[|s| - 1]][0] == s[|s| - 1];
      }
    }
  }

  lemma {:induction false} BlankIff(s: string)
    ensures Strip(s) == "" <==> Blank(s)
  {
    var front, back := StripMeans(s);
    var t := Strip(s);
    hide Strip;
    if t == "" {
      assert s == front + back;
    } else {
      assert s[|front|] == t[0] && [t[0]][0] == t[0];
    }
  }

  /**
    The record's other steps: when each is possible, and what it keeps. Only the
    completion of a command remembers one; every other step forgets it.
   */
  lemma {:induction false} MarksMean(rt: Runtime, c: Command, why: string)
    ensures MarkReaderStarted(rt).Ok? <==> rt.state.Starting? && rt.sessionKey.Some?
    ensures MarkReaderStarted(rt).Ok? ==>
              MarkReaderStarted(rt).value == Runtime(rt.readerCode, Reading, rt.sessionKey, rt.lastRevision, None, 0, None, None)
    ensures MarkReaderStopped(rt).Ok? <==> rt.state.Stopping?
    ensures MarkReaderStopped(rt).Ok? ==>
              MarkReaderStopped(rt).value == Runtime(rt.readerCode, Idle, None, rt.lastRevision, None, 0, None, None)
    ensures MarkCommandCompleted(rt, c).Ok? <==> c.readerCode == rt.readerCode && c.revision == rt.lastRevision
    ensures MarkCommandCompleted(rt, c).Ok? ==>
              MarkCommandCompleted(rt, c).value ==
              Runtime(rt.readerCode, rt.state, rt.sessionKey, rt.lastRevision, rt.error,
                      c.revision, Some(c.kind), Some(c.sessionKey))
    ensures MarkDegraded(rt, why).Err? <==> Blank(why)
    ensures MarkDegraded(rt, why).Ok? ==>
              MarkDegraded(rt, why).value ==
              Runtime(rt.readerCode, Degraded, rt.sessionKey, rt.lastRevision, Some(Strip(why)), 0, None, None)
  {
    BlankIff(why);
    hide Blank;
  }
}
