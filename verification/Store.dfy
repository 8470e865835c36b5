/**
  The rows of the bridge database that the final runtime reads and writes
  (bridge_core/models.py:6-240), as values and as an object holding them.
 */
module Store {
  import opened Wrappers
  import opened Crc

  datatype Role = Receiving | Dispatching

  datatype Operation = Receipt | Dispatch

  datatype Device = Device(code: string, enabled: bool, role: Role, shared: bool, address: byte)

  datatype Status = Active | Closed | Cancelled

  datatype Session = Session(device: string, operation: Operation, status: Status)

  datatype QueueState = Unassigned | Queued | Inflight | Retry | Sent | Rejected | Dead

  datatype Outcome = Started | Sent | Retry | Rejected | Dead

  /** Times are whole seconds. */
  datatype Attempt = Attempt(
    number: nat,
    outcome: Outcome,
    attemptedAt: int,
    completedAt: Option<int>,
    nextRetryAt: Option<int>)

  datatype Event = Event(
    device: string,
    key: string,
    epc: string,
    session: Option<string>,
    state: QueueState,
    attempts: seq<Attempt>)

  /**
    Sessions are keyed by their unique external key. Events are listed in the
    order they were created, so an event's position is its identity, and ordering
    by (received_at, id) is ordering by position.
   */
  datatype Db = Db(sessions: map<string, Session>, events: seq<Event>)

  /** reader_event_key__startswith="final:" */
  predicate IsFinal(e: Event) {
    "final:" <= e.key
  }

  /** An event that `run_final_delivery_cycle` for this reader looks at. */
  predicate IsFinalOf(e: Event, reader: string) {
    e.device == reader && e.session.Some? && IsFinal(e)
  }

  class Database {
    var sessions: map<string, Session>
    var events: seq<Event>

    ghost function View(): Db
      reads this
    {
      Db(sessions, events)
    }

    constructor ()
      ensures View() == Db(map[], [])
    {
      sessions := map[];
      events := [];
    }
  }
}
