/** The delivery barrier in front of a STOP success ACK (bridge_core/final_delivery_barrier.py). */
module DeliveryBarrier {
  import opened Wrappers
  import opened Store

  datatype Inspection = Inspection(total: nat, sent: nat, pending: int, failed: nat)

  /** A final event of the session on the reader. */
  predicate InSession(e: Event, key: string, reader: string) {
    e.device == reader && e.session == Some(key) && IsFinal(e)
  }

  ghost predicate AllSent(events: seq<Event>, key: string, reader: string) {
    forall i :: 0 <= i < |events| && InSession(events[i], key, reader) ==> events[i].state.Sent?
  }

  /** The session's final events on the reader, by what has become of them. */
  ghost function SentRows(events: seq<Event>, key: string, reader: string): set<nat> {
    set i: nat | i < |events| && InSession(events[i], key, reader) && events[i].state.Sent?
  }

  ghost function FailedRows(events: seq<Event>, key: string, reader: string): set<nat> {
    set i: nat | i < |events| && InSession(events[i], key, reader) && (events[i].state.Rejected? || events[i].state.Dead?)
  }

  ghost function PendingRows(events: seq<Event>, key: string, reader: string): set<nat> {
    set i: nat | i < |events| && InSession(events[i], key, reader)
                 && (events[i].state.Unassigned? || events[i].state.Queued? || events[i].state.Inflight? || events[i].state.Retry?)
  }

  ghost function SessionRows(events: seq<Event>, key: string, reader: string): set<nat> {
    set i: nat | i < |events| && InSession(events[i], key, reader)
  }

  /** The counts after one more event. */
  lemma RowsGrow(events: seq<Event>, e: Event, key: string, reader: string)
    ensures
      var one := if InSession(e, key, reader) then 1 else 0;
      && |SentRows(events + [e], key, reader)| == |SentRows(events, key, reader)| + (if e.state.Sent? then one else 0)
      && |FailedRows(events + [e], key, reader)| ==
         |FailedRows(events, key, reader)| + (if e.state.Rejected? || e.state.Dead? then one else 0)
      && |SessionRows(events + [e], key, reader)| == |SessionRows(events, key, reader)| + one
  {
    hide InSession, SentRows, FailedRows, SessionRows;
    SentGrow(events, e, key, reader);
    FailedGrow(events, e, key, reader);
    SessionGrow(events, e, key, reader);
  }

  lemma SentGrow(events: seq<Event>, e: Event, key: string, reader: string)
    ensures
      |SentRows(events + [e], key, reader)| ==
      |SentRows(events, key, reader)| + if e.state.Sent? && InSession(e, key, reader) then 1 else 0
  {
    hide InSession;
    assert SentRows(events + [e], key, reader) ==
           SentRows(events, key, reader) + if e.state.Sent? && InSession(e, key, reader) then {|events|} else {};
  }

  lemma FailedGrow(events: seq<Event>, e: Event, key: string, reader: string)
    ensures
      |FailedRows(events + [e], key, reader)| ==
      |FailedRows(events, key, reader)| + if (e.state.Rejected? || e.state.Dead?) && InSession(e, key, reader) then 1 else 0
  {
    hide InSession;
    var grown := (e.state.Rejected? || e.state.Dead?) && InSession(e, key, reader);
    assert FailedRows(events + [e], key, reader) == FailedRows(events, key, reader) + if grown then {|events|} else {};
  }

  lemma SessionGrow(events: seq<Event>, e: Event, key: string, reader: string)
    ensures
      |SessionRows(events + [e], key, reader)| == |SessionRows(events, key, reader)| + if InSession(e, key, reader) then 1 else 0
  {
    hide InSession;
    assert SessionRows(events + [e], key, reader) ==
           SessionRows(events, key, reader) + if InSession(e, key, reader) then {|events|} else {};
  }

  lemma NoRows(key: string, reader: string)
    ensures |SentRows([], key, reader)| == |FailedRows([], key, reader)| == |SessionRows([], key, reader)| == 0
  {
  }

  lemma RowsPartition(events: seq<Event>, key: string, reader: string)
    ensures
      |SessionRows(events, key, reader)| ==
      |SentRows(events, key, reader)| + |PendingRows(events, key, reader)| + |FailedRows(events, key, reader)|
  {
    hide InSession;
    var sent, pending, failed := SentRows(events, key, reader), PendingRows(events, key, reader), FailedRows(events, key, reader);
    assert SessionRows(events, key, reader) == sent + pending + failed;
    assert sent !! pending && sent + pending !! failed;
  }

  lemma {:induction false} AllSentIff(events: seq<Event>, key: string, reader: string)
    ensures
      |FailedRows(events, key, reader)| == 0 && |PendingRows(events, key, reader)| == 0 <==> AllSent(events, key, reader)
  {
    hide InSession;
    var pending, failed := PendingRows(events, key, reader), FailedRows(events, key, reader);
    forall i: nat | i < |events| && InSession(events[i], key, reader) && !events[i].state.Sent?
      ensures i in failed + pending
    {
    }
  }

  /** inspect_final_session_delivery: fetch the states, then count them. */
  method Inspect(events: seq<Event>, key: string, reader: string) returns (r: Result<Inspection>)
    ensures r.Err? <==> key == "" || reader == ""
    ensures r.Ok? ==>
      && r.value.total == |SessionRows(events, key, reader)|
      && r.value.sent == |SentRows(events, key, reader)|
      && r.value.pending == |PendingRows(events, key, reader)|
      && r.value.failed == |FailedRows(events, key, reader)|
      && (r.value.failed == 0 && r.value.pending == 0 <==> AllSent(events, key, reader))
  {
    if key == "" {
      return Err("STOP delivery barrier requires a session key.");
    }
    if reader == "" {
      return Err("STOP delivery barrier requires a reader code.");
    }
    hide InSession, SentRows, PendingRows, FailedRows, SessionRows, AllSent;
    NoRows(key, reader);
    var total, sent, failed := 0, 0, 0;
    assert events[..0] == [];
    var i := 0;
    while i < |events|
      invariant 0 <= i <= |events|
      invariant sent == |SentRows(events[..i], key, reader)|
      invariant failed == |FailedRows(events[..i], key, reader)|
      invariant total == |SessionRows(events[..i], key, reader)|
    {
      assert events[..i + 1] == events[..i] + [events[i]];
      RowsGrow(events[..i], events[i], key, reader);
      if InSession(events[i], key, reader) {
        total := total + 1;
        if events[i].state.Sent? {
          sent := sent + 1;
        } else if events[i].state.Rejected? || events[i].state.Dead? {
          failed := failed + 1;
        }
      }
      i := i + 1;
    }
    assert events[..i] == events;
    RowsPartition(events, key, reader);
    AllSentIff(events, key, reader);
    return Ok(Inspection(total, sent, total - sent - failed, failed));
  }

  const BLOCKED := "STOP success ACK blocked: final RFID events are rejected or dead and require recovery."
  const WAITING := "STOP success ACK waiting for final RFID events to be delivered to Odoo."

  /** require_final_session_delivery_complete: passes exactly when everything is SENT. */
  method RequireDeliveryComplete(events: seq<Event>, key: string, reader: string) returns (r: Result<Inspection>)
    ensures r.Ok? <==> key != "" && reader != "" && AllSent(events, key, reader)
    ensures key != "" && reader != "" && r.Err? ==>
              r.message == if |FailedRows(events, key, reader)| > 0 then BLOCKED else WAITING
  {
    hide AllSent, InSession, SentRows, PendingRows, FailedRows, SessionRows;
    var inspection :- Inspect(events, key, reader);
    if inspection.failed != 0 {
      return Err(BLOCKED);
    }
    if inspection.pending != 0 {
      return Err(WAITING);
    }
    return Ok(inspection);
  }
}
