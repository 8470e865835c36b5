/**
  One worker's delivery cycle: both dead-letter sweeps, the selection and the
  processing of the batch (bridge_core/final_delivery_cycle.py,
  bridge_core/delivery_cycle.py:64-107), without interference.
 */
module FinalDeliveryCycle {
  import opened Wrappers
  import opened Store
  import opened QueuePolicy
  import opened DeliveryService

  datatype Settings = Settings(
    reader: string,
    batchSize: int,
    maxAttempts: int,
    retryInitial: int,
    retryMax: int)

  /**
    What one round finds outside the database: the time of the selection, and for
    each event that gets an attempt, the time it starts, the sender's outcome (an
    exception counts as Retry, as in the code) and the time it completes.
   */
  datatype Reply = Reply(startedAt: int, outcome: Outcome, completedAt: int)

  datatype Round = Round(now: int, reply: nat -> Reply)

  // ------------------------------------------------------------- the queries

  predicate CancelledPending(sessions: map<string, Session>, e: Event, reader: string) {
    && e.device == reader && IsFinal(e)
    && e.session.Some? && e.session.value in sessions && sessions[e.session.value].status.Cancelled?
    && (e.state.Queued? || e.state.Retry?)
  }

  predicate ExhaustedRetry(e: Event, reader: string, maxAttempts: int) {
    IsFinalOf(e, reader) && e.state.Retry? && |e.attempts| >= maxAttempts
  }

  /** QUEUED, or RETRY whose latest attempt is a retry that has come due. */
  predicate Eligible(e: Event, reader: string, now: int) {
    && IsFinalOf(e, reader)
    && (e.state.Queued?
        || (e.state.Retry?
            && (var latest := Latest(e.attempts);
                latest.Some? && latest.value.outcome.Retry?
                && latest.value.nextRetryAt.Some? && latest.value.nextRetryAt.value <= now)))
  }

  /** The first `limit` eligible positions from `from` on, in order. */
  function Candidates(events: seq<Event>, reader: string, now: int, limit: nat, from: nat): (ids: seq<nat>)
    requires from <= |events|
    ensures |ids| <= limit
    ensures forall i :: 0 <= i < |ids| ==> from <= ids[i] < |events| && Eligible(events[ids[i]], reader, now)
    ensures forall i, j :: 0 <= i < j < |ids| ==> ids[i] < ids[j]
    ensures ids == [] && limit > 0 ==> forall k :: from <= k < |events| ==> !Eligible(events[k], reader, now)
    decreases |events| - from
  {
    if limit == 0 || from == |events| then []
    else if Eligible(events[from], reader, now) then
      [from] + Candidates(events, reader, now, limit - 1, from + 1)
    else Candidates(events, reader, now, limit, from + 1)
  }

  // --------------------------------------------------- what a cycle does to rows

  function AfterSweeps(sessions: map<string, Session>, e: Event, s: Settings): Event {
    if CancelledPending(sessions, e, s.reader) || ExhaustedRetry(e, s.reader, s.maxAttempts)
    then e.(state := QueueState.Dead)
    else e
  }

  /** The events that only the second sweep dead-letters. */
  ghost function ExhaustedIn(db: Db, s: Settings): set<nat> {
    set i: nat | i < |db.events| && ExhaustedRetry(db.events[i], s.reader, s.maxAttempts)
                 && !CancelledPending(db.sessions, db.events[i], s.reader)
  }

  function Swept(db: Db, s: Settings): (events: seq<Event>)
    ensures |events| == |db.events|
    ensures forall i :: 0 <= i < |events| ==> events[i] == AfterSweeps(db.sessions, db.events[i], s)
  {
    seq(|db.events|, i requires 0 <= i < |db.events| => AfterSweeps(db.sessions, db.events[i], s))
  }

  /** process_delivery_candidate on an event still in its selected state. */
  function Process(e: Event, s: Settings, reply: Reply): Event {
    match StartEvent(e, e.state, s.maxAttempts, reply.startedAt)
    case Err(_) => e
    case Ok(started) =>
      match CompleteEvent(started, NextNumber(e.attempts), reply.outcome, reply.completedAt, s.retryInitial, s.retryMax)
      case Err(_) => started
      case Ok(completed) => completed
  }

  /** The outcome process_delivery_candidate returns, or the exception it raises. */
  function ProcessResult(e: Event, s: Settings, reply: Reply): Result<Outcome> {
    match StartEvent(e, e.state, s.maxAttempts, reply.startedAt)
    case Err(m) => Err(m)
    case Ok(started) =>
      match CompleteEvent(started, NextNumber(e.attempts), reply.outcome, reply.completedAt, s.retryInitial, s.retryMax)
      case Err(m) => Err(m)
      case Ok(_) => Ok(reply.outcome)
  }

  function Chosen(db: Db, s: Settings, now: int): seq<nat>
    requires s.batchSize >= 1
  {
    Candidates(Swept(db, s), s.reader, now, s.batchSize, 0)
  }

  /** Every event is swept, and the chosen ones are then processed once. */
  function Cycle(db: Db, s: Settings, round: Round): (db': Db)
    requires s.batchSize >= 1
    ensures db'.sessions == db.sessions && |db'.events| == |db.events|
    ensures forall i :: 0 <= i < |db.events| ==>
              db'.events[i] ==
              var swept := AfterSweeps(db.sessions, db.events[i], s);
              if i in Chosen(db, s, round.now) then Process(swept, s, round.reply(i)) else swept
  {
    var swept := Swept(db, s);
    var chosen := Chosen(db, s, round.now);
    Db(db.sessions,
       seq(|swept|, i requires 0 <= i < |swept| =>
         if i in chosen then Process(swept[i], s, round.reply(i)) else swept[i]))
  }

  // --------------------------------------------------------------- the methods

  method DeadLetterCancelled(d: Database, reader: string) returns (r: Result<nat>)
    modifies d
    ensures d.sessions == old(d.sessions)
    ensures reader == "" ==> r.Err? && d.View() == old(d.View())
    ensures reader != "" ==>
      && r == Ok(|CancelledRows(old(d.View()), reader)|) && |d.events| == |old(d.events)|
      && forall i :: 0 <= i < |d.events| ==>
           d.events[i] ==
           if CancelledPending(d.sessions, old(d.events)[i], reader)
           then old(d.events)[i].(state := QueueState.Dead) else old(d.events)[i]
  {
    if reader == "" {
      return Err("Final RFID reader code cannot be empty.");
    }
    hide CancelledPending, MoveEvent, Elements, CancelledRows;
    ghost var before := d.events;
    var sessions := d.sessions;
    var ids := Where(d.events, e => CancelledPending(sessions, e, reader));
    var dead := 0;
    var k := 0;
    while k < |ids|
      invariant 0 <= k <= |ids| && dead == k
      invariant d.sessions == old(d.sessions) && |d.events| == |before|
      invariant forall i :: 0 <= i < |before| && i !in ids[..k] ==> d.events[i] == before[i]
      invariant forall i :: 0 <= i < |before| && i in ids[..k] ==> d.events[i] == before[i].(state := QueueState.Dead)
    {
      NextIsNew(ids, k);
      SweptMoves(sessions, before[ids[k]], reader, 0);
      var moved := TransitionEventQueueState(d, ids[k], d.events[ids[k]].state, QueueState.Dead);
      if moved.Ok? {
        dead := dead + 1;
      }
      k := k + 1;
    }
    assert ids[..|ids|] == ids;
    SameCancelled(old(d.View()), reader, ids);
    return Ok(dead);
  }

  method DeadLetterExhausted(d: Database, reader: string, maxAttempts: int) returns (r: Result<nat>)
    modifies d
    ensures d.sessions == old(d.sessions)
    ensures maxAttempts < 1 || reader == "" ==> r.Err? && d.View() == old(d.View())
    ensures maxAttempts >= 1 && reader != "" ==>
      && r == Ok(|Positions(old(d.events), reader, maxAttempts)|) && |d.events| == |old(d.events)|
      && forall i :: 0 <= i < |d.events| ==>
           d.events[i] ==
           if ExhaustedRetry(old(d.events)[i], reader, maxAttempts)
           then old(d.events)[i].(state := QueueState.Dead) else old(d.events)[i]
  {
    if maxAttempts < 1 {
      return Err("Maximum delivery attempts must be at least 1.");
    }
    if reader == "" {
      return Err("Final RFID reader code cannot be empty.");
    }
    hide ExhaustedRetry, MoveEvent, Elements, Positions;
    ghost var before, sessions := d.events, d.sessions;
    var ids := Where(d.events, e => ExhaustedRetry(e, reader, maxAttempts));
    var dead := 0;
    var k := 0;
    while k < |ids|
      invariant 0 <= k <= |ids| && dead == k
      invariant d.sessions == old(d.sessions) && |d.events| == |before|
      invariant forall i :: 0 <= i < |before| && i !in ids[..k] ==> d.events[i] == before[i]
      invariant forall i :: 0 <= i < |before| && i in ids[..k] ==> d.events[i] == before[i].(state := QueueState.Dead)
    {
      NextIsNew(ids, k);
      SweptMoves(sessions, before[ids[k]], reader, maxAttempts);
      var moved := TransitionEventQueueState(d, ids[k], QueueState.Retry, QueueState.Dead);
      if moved.Ok? {
        dead := dead + 1;
      }
      k := k + 1;
    }
    assert ids[..|ids|] == ids;
    SamePositions(before, reader, maxAttempts, ids);
    return Ok(dead);
  }

  ghost function CancelledRows(db: Db, reader: string): set<nat> {
    set i: nat | i < |db.events| && CancelledPending(db.sessions, db.events[i], reader)
  }

  lemma NextIsNew(ids: seq<nat>, k: nat)
    requires k < |ids| && forall i, j :: 0 <= i < j < |ids| ==> ids[i] < ids[j]
    ensures ids[k] !in ids[..k] && ids[..k + 1] == ids[..k] + [ids[k]]
  {
  }

  /** What the sweeps select may become DEAD. */
  lemma SweptMoves(sessions: map<string, Session>, e: Event, reader: string, maxAttempts: int)
    ensures CancelledPending(sessions, e, reader) || ExhaustedRetry(e, reader, maxAttempts) ==>
              MoveEvent(e, e.state, QueueState.Dead) == Ok(e.(state := QueueState.Dead))
    ensures ExhaustedRetry(e, reader, maxAttempts) ==> e.state.Retry?
  {
  }

  lemma SameCancelled(db: Db, reader: string, ids: seq<nat>)
    requires forall i, j :: 0 <= i < j < |ids| ==> ids[i] < ids[j]
    requires forall i: nat :: i in ids <==> i < |db.events| && CancelledPending(db.sessions, db.events[i], reader)
    ensures |CancelledRows(db, reader)| == |ids|
  {
    hide CancelledPending;
    assert Elements(ids) == CancelledRows(db, reader);
    DistinctSize(ids);
  }

  ghost function Positions(events: seq<Event>, reader: string, maxAttempts: int): set<nat> {
    set i: nat | i < |events| && ExhaustedRetry(events[i], reader, maxAttempts)
  }

  function Elements(ids: seq<nat>): set<nat> {
    set i | i in ids
  }

  lemma SamePositions(events: seq<Event>, reader: string, maxAttempts: int, ids: seq<nat>)
    requires forall i, j :: 0 <= i < j < |ids| ==> ids[i] < ids[j]
    requires forall i: nat :: i in ids <==> i < |events| && ExhaustedRetry(events[i], reader, maxAttempts)
    ensures |Positions(events, reader, maxAttempts)| == |ids|
  {
    assert Elements(ids) == Positions(events, reader, maxAttempts);
    DistinctSize(ids);
  }

  lemma {:induction false} DistinctSize(ids: seq<nat>)
    requires forall i, j :: 0 <= i < j < |ids| ==> ids[i] < ids[j]
    ensures |Elements(ids)| == |ids|
  {
    if ids != [] {
      DistinctSize(ids[1..]);
      assert ids[0] !in Elements(ids[1..]);
      assert Elements(ids) == Elements(ids[1..]) + {ids[0]};
    }
  }

  /** A query: the positions of the rows that satisfy a filter. */
  method Where(events: seq<Event>, filter: Event -> bool) returns (ids: seq<nat>)
    ensures forall i: nat :: i in ids <==> i < |events| && filter(events[i])
    ensures forall j :: 0 <= j < |ids| ==> ids[j] < |events| && filter(events[ids[j]])
    ensures forall i, j :: 0 <= i < j < |ids| ==> ids[i] < ids[j]
  {
    ids := [];
    var k := 0;
    while k < |events|
      invariant 0 <= k <= |events|
      invariant forall i: nat :: i in ids <==> i < k && filter(events[i])
      invariant forall j :: 0 <= j < |ids| ==> ids[j] < k && filter(events[ids[j]])
      invariant forall i, j :: 0 <= i < j < |ids| ==> ids[i] < ids[j]
    {
      if filter(events[k]) {
        ids := ids + [k];
      }
      k := k + 1;
    }
  }

  method ProcessDeliveryCandidate(d: Database, id: nat, s: Settings, reply: Reply) returns (r: Result<Outcome>)
    requires id < |d.events|
    modifies d
    ensures d.View() == old(d.View()).(events := old(d.events)[id := Process(old(d.events)[id], s, reply)])
    ensures r == ProcessResult(old(d.events)[id], s, reply)
  {
    var started := StartDeliveryAttempt(d, id, d.events[id].state, s.maxAttempts, reply.startedAt);
    if started.Err? {
      assert d.events == old(d.events)[id := old(d.events)[id]];
      return Err(started.message);
    }
    var completed := CompleteDeliveryAttempt(
      d, id, started.value, reply.outcome, reply.completedAt, s.retryInitial, s.retryMax);
    if completed.Err? {
      return Err(completed.message);
    }
    return Ok(reply.outcome);
  }

  datatype Counters = Counters(sent: nat, retry: nat, rejected: nat, dead: nat, failed: nat)

  /** The loop over the selected events. */
  method ProcessBatch(d: Database, ids: seq<nat>, s: Settings, round: Round) returns (c: Counters)
    requires forall i :: 0 <= i < |ids| ==> ids[i] < |d.events|
    requires forall i, j :: 0 <= i < j < |ids| ==> ids[i] < ids[j]
    modifies d
    ensures d.sessions == old(d.sessions) && |d.events| == |old(d.events)|
    ensures forall i :: 0 <= i < |d.events| ==>
              d.events[i] == if i in ids then Process(old(d.events)[i], s, round.reply(i)) else old(d.events)[i]
    ensures Tallies(c, old(d.events), ids, s, round)
  {
    hide Process, ProcessResult, Tallies;
    ghost var before := d.events;
    NothingTallied(before, s, round);
    c := Counters(0, 0, 0, 0, 0);
    var k := 0;
    while k < |ids|
      invariant 0 <= k <= |ids|
      invariant d.sessions == old(d.sessions) && |d.events| == |before|
      invariant forall i :: 0 <= i < |before| && i !in ids[..k] ==> d.events[i] == before[i]
      invariant forall i :: 0 <= i < |before| && i in ids[..k] ==> d.events[i] == Process(before[i], s, round.reply(i))
      invariant Tallies(c, before, ids[..k], s, round)
    {
      var id := ids[k];
      assert id !in ids[..k];
      assert ids[..k + 1] == ids[..k] + [id];
      var result := ProcessDeliveryCandidate(d, id, s, round.reply(id));
      NeverStarted(before[id], s, round.reply(id));
      TallyNext(c, before, ids[..k], id, s, round);
      if result.Err? {
        c := c.(failed := c.failed + 1);
      } else if result.value.Sent? {
        c := c.(sent := c.sent + 1);
      } else if result.value.Retry? {
        c := c.(retry := c.retry + 1);
      } else if result.value.Rejected? {
        c := c.(rejected := c.rejected + 1);
      } else if result.value.Dead? {
        c := c.(dead := c.dead + 1);
      }
      k := k + 1;
    }
    assert ids[..|ids|] == ids;
  }

  datatype CycleResult = CycleResult(selected: nat, counters: Counters, exhausted: nat)

  /** Before the selection raises, the sweeps have already been committed. */
  method RunFinalDeliveryCycle(d: Database, s: Settings, round: Round) returns (r: Result<CycleResult>)
    modifies d
    ensures s.maxAttempts < 1 || s.reader == "" ==> r.Err? && d.View() == old(d.View())
    ensures s.maxAttempts >= 1 && s.reader != "" && s.batchSize < 1 ==>
              r.Err? && d.View() == old(d.View()).(events := Swept(old(d.View()), s))
    ensures s.maxAttempts >= 1 && s.reader != "" && s.batchSize >= 1 ==>
      && r.Ok? && d.View() == Cycle(old(d.View()), s, round)
      && var chosen := Chosen(old(d.View()), s, round.now);
         && r.value.selected == |chosen|
         && r.value.exhausted == |ExhaustedIn(old(d.View()), s)|
         && Tallies(r.value.counters, Swept(old(d.View()), s), chosen, s, round)
  {
    if s.maxAttempts < 1 {
      return Err("Maximum delivery attempts must be at least 1.");
    }
    hide Process, ProcessResult, Eligible, Tallies;
    ghost var db := d.View();
    var cancelled :- DeadLetterCancelled(d, s.reader);
    ghost var afterCancelled := d.events;
    var exhausted := DeadLetterExhausted(d, s.reader, s.maxAttempts);
    assert d.events == Swept(db, s);
    assert Positions(afterCancelled, s.reader, s.maxAttempts) == ExhaustedIn(db, s);
    if s.batchSize < 1 {
      return Err("Final delivery batch size must be at least 1.");
    }
    var ids := Candidates(d.events, s.reader, round.now, s.batchSize, 0);
    var counters := ProcessBatch(d, ids, s, round);
    assert d.events == Cycle(db, s, round).events;
    return Ok(CycleResult(|ids|, counters, exhausted.value));
  }

  /** The counters after one more event. */
  function Count(c: Counters, r: Result<Outcome>): Counters {
    match r
    case Err(_) => c.(failed := c.failed + 1)
    case Ok(Sent) => c.(sent := c.sent + 1)
    case Ok(Retry) => c.(retry := c.retry + 1)
    case Ok(Rejected) => c.(rejected := c.rejected + 1)
    case Ok(Dead) => c.(dead := c.dead + 1)
    case Ok(Started) => c
  }

  lemma NothingTallied(events: seq<Event>, s: Settings, round: Round)
    ensures Tallies(Counters(0, 0, 0, 0, 0), events, [], s, round)
  {
  }

  lemma TallyNext(c: Counters, events: seq<Event>, ids: seq<nat>, id: nat, s: Settings, round: Round)
    requires id < |events| && forall i :: 0 <= i < |ids| ==> ids[i] < |events|
    requires Tallies(c, events, ids, s, round)
    ensures Tallies(Count(c, ProcessResult(events[id], s, round.reply(id))), events, ids + [id], s, round)
  {
    hide ProcessResult;
    NeverStarted(events[id], s, round.reply(id));
    assert (ids + [id])[..|ids|] == ids;
    var r := ProcessResult(events[id], s, round.reply(id));
    var next := Count(c, r);
    assert match r
           case Err(_) => next.(failed := next.failed - 1) == c
           case Ok(Sent) => next.(sent := next.sent - 1) == c
           case Ok(Retry) => next.(retry := next.retry - 1) == c
           case Ok(Rejected) => next.(rejected := next.rejected - 1) == c
           case Ok(Dead) => next.(dead := next.dead - 1) == c
           case Ok(Started) => true;
  }

  lemma NeverStarted(e: Event, s: Settings, reply: Reply)
    ensures ProcessResult(e, s, reply) != Ok(Outcome.Started)
  {
  }

  /** The counters sort the listed events by how their processing ends. */
  ghost predicate Tallies(c: Counters, events: seq<Event>, ids: seq<nat>, s: Settings, round: Round)
    requires forall i :: 0 <= i < |ids| ==> ids[i] < |events|
    decreases |ids|
  {
    if ids == [] then c == Counters(0, 0, 0, 0, 0)
    else
      var last := ids[|ids| - 1];
      var rest := ids[..|ids| - 1];
      match ProcessResult(events[last], s, round.reply(last))
      case Err(_) => c.failed > 0 && Tallies(c.(failed := c.failed - 1), events, rest, s, round)
      case Ok(outcome) =>
        match outcome
        case Sent => c.sent > 0 && Tallies(c.(sent := c.sent - 1), events, rest, s, round)
        case Retry => c.retry > 0 && Tallies(c.(retry := c.retry - 1), events, rest, s, round)
        case Rejected => c.rejected > 0 && Tallies(c.(rejected := c.rejected - 1), events, rest, s, round)
        case Dead => c.dead > 0 && Tallies(c.(dead := c.dead - 1), events, rest, s, round)
        case Started => false
  }

  lemma {:induction false} TalliesAddUp(c: Counters, events: seq<Event>, ids: seq<nat>, s: Settings, round: Round)
    requires forall i :: 0 <= i < |ids| ==> ids[i] < |events|
    requires Tallies(c, events, ids, s, round)
    ensures c.sent + c.retry + c.rejected + c.dead + c.failed == |ids|
    decreases |ids|
  {
    if ids != [] {
      var last := ids[|ids| - 1];
      var rest := ids[..|ids| - 1];
      match ProcessResult(events[last], s, round.reply(last))
      case Err(_) => TalliesAddUp(c.(failed := c.failed - 1), events, rest, s, round);
      case Ok(outcome) =>
        match outcome
        case Sent => TalliesAddUp(c.(sent := c.sent - 1), events, rest, s, round);
        case Retry => TalliesAddUp(c.(retry := c.retry - 1), events, rest, s, round);
        case Rejected => TalliesAddUp(c.(rejected := c.rejected - 1), events, rest, s, round);
        case Dead => TalliesAddUp(c.(dead := c.dead - 1), events, rest, s, round);
    }
  }
}
