/**
  One event's attempts: starting, completing and dead-lettering
  (bridge_core/delivery_service.py, bridge_core/queue_service.py). Each function
  is what one transaction does to the row it locks; an error leaves it alone.
 */
module DeliveryService {
  import opened Wrappers
  import opened Store
  import opened QueuePolicy

  /** order_by("-attempt_number").first() */
  function Latest(attempts: seq<Attempt>): (latest: Option<Attempt>)
    ensures latest.None? <==> attempts == []
  {
    if attempts == [] then None
    else
      var rest := Latest(attempts[1..]);
      if rest.Some? && rest.value.number >= attempts[0].number then rest else Some(attempts[0])
  }

  function NextNumber(attempts: seq<Attempt>): nat {
    match Latest(attempts) case Some(a) => a.number + 1 case None => 1
  }

  /** start_delivery_attempt */
  function StartEvent(e: Event, expected: QueueState, maxAttempts: int, now: int): Result<Event> {
    if maxAttempts < 1 then Err("Maximum delivery attempts must be at least 1.")
    else if e.state != expected then Err("Stale queue state expectation.")
    else if !(e.state.Queued? || e.state.Retry?) then Err("Delivery attempt cannot start from queue state.")
    else if NextNumber(e.attempts) > maxAttempts then Err("Maximum delivery attempts reached.")
    else if !Allowed(e.state, QueueState.Inflight) then Err("Illegal queue transition.")
    else
      Ok(e.(state := QueueState.Inflight,
            attempts := e.attempts + [Attempt(NextNumber(e.attempts), Outcome.Started, now, None, None)]))
  }

  /** The attempt with this number; numbers are unique per event. */
  function Find(attempts: seq<Attempt>, number: nat): (index: Option<nat>)
    ensures index.Some? ==> index.value < |attempts| && attempts[index.value].number == number
    ensures index.None? ==> forall i :: 0 <= i < |attempts| ==> attempts[i].number != number
  {
    if attempts == [] then None
    else if attempts[0].number == number then Some(0)
    else match Find(attempts[1..], number) case Some(i) => Some(i + 1) case None => None
  }

  function TargetState(outcome: Outcome): QueueState
    requires !outcome.Started?
  {
    match outcome
    case Sent => QueueState.Sent
    case Retry => QueueState.Retry
    case Rejected => QueueState.Rejected
    case Dead => QueueState.Dead
  }

  /** complete_delivery_attempt */
  function CompleteEvent(e: Event, number: nat, outcome: Outcome, now: int, initial: int, maximum: int): Result<Event> {
    if outcome.Started? then Err("Unsupported delivery completion outcome.")
    else if !e.state.Inflight? then Err("Delivery attempt can only complete while event is inflight.")
    else
      match Find(e.attempts, number)
      case None => Err("DeliveryAttempt matching query does not exist.")
      case Some(i) =>
        var attempt := e.attempts[i];
        if !attempt.outcome.Started? then Err("Delivery attempt is already completed.")
        else if !Allowed(e.state, TargetState(outcome)) then Err("Illegal queue transition.")
        else if outcome.Retry? then
          var delay :- RetryDelay(attempt.number, initial, maximum);
          Ok(Completed(e, i, outcome, now, Some(now + delay)))
        else Ok(Completed(e, i, outcome, now, None))
  }

  function Completed(e: Event, i: nat, outcome: Outcome, now: int, nextRetryAt: Option<int>): Event
    requires i < |e.attempts| && !outcome.Started?
  {
    e.(state := TargetState(outcome),
       attempts := e.attempts[i := e.attempts[i].(outcome := outcome, completedAt := Some(now), nextRetryAt := nextRetryAt)])
  }

  /** transition_event_queue_state */
  function MoveEvent(e: Event, expected: QueueState, target: QueueState): Result<Event> {
    if e.state != expected then Err("Stale queue state expectation.")
    else if !Allowed(e.state, target) then Err("Illegal queue transition.")
    else Ok(e.(state := target))
  }

  // ------------------------------------------------------------ the methods

  method StartDeliveryAttempt(d: Database, id: nat, expected: QueueState, maxAttempts: int, now: int)
    returns (r: Result<nat>)
    requires id < |d.events|
    modifies d
    ensures
      match StartEvent(old(d.events)[id], expected, maxAttempts, now)
      case Err(m) => r == Err(m) && d.View() == old(d.View())
      case Ok(e) =>
        && d.View() == old(d.View()).(events := old(d.events)[id := e])
        && r == Ok(NextNumber(old(d.events)[id].attempts))
  {
    if maxAttempts < 1 {
      return Err("Maximum delivery attempts must be at least 1.");
    }
    var event := d.events[id];
    if event.state != expected {
      return Err("Stale queue state expectation.");
    }
    if !(event.state.Queued? || event.state.Retry?) {
      return Err("Delivery attempt cannot start from queue state.");
    }
    var previous := Latest(event.attempts);
    var number := 1;
    if previous.Some? {
      number := previous.value.number + 1;
    }
    if number > maxAttempts {
      return Err("Maximum delivery attempts reached.");
    }
    if !Allowed(event.state, QueueState.Inflight) {
      return Err("Illegal queue transition.");
    }
    event := event.(state := QueueState.Inflight);
    d.events := d.events[id := event];
    var attempt := Attempt(number, Outcome.Started, now, None, None);
    d.events := d.events[id := event.(attempts := event.attempts + [attempt])];
    return Ok(number);
  }

  method CompleteDeliveryAttempt(
    d: Database, id: nat, number: nat, outcome: Outcome, now: int, initial: int, maximum: int)
    returns (r: Result<QueueState>)
    requires id < |d.events|
    modifies d
    ensures
      match CompleteEvent(old(d.events)[id], number, outcome, now, initial, maximum)
      case Err(m) => r == Err(m) && d.View() == old(d.View())
      case Ok(e) => d.View() == old(d.View()).(events := old(d.events)[id := e]) && r == Ok(e.state)
  {
    if outcome.Started? {
      return Err("Unsupported delivery completion outcome.");
    }
    var event := d.events[id];
    if !event.state.Inflight? {
      return Err("Delivery attempt can only complete while event is inflight.");
    }
    var found := Find(event.attempts, number);
    if found.None? {
      return Err("DeliveryAttempt matching query does not exist.");
    }
    var attempt := event.attempts[found.value];
    if !attempt.outcome.Started? {
      return Err("Delivery attempt is already completed.");
    }
    var target := TargetState(outcome);
    if !Allowed(event.state, target) {
      return Err("Illegal queue transition.");
    }
    var nextRetryAt: Option<int> := None;
    if outcome.Retry? {
      var delay :- RetryDelay(attempt.number, initial, maximum);
      nextRetryAt := Some(now + delay);
    }
    event := event.(state := target);
    attempt := attempt.(outcome := outcome, completedAt := Some(now), nextRetryAt := nextRetryAt);
    event := event.(attempts := event.attempts[found.value := attempt]);
    d.events := d.events[id := event];
    return Ok(target);
  }

  method TransitionEventQueueState(d: Database, id: nat, expected: QueueState, target: QueueState)
    returns (r: Result<QueueState>)
    requires id < |d.events|
    modifies d
    ensures
      match MoveEvent(old(d.events)[id], expected, target)
      case Err(m) => r == Err(m) && d.View() == old(d.View())
      case Ok(e) => d.View() == old(d.View()).(events := old(d.events)[id := e]) && r == Ok(target)
  {
    var event := d.events[id];
    if event.state != expected {
      return Err("Stale queue state expectation.");
    }
    if !Allowed(event.state, target) {
      return Err("Illegal queue transition.");
    }
    d.events := d.events[id := event.(state := target)];
    return Ok(target);
  }

  // --------------------------------------------------- the attempt-log invariant

  /** What the state and the attempts of one event say about each other. */
  ghost predicate LogInvariant(e: Event, maxAttempts: nat) {
    var n := |e.attempts|;
    && n <= maxAttempts
    && (forall i :: 0 <= i < n ==> e.attempts[i].number == i + 1)
    && (forall i :: 0 <= i < n - 1 ==> CompletedRetry(e.attempts[i]))
    && (n > 0 ==> (e.attempts[n - 1].outcome.Started? <==> e.attempts[n - 1].completedAt.None?))
    && StateMatches(e.state, e.attempts)
  }

  ghost predicate CompletedRetry(a: Attempt) {
    a.outcome.Retry? && a.completedAt.Some? && a.nextRetryAt.Some?
  }

  ghost predicate StateMatches(state: QueueState, attempts: seq<Attempt>) {
    if attempts == [] then
      state.Unassigned? || state.Queued? || state.Rejected? || state.Dead?
    else
      var last := attempts[|attempts| - 1];
      match last.outcome
      case Started => state.Inflight?
      case Sent => state.Sent?
      case Rejected => state.Rejected?
      case Dead => state.Dead?
      case Retry => (state.Retry? || state.Dead?) && CompletedRetry(last)
  }

  /** The reading a maintainer wants: each queue state, spelled out. */
  lemma {:induction false} LogInvariantMeans(e: Event, maxAttempts: nat)
    requires LogInvariant(e, maxAttempts)
    ensures
      var n := |e.attempts|;
      && (e.state.Inflight? <==> n > 0 && e.attempts[n - 1].outcome.Started?)
      && (e.state.Sent? <==> n > 0 && e.attempts[n - 1].outcome.Sent?)
      && (e.state.Retry? ==> n > 0 && CompletedRetry(e.attempts[n - 1]))
      && (e.state.Queued? || e.state.Unassigned? ==> n == 0)
      && (forall i, j :: 0 <= i < n && 0 <= j < n && e.attempts[i].outcome.Started? && e.attempts[j].outcome.Started? ==> i == j)
  {
  }

  lemma {:induction false} LatestIsLast(attempts: seq<Attempt>, from: nat)
    requires forall i :: 0 <= i < |attempts| ==> attempts[i].number == from + i
    ensures attempts != [] ==> Latest(attempts) == Some(attempts[|attempts| - 1])
  {
    if |attempts| > 1 {
      LatestIsLast(attempts[1..], from + 1);
    }
  }

  lemma NextNumberIsLength(e: Event, maxAttempts: nat)
    requires LogInvariant(e, maxAttempts)
    ensures NextNumber(e.attempts) == |e.attempts| + 1
  {
    LatestIsLast(e.attempts, 1);
  }

  /** Starting appends attempt n + 1 and is refused unless the snapshot still holds. */
  lemma {:induction false} StartKeepsLog(e: Event, expected: QueueState, max: int, now: int, bound: nat)
    requires LogInvariant(e, bound) && max <= bound
    ensures
      var r := StartEvent(e, expected, max, now);
      && (r.Ok? <==> e.state == expected && (expected.Queued? || expected.Retry?) && |e.attempts| < max)
      && (r.Ok? ==>
          && LogInvariant(r.value, bound)
          && r.value == e.(state := QueueState.Inflight, attempts := r.value.attempts)
          && |r.value.attempts| == |e.attempts| + 1
          && r.value.attempts[..|e.attempts|] == e.attempts)
  {
    NextNumberIsLength(e, bound);
  }

  lemma {:induction false} FindNumbered(attempts: seq<Attempt>, from: nat, number: nat)
    requires forall i :: 0 <= i < |attempts| ==> attempts[i].number == from + i
    ensures Find(attempts, number) == if from <= number < from + |attempts| then Some((number - from) as nat) else None
  {
    if attempts != [] {
      FindNumbered(attempts[1..], from + 1, number);
    }
  }

  /** What completing the last attempt makes of an INFLIGHT event. */
  lemma CompletedKeepsLog(e: Event, outcome: Outcome, now: int, nextRetryAt: Option<int>, bound: nat)
    requires LogInvariant(e, bound) && e.state.Inflight? && e.attempts != []
    requires !outcome.Started? && (outcome.Retry? ==> nextRetryAt.Some?)
    ensures
      var n := |e.attempts|;
      var e' := Completed(e, n - 1, outcome, now, nextRetryAt);
      && LogInvariant(e', bound)
      && e' == e.(state := TargetState(outcome), attempts := e'.attempts)
      && |e'.attempts| == n
      && e'.attempts[..n - 1] == e.attempts[..n - 1]
      && e'.attempts[n - 1] ==
         Attempt(n, outcome, e.attempts[n - 1].attemptedAt, Some(now), nextRetryAt)
  {
    hide RetryDelay, Allowed;
  }

  /** Only the last attempt of an INFLIGHT event can be completed. */
  lemma CompleteIsCompleted(e: Event, number: nat, outcome: Outcome, now: int, initial: int, maximum: int, bound: nat)
    requires LogInvariant(e, bound)
    ensures
      var n := |e.attempts|;
      var r := CompleteEvent(e, number, outcome, now, initial, maximum);
      && (r.Ok? <==>
          e.state.Inflight? && number == n && !outcome.Started?
          && (outcome.Retry? ==> RetryDelay(n, initial, maximum).Ok?))
      && (r.Ok? ==>
          && n > 0
          && r.value ==
             Completed(e, n - 1, outcome, now, if outcome.Retry? then Some(now + RetryDelay(n, initial, maximum).value) else None))
  {
    hide RetryDelay, Allowed, Completed, LogInvariant;
    LogInvariantMeans(e, bound);
    AttemptsAreNumbered(e, bound);
    FindNumbered(e.attempts, 1, number);
    InflightMayEnd();
  }

  lemma AttemptsAreNumbered(e: Event, bound: nat)
    requires LogInvariant(e, bound)
    ensures forall i :: 0 <= i < |e.attempts| ==> e.attempts[i].number == i + 1
  {
  }

  lemma InflightMayEnd()
    ensures forall outcome: Outcome :: !outcome.Started? ==> Allowed(QueueState.Inflight, TargetState(outcome))
  {
  }

  /** Completing closes the one open attempt, and nothing else can be completed. */
  lemma {:induction false} CompleteKeepsLog(
    e: Event, number: nat, outcome: Outcome, now: int, initial: int, maximum: int, bound: nat)
    requires LogInvariant(e, bound)
    ensures
      var n := |e.attempts|;
      var r := CompleteEvent(e, number, outcome, now, initial, maximum);
      && (r.Ok? <==>
          e.state.Inflight? && number == n && !outcome.Started?
          && (outcome.Retry? ==> ValidRetrySettings(initial, maximum)))
      && (r.Ok? ==>
          && LogInvariant(r.value, bound)
          && r.value == e.(state := TargetState(outcome), attempts := r.value.attempts)
          && |r.value.attempts| == n
          && r.value.attempts[..n - 1] == e.attempts[..n - 1]
          && r.value.attempts[n - 1].number == n
          && r.value.attempts[n - 1].attemptedAt == e.attempts[n - 1].attemptedAt
          && r.value.attempts[n - 1].completedAt == Some(now)
          && (outcome.Retry? ==>
              r.value.attempts[n - 1].nextRetryAt == Some(now + RetryDelay(n, initial, maximum).value)))
  {
    LogInvariantMeans(e, bound);
    hide Allowed, Completed, CompleteEvent, LogInvariant;
    var n := |e.attempts|;
    CompleteIsCompleted(e, number, outcome, now, initial, maximum, bound);
    if CompleteEvent(e, number, outcome, now, initial, maximum).Ok? {
      var next := if outcome.Retry? then Some(now + RetryDelay(n, initial, maximum).value) else None;
      CompletedKeepsLog(e, outcome, now, next, bound);
    }
  }

  /** Dead-lettering only applies before delivery or between attempts. */
  lemma {:induction false} SweepKeepsLog(e: Event, expected: QueueState, bound: nat)
    requires LogInvariant(e, bound) && (expected.Queued? || expected.Retry?)
    ensures
      var r := MoveEvent(e, expected, QueueState.Dead);
      && (r.Ok? <==> e.state == expected)
      && (r.Ok? ==> LogInvariant(r.value, bound) && r.value == e.(state := QueueState.Dead))
  {
  }
}
