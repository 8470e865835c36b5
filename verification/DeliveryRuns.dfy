/**
  Any number of delivery workers on one database. A worker acts on selections
  that may be arbitrarily old, may stop between any two transactions, and may be
  overtaken by the sweeps of other workers. Every schedule is a sequence of
  actions; an action that is not possible leaves the world alone.
  (bridge_core/delivery_cycle.py:64-107, bridge_core/final_delivery_cycle.py:105-219)
 */
module DeliveryRuns {
  import opened Wrappers
  import opened Store
  import opened QueuePolicy
  import opened DeliveryService

  /** An event as a worker selected it: its identity and the state it had then. */
  datatype Snapshot = Snapshot(id: nat, state: QueueState)

  datatype Worker =
    | Choosing(todo: seq<Snapshot>)
    | Sending(id: nat, number: nat, todo: seq<Snapshot>)
    | Replied(id: nat, number: nat, outcome: Outcome, todo: seq<Snapshot>)

  /** What has happened to an event so far. */
  datatype Tally = Tally(sends: nat, changes: nat)

  datatype World = World(events: seq<Event>, workers: map<nat, Worker>, tallies: seq<Tally>)

  datatype Action =
    | Select(worker: nat, todo: seq<Snapshot>)
    | Begin(worker: nat, maxAttempts: int, now: int)
    | Send(worker: nat, outcome: Outcome)
    | Finish(worker: nat, now: int, initial: int, maximum: int)
    | Sweep(id: nat, expected: QueueState)
    | Add(event: Event)
    | Assign(id: nat, session: string)
    | Vanish(worker: nat)

  const Start := World([], map[], [])

  function WorkerAt(w: World, k: nat): Worker {
    if k in w.workers then w.workers[k] else Choosing([])
  }

  predicate Holds(worker: Worker) {
    worker.Sending? || worker.Replied?
  }

  /** Write a row; count the write if it changed the queue state. */
  function Write(w: World, id: nat, e: Event): World
    requires id < |w.events| && id < |w.tallies|
  {
    var t := w.tallies[id];
    var t' := if e.state == w.events[id].state then t else t.(changes := t.changes + 1);
    w.(events := w.events[id := e], tallies := w.tallies[id := t'])
  }

  function Step(w: World, a: Action, bound: nat): World
    requires |w.tallies| == |w.events|
  {
    match a
    case Select(k, todo) =>
      if WorkerAt(w, k).Choosing? then w.(workers := w.workers[k := Choosing(todo)]) else w
    case Begin(k, maxAttempts, now) =>
      var worker := WorkerAt(w, k);
      if !worker.Choosing? || worker.todo == [] || maxAttempts > bound then w
      else
        var next, rest := worker.todo[0], worker.todo[1..];
        var skipped := w.(workers := w.workers[k := Choosing(rest)]);
        if next.id >= |w.events| then skipped
        else
          (match StartEvent(w.events[next.id], next.state, maxAttempts, now)
           case Err(_) => skipped
           case Ok(e) =>
             Write(w, next.id, e).(workers := w.workers[k := Sending(next.id, NextNumber(w.events[next.id].attempts), rest)]))
    case Send(k, outcome) =>
      var worker := WorkerAt(w, k);
      if !worker.Sending? || worker.id >= |w.events| then w
      else
        var t := w.tallies[worker.id];
        w.(workers := w.workers[k := Replied(worker.id, worker.number, outcome, worker.todo)],
           tallies := w.tallies[worker.id := t.(sends := t.sends + 1)])
    case Finish(k, now, initial, maximum) =>
      var worker := WorkerAt(w, k);
      if !worker.Replied? || worker.id >= |w.events| then w
      else
        var done := w.workers[k := Choosing(worker.todo)];
        (match CompleteEvent(w.events[worker.id], worker.number, worker.outcome, now, initial, maximum)
         case Err(_) => w
         case Ok(e) => Write(w, worker.id, e)).(workers := done)
    case Sweep(id, expected) =>
      if id >= |w.events| || !(expected.Queued? || expected.Retry?) then w
      else
        (match MoveEvent(w.events[id], expected, QueueState.Dead)
         case Err(_) => w
         case Ok(e) => Write(w, id, e))
    case Add(event) =>
      if event.state.Unassigned? && event.attempts == [] then
        w.(events := w.events + [event], tallies := w.tallies + [Tally(0, 0)])
      else w
    case Assign(id, session) =>
      if id >= |w.events| then w
      else
        (match MoveEvent(w.events[id], QueueState.Unassigned, QueueState.Queued)
         case Err(_) => w
         case Ok(e) => Write(w, id, e.(session := Some(session))))
    case Vanish(k) => w.(workers := w.workers[k := Choosing([])])
  }

  function Run(w: World, schedule: seq<Action>, bound: nat): (w': World)
    requires |w.tallies| == |w.events|
    ensures |w'.tallies| == |w'.events|
    decreases |schedule|
  {
    if schedule == [] then w else Run(Step(w, schedule[0], bound), schedule[1..], bound)
  }

  // ---------------------------------------------------------------- invariant

  /** How often an event's queue state has changed, read off the row alone. */
  function Changes(e: Event): nat {
    var n := |e.attempts|;
    match e.state
    case Unassigned => 0
    case Queued => 1
    case Inflight => 2 * n
    case Retry => 2 * n + 1
    case Sent => 2 * n + 1
    case Rejected => 2 * n + 1
    case Dead => if n > 0 && e.attempts[n - 1].outcome.Dead? then 2 * n + 1 else 2 * n + 2
  }

  ghost predicate RowOk(e: Event, t: Tally, bound: nat) {
    LogInvariant(e, bound) && t.sends <= |e.attempts| && t.changes == Changes(e) && (e.state.Rejected? ==> e.attempts != [])
  }

  /** A worker between start and completion holds the event's only open attempt. */
  ghost predicate HoldOk(w: World, worker: Worker)
    requires |w.tallies| == |w.events|
  {
    Holds(worker) ==>
      && worker.id < |w.events|
      && w.events[worker.id].state.Inflight?
      && worker.number == |w.events[worker.id].attempts|
      && (worker.Sending? ==> w.tallies[worker.id].sends < worker.number)
  }

  ghost predicate Exclusive(workers: map<nat, Worker>) {
    forall j, k :: j in workers && k in workers && j != k && Holds(workers[j]) && Holds(workers[k]) ==>
      workers[j].id != workers[k].id
  }

  ghost predicate Safe(w: World, bound: nat) {
    && |w.tallies| == |w.events|
    && (forall i :: 0 <= i < |w.events| ==> RowOk(w.events[i], w.tallies[i], bound))
    && (forall k :: k in w.workers ==> HoldOk(w, w.workers[k]))
    && Exclusive(w.workers)
  }

  lemma BeginSafe(w: World, k: nat, maxAttempts: int, now: int, bound: nat)
    requires Safe(w, bound)
    ensures Safe(Step(w, Begin(k, maxAttempts, now), bound), bound)
  {
    var worker := WorkerAt(w, k);
    if worker.Choosing? && worker.todo != [] && maxAttempts <= bound && worker.todo[0].id < |w.events| {
      var next := worker.todo[0];
      var e := w.events[next.id];
      assert RowOk(e, w.tallies[next.id], bound);
      StartKeepsLog(e, next.state, maxAttempts, now, bound);
      NextNumberIsLength(e, bound);
    }
  }

  lemma SendSafe(w: World, k: nat, outcome: Outcome, bound: nat)
    requires Safe(w, bound)
    ensures Safe(Step(w, Send(k, outcome), bound), bound)
  {
    var worker := WorkerAt(w, k);
    if worker.Sending? {
      assert HoldOk(w, worker);
      assert RowOk(w.events[worker.id], w.tallies[worker.id], bound);
    }
  }

  lemma {:induction false} FinishSafe(w: World, k: nat, now: int, initial: int, maximum: int, bound: nat)
    requires Safe(w, bound)
    ensures Safe(Step(w, Finish(k, now, initial, maximum), bound), bound)
  {
    var worker := WorkerAt(w, k);
    if worker.Replied? {
      assert HoldOk(w, worker);
      assert RowOk(w.events[worker.id], w.tallies[worker.id], bound);
      CompleteKeepsLog(w.events[worker.id], worker.number, worker.outcome, now, initial, maximum, bound);
    }
  }

  lemma SweepSafe(w: World, id: nat, expected: QueueState, bound: nat)
    requires Safe(w, bound)
    ensures Safe(Step(w, Sweep(id, expected), bound), bound)
  {
    if id < |w.events| && (expected.Queued? || expected.Retry?) {
      assert RowOk(w.events[id], w.tallies[id], bound);
      SweepKeepsLog(w.events[id], expected, bound);
    }
  }

  lemma AddSafe(w: World, event: Event, bound: nat)
    requires Safe(w, bound)
    ensures Safe(Step(w, Add(event), bound), bound)
  {
  }

  lemma AssignSafe(w: World, id: nat, session: string, bound: nat)
    requires Safe(w, bound)
    ensures Safe(Step(w, Assign(id, session), bound), bound)
  {
    if id < |w.events| {
      assert RowOk(w.events[id], w.tallies[id], bound);
    }
  }

  lemma {:induction false} StepSafe(w: World, a: Action, bound: nat)
    requires Safe(w, bound)
    ensures Safe(Step(w, a, bound), bound)
  {
    match a
    case Select(k, todo) =>
    case Begin(k, maxAttempts, now) => BeginSafe(w, k, maxAttempts, now, bound);
    case Send(k, outcome) => SendSafe(w, k, outcome, bound);
    case Finish(k, now, initial, maximum) => FinishSafe(w, k, now, initial, maximum, bound);
    case Sweep(id, expected) => SweepSafe(w, id, expected, bound);
    case Add(event) => AddSafe(w, event, bound);
    case Assign(id, session) => AssignSafe(w, id, session, bound);
    case Vanish(k) =>
  }

  lemma {:induction false} RunSafe(w: World, schedule: seq<Action>, bound: nat)
    requires Safe(w, bound)
    ensures Safe(Run(w, schedule, bound), bound)
    decreases |schedule|
  {
    if schedule != [] {
      StepSafe(w, schedule[0], bound);
      RunSafe(Step(w, schedule[0], bound), schedule[1..], bound);
    }
  }

  // ----------------------------------------------------------- over whole runs

  /**
    In every schedule, whatever the workers had selected: each event's attempt log
    is well formed, send_event was called for it at most `bound` times, its state
    changed at most 2 * bound + 2 times, and no two workers hold the same event.
   */
  lemma {:induction false} StaleSnapshotsAreSafe(schedule: seq<Action>, bound: nat)
    ensures
      var w := Run(Start, schedule, bound);
      && (forall i :: 0 <= i < |w.events| ==>
           && LogInvariant(w.events[i], bound)
           && w.tallies[i].sends <= |w.events[i].attempts| <= bound
           && w.tallies[i].changes <= 2 * bound + 2)
      && Exclusive(w.workers)
  {
    RunSafe(Start, schedule, bound);
    var w := Run(Start, schedule, bound);
    forall i | 0 <= i < |w.events|
      ensures LogInvariant(w.events[i], bound) && w.tallies[i].sends <= |w.events[i].attempts|
      ensures w.tallies[i].changes <= 2 * bound + 2
    {
      assert RowOk(w.events[i], w.tallies[i], bound);
    }
  }

  /** What can never be undone about an event. */
  ghost predicate Extends(before: Event, after: Event) {
    && |before.attempts| <= |after.attempts|
    && (forall i :: 0 <= i < |before.attempts| ==>
         before.attempts[i].number == after.attempts[i].number
         && before.attempts[i].attemptedAt == after.attempts[i].attemptedAt
         && (!before.attempts[i].outcome.Started? ==> before.attempts[i] == after.attempts[i]))
    && (Terminal(before.state) ==> after == before)
    && (!before.state.Unassigned? ==> !after.state.Unassigned? && after.session == before.session)
    && after.device == before.device && after.key == before.key && after.epc == before.epc
  }

  lemma StartExtends(e: Event, expected: QueueState, max: int, now: int, bound: nat)
    requires LogInvariant(e, bound) && max <= bound
    ensures
      var r := StartEvent(e, expected, max, now);
      r.Ok? ==> Extends(e, r.value)
  {
    StartKeepsLog(e, expected, max, now, bound);
    var r := StartEvent(e, expected, max, now);
    if r.Ok? {
      forall j | 0 <= j < |e.attempts|
        ensures r.value.attempts[j] == e.attempts[j]
      {
        assert r.value.attempts[..|e.attempts|][j] == e.attempts[j];
      }
    }
  }

  lemma CompleteExtends(e: Event, number: nat, outcome: Outcome, now: int, initial: int, maximum: int, bound: nat)
    requires LogInvariant(e, bound)
    ensures
      var r := CompleteEvent(e, number, outcome, now, initial, maximum);
      r.Ok? ==> Extends(e, r.value)
  {
    CompleteKeepsLog(e, number, outcome, now, initial, maximum, bound);
    var r := CompleteEvent(e, number, outcome, now, initial, maximum);
    var n := |e.attempts|;
    if r.Ok? {
      forall j | 0 <= j < n - 1
        ensures r.value.attempts[j] == e.attempts[j]
      {
        assert r.value.attempts[..n - 1][j] == e.attempts[..n - 1][j];
      }
    }
  }

  lemma {:induction false} StepExtends(w: World, a: Action, bound: nat, i: nat)
    requires Safe(w, bound) && i < |w.events|
    ensures |w.events| <= |Step(w, a, bound).events|
    ensures Extends(w.events[i], Step(w, a, bound).events[i])
  {
    var e := w.events[i];
    assert RowOk(e, w.tallies[i], bound);
    match a
    case Begin(k, maxAttempts, now) =>
      hide StartEvent, LogInvariant;
      var worker := WorkerAt(w, k);
      if worker.Choosing? && worker.todo != [] && worker.todo[0].id == i && maxAttempts <= bound {
        StartExtends(e, worker.todo[0].state, maxAttempts, now, bound);
      }
    case Finish(k, now, initial, maximum) =>
      hide CompleteEvent, LogInvariant;
      var worker := WorkerAt(w, k);
      if worker.Replied? && worker.id == i {
        CompleteExtends(e, worker.number, worker.outcome, now, initial, maximum, bound);
      }
    case _ =>
      hide StartEvent, CompleteEvent, LogInvariant;
  }

  lemma ExtendsReflexive(a: Event)
    ensures Extends(a, a)
  {
  }

  lemma ExtendsTransitive(a: Event, b: Event, c: Event)
    requires Extends(a, b) && Extends(b, c)
    ensures Extends(a, c)
  {
  }

  lemma {:induction false} RunExtends(w: World, schedule: seq<Action>, bound: nat, i: nat)
    requires Safe(w, bound) && i < |w.events|
    ensures |w.events| <= |Run(w, schedule, bound).events|
    ensures Extends(w.events[i], Run(w, schedule, bound).events[i])
    decreases |schedule|
  {
    if schedule == [] {
      ExtendsReflexive(w.events[i]);
    } else {
      hide Step, Extends;
      var next := Step(w, schedule[0], bound);
      StepSafe(w, schedule[0], bound);
      StepExtends(w, schedule[0], bound, i);
      RunExtends(next, schedule[1..], bound, i);
      ExtendsTransitive(w.events[i], next.events[i], Run(w, schedule, bound).events[i]);
    }
  }

  lemma {:induction false} RunConcat(w: World, first: seq<Action>, second: seq<Action>, bound: nat)
    requires |w.tallies| == |w.events|
    ensures Run(w, first + second, bound) == Run(Run(w, first, bound), second, bound)
    decreases |first|
  {
    if first == [] {
      assert first + second == second;
    } else {
      assert (first + second)[1..] == first[1..] + second;
      RunConcat(Step(w, first[0], bound), first[1..], second, bound);
    }
  }

  /**
    Along every run a completed attempt is never completed again, and an event in
    a terminal state never changes.
   */
  lemma {:induction false} CompletedAttemptsAreFinal(first: seq<Action>, second: seq<Action>, bound: nat, i: nat)
    requires i < |Run(Start, first, bound).events|
    ensures |Run(Start, first, bound).events| <= |Run(Start, first + second, bound).events|
    ensures Extends(Run(Start, first, bound).events[i], Run(Start, first + second, bound).events[i])
  {
    RunSafe(Start, first, bound);
    RunConcat(Start, first, second, bound);
    RunExtends(Run(Start, first, bound), second, bound, i);
  }
}
