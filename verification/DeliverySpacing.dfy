/**
  When exactly attempts keep their back-off with any number of workers: the
  compare-and-set in start_delivery_attempt does not look at the scheduled time
  (bridge_core/delivery_service.py:44-68), so whoever starts an attempt must.
 */
module DeliverySpacing {
  import opened Wrappers
  import opened Store
  import opened QueuePolicy
  import opened DeliveryService
  import opened FinalDeliveryCycle
  import opened DeliveryProgress
  import opened DeliveryRuns

  /** The event's last attempt has a scheduled time, and it has come. */
  predicate Due(e: Event, now: int) {
    && e.attempts != []
    && e.attempts[|e.attempts| - 1].nextRetryAt.Some?
    && e.attempts[|e.attempts| - 1].nextRetryAt.value <= now
  }

  /** The gap between consecutive attempts is never less than the delay. */
  ghost predicate Spacing(e: Event, s: Settings)
    requires ValidRetrySettings(s.retryInitial, s.retryMax)
  {
    forall k :: 1 <= k < |e.attempts| ==> SpacedAt(e.attempts, k, s)
  }

  /** A waiting event's scheduled time is the completion time plus the delay. */
  ghost predicate Calculated(e: Event, s: Settings)
    requires ValidRetrySettings(s.retryInitial, s.retryMax)
  {
    e.state.Retry? ==>
      var n := |e.attempts|;
      n > 0 && e.attempts[n - 1].completedAt.Some?
      && e.attempts[n - 1].nextRetryAt == Some(e.attempts[n - 1].completedAt.value + DelayAfter(n, s))
  }

  // --------------------------------------------------------------- one attempt

  /**
    Starting an attempt keeps the spacing exactly if a waiting event is due, the
    guard that start_delivery_attempt does not have.
   */
  lemma {:induction false} StartKeepsSpacingIffDue(
    e: Event, s: Settings, expected: QueueState, max: int, now: int, bound: nat)
    requires LogInvariant(e, bound) && max <= bound
    requires ValidRetrySettings(s.retryInitial, s.retryMax) && OnSchedule(e, s)
    requires StartEvent(e, expected, max, now).Ok?
    ensures OnSchedule(StartEvent(e, expected, max, now).value, s) <==> (e.state.Retry? ==> Due(e, now))
  {
    StartKeepsLog(e, expected, max, now, bound);
    StartedAttempt(e, max, now, bound);
    LogInvariantMeans(e, bound);
    hide StartEvent, RetryDelay, LogInvariant;
    var n := |e.attempts|;
    var e' := StartEvent(e, expected, max, now).value;
    assert forall k :: 0 <= k < n ==> e'.attempts[k] == e'.attempts[..n][k] == e.attempts[k];
    forall k | 1 <= k < n ensures SpacedAt(e'.attempts, k, s) {
      assert SpacedAt(e.attempts, k, s);
    }
    if n > 0 {
      assert SpacedAt(e'.attempts, n, s) <==> Due(e, now);
    }
  }

  // -------------------------------------------------------------- whole schedules

  /** Whether this action, if it starts an attempt on waiting event `i`, does so when it is due. */
  predicate TimelyStep(w: World, a: Action, bound: nat, i: nat)
    requires i < |w.events|
  {
    match a
    case Begin(k, maxAttempts, now) => StartsRetry(w, k, maxAttempts, now, bound, i) ==> Due(w.events[i], now)
    case _ => true
  }

  /** The worker's next selection is event `i`, which waits for a retry, and the start succeeds. */
  predicate StartsRetry(w: World, k: nat, maxAttempts: int, now: int, bound: nat, i: nat)
    requires i < |w.events|
  {
    var worker := WorkerAt(w, k);
    && worker.Choosing? && worker.todo != [] && maxAttempts <= bound && worker.todo[0].id == i
    && w.events[i].state.Retry?
    && StartEvent(w.events[i], worker.todo[0].state, maxAttempts, now).Ok?
  }

  /** Every successful start on event `i` while it waited for a retry came when it was due. */
  predicate Timely(w: World, schedule: seq<Action>, bound: nat, i: nat)
    requires |w.tallies| == |w.events|
    decreases |schedule|
  {
    schedule == []
    || ((i < |w.events| ==> TimelyStep(w, schedule[0], bound, i))
        && Timely(Step(w, schedule[0], bound), schedule[1..], bound, i))
  }

  /** The workers complete attempts under the same retry settings. */
  ghost predicate SameSettings(schedule: seq<Action>, s: Settings) {
    forall k :: 0 <= k < |schedule| ==> StepSettings(schedule[k], s)
  }

  predicate StepSettings(a: Action, s: Settings) {
    a.Finish? ==> a.initial == s.retryInitial && a.maximum == s.retryMax
  }

  /** A gap that was too short stays in the log for good. */
  lemma BrokenStaysBroken(before: Event, after: Event, s: Settings, bound: nat)
    requires ValidRetrySettings(s.retryInitial, s.retryMax)
    requires LogInvariant(before, bound) && Extends(before, after) && !Spacing(before, s)
    ensures !Spacing(after, s)
  {
    var k :| 1 <= k < |before.attempts| && !SpacedAt(before.attempts, k, s);
    assert CompletedRetry(before.attempts[k - 1]);
    assert !SpacedAt(after.attempts, k, s);
  }

  lemma FinishKeepsSpacing(e: Event, s: Settings, number: nat, outcome: Outcome, now: int, bound: nat)
    requires LogInvariant(e, bound) && ValidRetrySettings(s.retryInitial, s.retryMax) && OnSchedule(e, s)
    ensures
      var r := CompleteEvent(e, number, outcome, now, s.retryInitial, s.retryMax);
      r.Ok? ==> OnSchedule(r.value, s)
  {
    CompleteKeepsLog(e, number, outcome, now, s.retryInitial, s.retryMax, bound);
    hide CompleteEvent, RetryDelay, LogInvariant;
    var r := CompleteEvent(e, number, outcome, now, s.retryInitial, s.retryMax);
    if r.Ok? {
      var n := |e.attempts|;
      assert forall k :: 0 <= k < n - 1 ==> r.value.attempts[k] == r.value.attempts[..n - 1][k] == e.attempts[k];
      forall k | 1 <= k < n ensures SpacedAt(r.value.attempts, k, s) {
        assert SpacedAt(e.attempts, k, s);
      }
      if r.value.state.Retry? {
        assert outcome.Retry?;
      }
    }
  }

  /** One action keeps an event on schedule exactly if it is timely for it. */
  lemma StepKeepsSpacingIffTimely(w: World, a: Action, bound: nat, i: nat, s: Settings)
    requires Safe(w, bound) && i < |w.events| && StepSettings(a, s)
    requires ValidRetrySettings(s.retryInitial, s.retryMax) && OnSchedule(w.events[i], s)
    ensures i < |Step(w, a, bound).events|
    ensures OnSchedule(Step(w, a, bound).events[i], s) <==> TimelyStep(w, a, bound, i)
  {
    hide LogInvariant, StartEvent, CompleteEvent, RetryDelay, OnSchedule;
    var e := w.events[i];
    assert RowOk(e, w.tallies[i], bound);
    match a
    case Begin(k, maxAttempts, now) =>
      var worker := WorkerAt(w, k);
      if worker.Choosing? && worker.todo != [] && maxAttempts <= bound && worker.todo[0].id == i {
        if StartEvent(e, worker.todo[0].state, maxAttempts, now).Ok? {
          StartKeepsSpacingIffDue(e, s, worker.todo[0].state, maxAttempts, now, bound);
        }
      }
    case Finish(k, now, _, _) =>
      var worker := WorkerAt(w, k);
      if worker.Replied? && worker.id == i {
        FinishKeepsSpacing(e, s, worker.number, worker.outcome, now, bound);
      }
    case Sweep(id, expected) => MovedKeepsSpacing(e, s, expected, QueueState.Dead);
    case Assign(id, session) => AssignedKeepsSpacing(e, s, session);
    case _ =>
  }

  lemma MovedKeepsSpacing(e: Event, s: Settings, expected: QueueState, target: QueueState)
    requires ValidRetrySettings(s.retryInitial, s.retryMax) && OnSchedule(e, s) && target.Dead?
    ensures
      var r := MoveEvent(e, expected, target);
      r.Ok? ==> OnSchedule(r.value, s)
  {
    hide RetryDelay;
  }

  lemma AssignedKeepsSpacing(e: Event, s: Settings, session: string)
    requires ValidRetrySettings(s.retryInitial, s.retryMax) && OnSchedule(e, s)
    ensures
      var r := MoveEvent(e, QueueState.Unassigned, QueueState.Queued);
      r.Ok? ==> OnSchedule(r.value.(session := Some(session)), s)
  {
    hide RetryDelay;
  }

  /** The scheduled time is always the calculated one, timely or not. */
  lemma StepCalculates(w: World, a: Action, bound: nat, i: nat, s: Settings)
    requires Safe(w, bound) && i < |w.events| && StepSettings(a, s)
    requires ValidRetrySettings(s.retryInitial, s.retryMax) && Calculated(w.events[i], s)
    ensures i < |Step(w, a, bound).events| && Calculated(Step(w, a, bound).events[i], s)
  {
    var e := w.events[i];
    assert RowOk(e, w.tallies[i], bound);
    match a
    case Begin(k, maxAttempts, now) =>
      hide LogInvariant, CompleteEvent, RetryDelay, NextNumber;
    case Finish(k, now, initial, maximum) =>
      hide LogInvariant, CompleteEvent, RetryDelay, StartEvent;
      var worker := WorkerAt(w, k);
      if worker.Replied? && worker.id == i {
        CompleteKeepsLog(e, worker.number, worker.outcome, now, initial, maximum, bound);
      }
    case _ =>
      hide LogInvariant, CompleteEvent, RetryDelay, StartEvent;
  }

  lemma AddedIsOnSchedule(w: World, a: Action, bound: nat, i: nat, s: Settings)
    requires Safe(w, bound) && i >= |w.events| && i < |Step(w, a, bound).events|
    requires ValidRetrySettings(s.retryInitial, s.retryMax)
    ensures OnSchedule(Step(w, a, bound).events[i], s)
  {
    hide LogInvariant, CompleteEvent, RetryDelay, StartEvent;
  }

  /**
    Over any schedule of any number of workers, an event that was on schedule is on
    schedule at the end exactly if every start on it while it waited was timely.
   */
  lemma {:induction false} SpacingIffTimely(w: World, schedule: seq<Action>, bound: nat, i: nat, s: Settings)
    requires Safe(w, bound) && SameSettings(schedule, s) && ValidRetrySettings(s.retryInitial, s.retryMax)
    requires i < |w.events| ==> OnSchedule(w.events[i], s)
    requires i < |Run(w, schedule, bound).events|
    ensures OnSchedule(Run(w, schedule, bound).events[i], s) <==> Timely(w, schedule, bound, i)
    decreases |schedule|
  {
    hide Step, OnSchedule, LogInvariant;
    if schedule != [] {
      var a := schedule[0];
      var next := Step(w, a, bound);
      StepSafe(w, a, bound);
      assert StepSettings(a, s);
      assert SameSettings(schedule[1..], s) by {
        forall k | 0 <= k < |schedule[1..]| ensures StepSettings(schedule[1..][k], s) {
          assert StepSettings(schedule[k + 1], s);
        }
      }
      if i < |w.events| {
        StepKeepsSpacingIffTimely(w, a, bound, i, s);
      } else if i < |next.events| {
        AddedIsOnSchedule(w, a, bound, i, s);
      }
      if i < |next.events| && !OnSchedule(next.events[i], s) {
        Untimely(w, a, schedule[1..], bound, i, s);
      } else {
        SpacingIffTimely(next, schedule[1..], bound, i, s);
      }
    }
  }

  /** After an untimely start the event is off schedule whatever follows. */
  lemma Untimely(w: World, a: Action, rest: seq<Action>, bound: nat, i: nat, s: Settings)
    requires Safe(w, bound) && i < |w.events| && StepSettings(a, s) && ValidRetrySettings(s.retryInitial, s.retryMax)
    requires OnSchedule(w.events[i], s) && i < |Step(w, a, bound).events| && !OnSchedule(Step(w, a, bound).events[i], s)
    ensures |Step(w, a, bound).events| <= |Run(Step(w, a, bound), rest, bound).events|
    ensures !OnSchedule(Run(Step(w, a, bound), rest, bound).events[i], s)
  {
    hide Step, LogInvariant, RetryDelay;
    var next := Step(w, a, bound);
    StepSafe(w, a, bound);
    StepCalculates(w, a, bound, i, s);
    assert RowOk(next.events[i], next.tallies[i], bound);
    RunExtends(next, rest, bound, i);
    BrokenStaysBroken(next.events[i], Run(next, rest, bound).events[i], s, bound);
  }

  /** The same for every schedule from the beginning. */
  lemma ScheduleKeptIffTimely(schedule: seq<Action>, bound: nat, i: nat, s: Settings)
    requires SameSettings(schedule, s) && ValidRetrySettings(s.retryInitial, s.retryMax)
    requires i < |Run(Start, schedule, bound).events|
    ensures OnSchedule(Run(Start, schedule, bound).events[i], s) <==> Timely(Start, schedule, bound, i)
  {
    SpacingIffTimely(Start, schedule, bound, i, s);
  }

  // ------------------------------------------- two workers, one of them stale

  const SETTINGS := Settings("door", 1, 5, 10, 100)

  const UNSENT := Event("door", "final:a:b", "E2", None, QueueState.Unassigned, [])

  /** An event whose first attempt ended at time 0 and is to be retried at 10. */
  const FIRST_TRY: seq<Action> :=
    [Add(UNSENT), Assign(0, "s1"), Select(1, [Snapshot(0, QueueState.Queued)]),
     Begin(1, 5, 0), Send(1, Outcome.Retry), Finish(1, 0, 10, 100)]

  /** At time 10 both workers select it; the second retries it and reschedules it for 31. */
  const SECOND_TRY: seq<Action> :=
    [Select(1, [Snapshot(0, QueueState.Retry)]), Select(2, [Snapshot(0, QueueState.Retry)]),
     Begin(2, 5, 10), Send(2, Outcome.Retry), Finish(2, 11, 10, 100)]

  /** The first acts on its selection at time 12. */
  const STALE_TRY: Action := Begin(1, 5, 12)

  const WAITING := UNSENT.(
    session := Some("s1"), state := QueueState.Retry,
    attempts := [Attempt(1, Outcome.Retry, 0, Some(0), Some(10))])

  const WAITING_AGAIN := WAITING.(
    attempts := WAITING.attempts + [Attempt(2, Outcome.Retry, 10, Some(11), Some(31))])

  const WAITS := Snapshot(0, QueueState.Retry)

  const ASSIGNED := World([UNSENT.(session := Some("s1"), state := QueueState.Queued)], map[], [Tally(0, 1)])

  const SENDING := World(
    [ASSIGNED.events[0].(state := QueueState.Inflight, attempts := [Attempt(1, Outcome.Started, 0, None, None)])],
    map[1 := Sending(0, 1, [])], [Tally(0, 2)])

  const RETRYING := World([WAITING], map[1 := Choosing([])], [Tally(1, 3)])

  const SELECTED := RETRYING.(workers := map[1 := Choosing([WAITS]), 2 := Choosing([WAITS])])

  const SENDING_AGAIN := World(
    [WAITING.(state := QueueState.Inflight, attempts := WAITING.attempts + [Attempt(2, Outcome.Started, 10, None, None)])],
    map[1 := Choosing([WAITS]), 2 := Sending(0, 2, [])], [Tally(1, 4)])

  const OVERTAKEN := World([WAITING_AGAIN], map[1 := Choosing([WAITS]), 2 := Choosing([])], [Tally(2, 5)])

  lemma RunPair(w: World, a: Action, b: Action, bound: nat)
    requires |w.tallies| == |w.events| && |Step(w, a, bound).tallies| == |Step(w, a, bound).events|
    requires |Step(Step(w, a, bound), b, bound).tallies| == |Step(Step(w, a, bound), b, bound).events|
    ensures Run(w, [a, b], bound) == Step(Step(w, a, bound), b, bound)
  {
    hide Step;
    var next := Step(w, a, bound);
    assert [a, b][1..] == [b];
    assert Run(next, [b], bound) == Run(Step(next, b, bound), [], bound);
  }

  lemma AssignedRun()
    ensures Run(Start, [Add(UNSENT), Assign(0, "s1")], 5) == ASSIGNED
  {
    RunPair(Start, Add(UNSENT), Assign(0, "s1"), 5);
  }

  lemma SendingRun()
    ensures Run(ASSIGNED, [Select(1, [Snapshot(0, QueueState.Queued)]), Begin(1, 5, 0)], 5) == SENDING
  {
    RunPair(ASSIGNED, Select(1, [Snapshot(0, QueueState.Queued)]), Begin(1, 5, 0), 5);
    assert ASSIGNED.events[0].attempts + SENDING.events[0].attempts == SENDING.events[0].attempts;
    assert StartEvent(ASSIGNED.events[0], QueueState.Queued, 5, 0) == Ok(SENDING.events[0]);
    var w := Step(ASSIGNED, Select(1, [Snapshot(0, QueueState.Queued)]), 5);
    assert w.workers[1] == Choosing([Snapshot(0, QueueState.Queued)]) && w.workers[1].todo[1..] == [];
    assert Step(w, Begin(1, 5, 0), 5).workers == SENDING.workers;
  }

  lemma TwoWorkersDelays(s: Settings)
    requires s.retryInitial == 10 && s.retryMax == 100
    ensures DelayAfter(1, s) == 10 && DelayAfter(2, s) == 20
  {
    assert Power2(1) == 2 * Power2(0);
  }

  lemma RetryingRun()
    ensures Run(SENDING, [Send(1, Outcome.Retry), Finish(1, 0, 10, 100)], 5) == RETRYING
  {
    TwoWorkersDelays(SETTINGS);
    RunPair(SENDING, Send(1, Outcome.Retry), Finish(1, 0, 10, 100), 5);
    assert CompleteEvent(SENDING.events[0], 1, Outcome.Retry, 0, 10, 100) == Ok(WAITING) by {
      assert RetryDelay(1, 10, 100) == Ok(10);
      assert SENDING.events[0].attempts[0 := WAITING.attempts[0]] == WAITING.attempts;
    }
    var w := Step(SENDING, Send(1, Outcome.Retry), 5);
    assert w.workers[1] == Replied(0, 1, Outcome.Retry, []);
    assert Step(w, Finish(1, 0, 10, 100), 5).workers == RETRYING.workers;
  }

  lemma SelectedRun()
    ensures Run(RETRYING, [Select(1, [WAITS]), Select(2, [WAITS])], 5) == SELECTED
  {
    RunPair(RETRYING, Select(1, [WAITS]), Select(2, [WAITS]), 5);
  }

  lemma SendingAgainRun()
    ensures Step(SELECTED, Begin(2, 5, 10), 5) == SENDING_AGAIN
  {
    LatestIsLast(WAITING.attempts, 1);
    assert StartEvent(WAITING, QueueState.Retry, 5, 10) == Ok(SENDING_AGAIN.events[0]);
    assert [WAITS][1..] == [];
    assert Step(SELECTED, Begin(2, 5, 10), 5).workers == SENDING_AGAIN.workers;
  }

  lemma OvertakenRun()
    ensures Run(SENDING_AGAIN, [Send(2, Outcome.Retry), Finish(2, 11, 10, 100)], 5) == OVERTAKEN
  {
    TwoWorkersDelays(SETTINGS);
    RunPair(SENDING_AGAIN, Send(2, Outcome.Retry), Finish(2, 11, 10, 100), 5);
    var e := SENDING_AGAIN.events[0];
    FindNumbered(e.attempts, 1, 2);
    assert CompleteEvent(e, 2, Outcome.Retry, 11, 10, 100) == Ok(WAITING_AGAIN) by {
      assert RetryDelay(2, 10, 100) == Ok(20);
      assert e.attempts[1 := WAITING_AGAIN.attempts[1]] == WAITING_AGAIN.attempts;
    }
    var w := Step(SENDING_AGAIN, Send(2, Outcome.Retry), 5);
    assert w.workers[2] == Replied(0, 2, Outcome.Retry, []);
    assert Step(w, Finish(2, 11, 10, 100), 5).workers == OVERTAKEN.workers;
  }

  /**
    A schedule of two workers in which each selected the event when it was due, and
    all retry settings agree; the stale start, and nothing else, breaks the spacing.
   */
  lemma TwoWorkersBreakSpacing()
    ensures
      var before := Run(Start, FIRST_TRY + SECOND_TRY, 5);
      var after := Run(Start, FIRST_TRY + SECOND_TRY + [STALE_TRY], 5);
      && Run(Start, FIRST_TRY, 5).events == [WAITING] && Eligible(WAITING, "door", 10)
      && SameSettings(FIRST_TRY + SECOND_TRY + [STALE_TRY], SETTINGS)
      && |before.events| == |after.events| == 1
      && OnSchedule(before.events[0], SETTINGS) && !OnSchedule(after.events[0], SETTINGS)
      && Timely(Start, FIRST_TRY + SECOND_TRY, 5, 0) && !Timely(Start, FIRST_TRY + SECOND_TRY + [STALE_TRY], 5, 0)
  {
    FirstTry();
    SecondTry();
    StaleTry();
    LatestIsLast(WAITING.attempts, 1);
    hide Step, StartEvent, RetryDelay, LogInvariant, OnSchedule, Timely;
    ScheduleKeptIffTimely(FIRST_TRY + SECOND_TRY, 5, 0, SETTINGS);
    ScheduleKeptIffTimely(FIRST_TRY + SECOND_TRY + [STALE_TRY], 5, 0, SETTINGS);
  }

  lemma FirstTry()
    ensures Run(Start, FIRST_TRY, 5) == RETRYING
  {
    hide Step;
    AssignedRun();
    SendingRun();
    RetryingRun();
    var a, b := [Add(UNSENT), Assign(0, "s1")], [Select(1, [Snapshot(0, QueueState.Queued)]), Begin(1, 5, 0)];
    var c := [Send(1, Outcome.Retry), Finish(1, 0, 10, 100)];
    RunConcat(Start, a + b, c, 5);
    RunConcat(Start, a, b, 5);
    assert FIRST_TRY == a + b + c;
  }

  lemma SecondTry()
    ensures Run(Start, FIRST_TRY + SECOND_TRY, 5) == OVERTAKEN
  {
    hide Step;
    FirstTry();
    SelectedRun();
    SendingAgainRun();
    OvertakenRun();
    var a, b := [Select(1, [WAITS]), Select(2, [WAITS])], [Begin(2, 5, 10)];
    var c := [Send(2, Outcome.Retry), Finish(2, 11, 10, 100)];
    assert Run(SELECTED, b, 5) == Step(SELECTED, Begin(2, 5, 10), 5);
    RunConcat(RETRYING, a + b, c, 5);
    RunConcat(RETRYING, a, b, 5);
    RunConcat(Start, FIRST_TRY, SECOND_TRY, 5);
    assert SECOND_TRY == a + b + c;
  }

  lemma StaleTry()
    ensures
      var after := Run(Start, FIRST_TRY + SECOND_TRY + [STALE_TRY], 5);
      && |after.events| == 1
      && OnSchedule(WAITING_AGAIN, SETTINGS) && !OnSchedule(after.events[0], SETTINGS)
  {
    SecondTry();
    TwoWorkersDelays(SETTINGS);
    RunConcat(Start, FIRST_TRY + SECOND_TRY, [STALE_TRY], 5);
    LatestIsLast(WAITING_AGAIN.attempts, 1);
    hide RetryDelay, Run;
    assert OnSchedule(WAITING_AGAIN, SETTINGS) by {
      assert SpacedAt(WAITING_AGAIN.attempts, 1, SETTINGS);
    }
    RunLast(OVERTAKEN, STALE_TRY, 5);
    assert StartEvent(WAITING_AGAIN, QueueState.Retry, 5, 12).Ok?;
    var e := Step(OVERTAKEN, STALE_TRY, 5).events[0];
    assert !SpacedAt(e.attempts, 2, SETTINGS);
  }

  lemma RunLast(w: World, a: Action, bound: nat)
    requires |w.tallies| == |w.events| && |Step(w, a, bound).tallies| == |Step(w, a, bound).events|
    ensures Run(w, [a], bound) == Step(w, a, bound)
  {
    hide Step;
    assert Run(Step(w, a, bound), [], bound) == Step(w, a, bound);
  }
}
