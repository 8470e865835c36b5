/**
  What repeated cycles of a single worker achieve: delivery terminates, and
  retries are spaced. (bridge_core/final_delivery_cycle.py:234-316)
 */
module DeliveryProgress {
  import opened Wrappers
  import opened Store
  import opened QueuePolicy
  import opened DeliveryService
  import opened FinalDeliveryCycle

  predicate Live(e: Event, reader: string) {
    IsFinalOf(e, reader) && !Terminal(e.state)
  }

  ghost predicate NoneLive(events: seq<Event>, reader: string) {
    forall i :: 0 <= i < |events| ==> !Live(events[i], reader)
  }

  predicate ValidSettings(s: Settings) {
    s.batchSize >= 1 && s.maxAttempts >= 1 && ValidRetrySettings(s.retryInitial, s.retryMax)
  }

  /** Attempts an unfinished event may still use. */
  function Remaining(e: Event, s: Settings): nat {
    if Live(e, s.reader) && |e.attempts| < s.maxAttempts then s.maxAttempts - |e.attempts| else 0
  }

  function Potential(events: seq<Event>, s: Settings): nat {
    if events == [] then 0 else Remaining(events[0], s) + Potential(events[1..], s)
  }

  function FinalCount(events: seq<Event>, reader: string): nat {
    if events == [] then 0 else (if IsFinalOf(events[0], reader) then 1 else 0) + FinalCount(events[1..], reader)
  }

  /** No worker holds the event, and if it waits for a retry, the retry is due. */
  ghost predicate ReadyEvent(e: Event, s: Settings, bound: nat, now: int) {
    IsFinalOf(e, s.reader) ==>
      && LogInvariant(e, bound)
      && !e.state.Inflight? && !e.state.Unassigned?
      && (e.state.Retry? ==> e.attempts[|e.attempts| - 1].nextRetryAt.value <= now)
  }

  ghost predicate Ready(events: seq<Event>, s: Settings, bound: nat, now: int) {
    forall i :: 0 <= i < |events| ==> ReadyEvent(events[i], s, bound, now)
  }

  /** The sender's outcomes are the four allowed ones. */
  ghost predicate RealOutcomes(round: Round) {
    forall i :: !round.reply(i).outcome.Started?
  }

  /** Clocks do not go back, and a round starts retryMax after the last completion. */
  ghost predicate SpacedBefore(round: Round, s: Settings, next: int) {
    round.now <= next && forall i :: round.reply(i).completedAt + s.retryMax <= next
  }

  function RunCycles(db: Db, s: Settings, rounds: seq<Round>): Db
    requires s.batchSize >= 1
    decreases |rounds|
  {
    if rounds == [] then db else RunCycles(Cycle(db, s, rounds[0]), s, rounds[1..])
  }

  // ----------------------------------------------------------- one event, once

  /** After the sweeps, a live event can take another attempt and is eligible. */
  lemma SweptLiveIsEligible(sessions: map<string, Session>, e: Event, s: Settings, bound: nat, now: int)
    requires ReadyEvent(e, s, bound, now)
    ensures
      var e' := AfterSweeps(sessions, e, s);
      && ReadyEvent(e', s, bound, now)
      && Remaining(e', s) <= Remaining(e, s)
      && (Live(e', s.reader) ==> e' == e)
      && (Live(e', s.reader) && s.maxAttempts >= 1 ==> |e.attempts| < s.maxAttempts && Eligible(e', s.reader, now))
  {
    var e' := AfterSweeps(sessions, e, s);
    if IsFinalOf(e, s.reader) {
      LatestIsLast(e.attempts, 1);
    }
  }

  /**
    Processing an eligible event uses exactly one attempt. It leaves the event
    INFLIGHT exactly when the sender asks for a retry the settings cannot schedule
    (or gives no real outcome).
   */
  lemma {:induction false} ProcessOnce(e: Event, s: Settings, reply: Reply, bound: nat)
    requires LogInvariant(e, bound) && s.maxAttempts <= bound
    requires (e.state.Queued? || e.state.Retry?) && |e.attempts| < s.maxAttempts
    ensures
      var e' := Process(e, s, reply);
      && LogInvariant(e', bound)
      && |e'.attempts| == |e.attempts| + 1
      && (forall k :: 0 <= k < |e.attempts| ==> e'.attempts[k] == e.attempts[k])
      && e'.attempts[|e.attempts|].attemptedAt == reply.startedAt
      && e' == e.(state := e'.state, attempts := e'.attempts)
      && (e'.state.Inflight? <==>
          reply.outcome.Started? || (reply.outcome.Retry? && !ValidRetrySettings(s.retryInitial, s.retryMax)))
      && (!e'.state.Inflight? ==> e'.state == TargetState(reply.outcome))
      && (e'.state.Retry? ==>
          && e'.attempts[|e.attempts|].completedAt == Some(reply.completedAt)
          && e'.attempts[|e.attempts|].nextRetryAt ==
             Some(reply.completedAt + RetryDelay(|e.attempts| + 1, s.retryInitial, s.retryMax).value))
  {
    hide StartEvent, CompleteEvent, LogInvariant;
    var n := |e.attempts|;
    NextNumberIsLength(e, bound);
    StartKeepsLog(e, e.state, s.maxAttempts, reply.startedAt, bound);
    var started := StartEvent(e, e.state, s.maxAttempts, reply.startedAt).value;
    StartedAttempt(e, s.maxAttempts, reply.startedAt, bound);
    CompleteKeepsLog(started, n + 1, reply.outcome, reply.completedAt, s.retryInitial, s.retryMax, bound);
    var r := CompleteEvent(started, n + 1, reply.outcome, reply.completedAt, s.retryInitial, s.retryMax);
    forall k | 0 <= k < n
      ensures started.attempts[k] == e.attempts[k]
      ensures r.Ok? ==> r.value.attempts[k] == e.attempts[k]
    {
      assert started.attempts[..n][k] == started.attempts[k];
      if r.Ok? {
        assert r.value.attempts[..n][k] == r.value.attempts[k];
      }
    }
  }

  lemma StartedAttempt(e: Event, max: int, now: int, bound: nat)
    requires LogInvariant(e, bound) && (e.state.Queued? || e.state.Retry?) && |e.attempts| < max
    ensures
      var r := StartEvent(e, e.state, max, now);
      r.Ok? && r.value.attempts == e.attempts + [Attempt(|e.attempts| + 1, Outcome.Started, now, None, None)]
  {
    NextNumberIsLength(e, bound);
  }

  lemma ProcessReady(e: Event, s: Settings, round: Round, id: nat, bound: nat, next: int)
    requires ValidSettings(s) && s.maxAttempts <= bound && RealOutcomes(round) && SpacedBefore(round, s, next)
    requires ReadyEvent(e, s, bound, round.now) && Eligible(e, s.reader, round.now) && |e.attempts| < s.maxAttempts
    ensures ReadyEvent(Process(e, s, round.reply(id)), s, bound, next)
    ensures Remaining(Process(e, s, round.reply(id)), s) < Remaining(e, s)
  {
    hide Process;
    ProcessOnce(e, s, round.reply(id), bound);
    RetryDelayShape(|e.attempts| + 1, s.retryInitial, s.retryMax);
  }

  // ---------------------------------------------------------------- one cycle

  lemma ChosenEligible(db: Db, s: Settings, now: int, i: nat)
    requires s.batchSize >= 1
    ensures i in Chosen(db, s, now) ==> i < |db.events| && Eligible(AfterSweeps(db.sessions, db.events[i], s), s.reader, now)
  {
    var chosen := Chosen(db, s, now);
    if i in chosen {
      var k :| 0 <= k < |chosen| && chosen[k] == i;
      assert Eligible(Swept(db, s)[chosen[k]], s.reader, now);
    }
  }

  lemma {:induction false} CycleEvent(db: Db, s: Settings, round: Round, bound: nat, next: int, i: nat)
    requires ValidSettings(s) && s.maxAttempts <= bound && RealOutcomes(round) && SpacedBefore(round, s, next)
    requires Ready(db.events, s, bound, round.now) && i < |db.events|
    ensures
      var e' := Cycle(db, s, round).events[i];
      && ReadyEvent(e', s, bound, next)
      && Remaining(e', s) <= Remaining(db.events[i], s)
      && (i in Chosen(db, s, round.now) ==> Remaining(e', s) < Remaining(db.events[i], s))
  {
    var e := db.events[i];
    assert ReadyEvent(e, s, bound, round.now);
    SweptLiveIsEligible(db.sessions, e, s, bound, round.now);
    var swept := AfterSweeps(db.sessions, e, s);
    var chosen := Chosen(db, s, round.now);
    if i in chosen {
      ChosenEligible(db, s, round.now, i);
      ProcessReady(swept, s, round, i, bound, next);
    }
  }

  lemma {:induction false} PotentialDrops(a: seq<Event>, b: seq<Event>, s: Settings, strict: bool, k: nat)
    requires |a| == |b|
    requires forall i :: 0 <= i < |a| ==> Remaining(b[i], s) <= Remaining(a[i], s)
    requires strict ==> k < |a| && Remaining(b[k], s) < Remaining(a[k], s)
    ensures Potential(b, s) <= Potential(a, s) - (if strict then 1 else 0)
  {
    if a != [] {
      PotentialDrops(a[1..], b[1..], s, strict && k > 0, if k > 0 then k - 1 else 0);
    }
  }

  /** A cycle finishes everything, or uses up at least one attempt. */
  lemma CycleProgress(db: Db, s: Settings, round: Round, bound: nat, next: int)
    requires ValidSettings(s) && s.maxAttempts <= bound && RealOutcomes(round) && SpacedBefore(round, s, next)
    requires Ready(db.events, s, bound, round.now)
    ensures
      var db' := Cycle(db, s, round);
      && Ready(db'.events, s, bound, next)
      && (NoneLive(db'.events, s.reader) || Potential(db'.events, s) < Potential(db.events, s))
  {
    var db' := Cycle(db, s, round);
    forall i | 0 <= i < |db.events|
      ensures ReadyEvent(db'.events[i], s, bound, next)
      ensures Remaining(db'.events[i], s) <= Remaining(db.events[i], s)
    {
      CycleEvent(db, s, round, bound, next, i);
    }
    var chosen := Chosen(db, s, round.now);
    if chosen != [] {
      CycleEvent(db, s, round, bound, next, chosen[0]);
      PotentialDrops(db.events, db'.events, s, true, chosen[0]);
    } else {
      forall i | 0 <= i < |db.events|
        ensures !Live(db'.events[i], s.reader)
      {
        assert ReadyEvent(db.events[i], s, bound, round.now);
        SweptLiveIsEligible(db.sessions, db.events[i], s, bound, round.now);
        assert !Eligible(Swept(db, s)[i], s.reader, round.now);
      }
    }
  }

  lemma FinishedStays(db: Db, s: Settings, round: Round)
    requires s.batchSize >= 1 && NoneLive(db.events, s.reader)
    ensures NoneLive(Cycle(db, s, round).events, s.reader)
  {
    var db' := Cycle(db, s, round);
    var chosen := Chosen(db, s, round.now);
    forall i | 0 <= i < |db.events|
      ensures !Live(db'.events[i], s.reader)
    {
      assert !Live(db.events[i], s.reader);
      if i in chosen {
        ChosenEligible(db, s, round.now, i);
      }
    }
  }

  // --------------------------------------------------------------- whole runs

  ghost predicate Spaced(rounds: seq<Round>, s: Settings) {
    && (forall k :: 0 <= k < |rounds| ==> RealOutcomes(rounds[k]))
    && (forall k :: 0 <= k < |rounds| - 1 ==> SpacedBefore(rounds[k], s, rounds[k + 1].now))
  }

  lemma {:induction false} FinishedStaysForever(db: Db, s: Settings, rounds: seq<Round>)
    requires s.batchSize >= 1 && NoneLive(db.events, s.reader)
    ensures NoneLive(RunCycles(db, s, rounds).events, s.reader)
    decreases |rounds|
  {
    if rounds != [] {
      FinishedStays(db, s, rounds[0]);
      FinishedStaysForever(Cycle(db, s, rounds[0]), s, rounds[1..]);
    }
  }

  lemma {:induction false} TerminatesWithin(db: Db, s: Settings, rounds: seq<Round>, bound: nat)
    requires ValidSettings(s) && s.maxAttempts <= bound && Spaced(rounds, s)
    requires rounds != [] && Ready(db.events, s, bound, rounds[0].now)
    requires |rounds| > Potential(db.events, s)
    ensures NoneLive(RunCycles(db, s, rounds).events, s.reader)
    decreases |rounds|
  {
    var db' := Cycle(db, s, rounds[0]);
    if |rounds| == 1 {
      assert Potential(db.events, s) == 0;
      LastCycle(db, s, rounds[0], bound);
      assert rounds[1..] == [];
    } else {
      assert rounds[1..][0] == rounds[1];
      CycleProgress(db, s, rounds[0], bound, rounds[1].now);
      if NoneLive(db'.events, s.reader) {
        FinishedStaysForever(db', s, rounds[1..]);
      } else {
        forall k | 0 <= k < |rounds[1..]| - 1
          ensures SpacedBefore(rounds[1..][k], s, rounds[1..][k + 1].now)
        {
          assert rounds[1..][k] == rounds[k + 1] && rounds[1..][k + 1] == rounds[k + 2];
        }
        TerminatesWithin(db', s, rounds[1..], bound);
      }
    }
  }

  /** With no attempts left to use, the sweeps finish every event. */
  lemma LastCycle(db: Db, s: Settings, round: Round, bound: nat)
    requires ValidSettings(s) && s.maxAttempts <= bound
    requires Ready(db.events, s, bound, round.now) && Potential(db.events, s) == 0
    ensures NoneLive(Cycle(db, s, round).events, s.reader)
  {
    var chosen := Chosen(db, s, round.now);
    forall i | 0 <= i < |db.events|
      ensures !Live(Cycle(db, s, round).events[i], s.reader)
    {
      assert ReadyEvent(db.events[i], s, bound, round.now);
      SweptLiveIsEligible(db.sessions, db.events[i], s, bound, round.now);
      RemainingAt(db.events, s, i);
      if i in chosen {
        ChosenEligible(db, s, round.now, i);
      }
    }
  }

  lemma {:induction false} RemainingAt(events: seq<Event>, s: Settings, i: nat)
    requires i < |events|
    ensures Remaining(events[i], s) <= Potential(events, s)
  {
    if i > 0 {
      RemainingAt(events[1..], s, i - 1);
    }
  }

  lemma {:induction false} PotentialBound(events: seq<Event>, s: Settings)
    requires s.maxAttempts >= 1
    ensures Potential(events, s) <= FinalCount(events, s.reader) * s.maxAttempts
  {
    if events != [] {
      PotentialBound(events[1..], s);
      var n := FinalCount(events[1..], s.reader);
      assert (1 + n) * s.maxAttempts == s.maxAttempts + n * s.maxAttempts;
    }
  }

  /**
    One worker, nothing in flight, due retries, rounds spaced by retryMax: after
    N * maxAttempts + 1 cycles all N final events of the reader are SENT, REJECTED
    or DEAD, whatever the sender answers and whatever the batch size.
   */
  lemma {:induction false} DeliveryTerminates(db: Db, s: Settings, rounds: seq<Round>, bound: nat)
    requires ValidSettings(s) && s.maxAttempts <= bound && Spaced(rounds, s)
    requires rounds != [] && Ready(db.events, s, bound, rounds[0].now)
    requires |rounds| > FinalCount(db.events, s.reader) * s.maxAttempts
    ensures
      forall i :: 0 <= i < |RunCycles(db, s, rounds).events| && IsFinalOf(RunCycles(db, s, rounds).events[i], s.reader) ==>
        Terminal(RunCycles(db, s, rounds).events[i].state)
  {
    PotentialBound(db.events, s);
    TerminatesWithin(db, s, rounds, bound);
    assert forall i :: 0 <= i < |RunCycles(db, s, rounds).events| ==> !Live(RunCycles(db, s, rounds).events[i], s.reader);
  }

  /** An event left INFLIGHT is never touched by any later cycle. */
  lemma {:induction false} InflightIsStranded(db: Db, s: Settings, rounds: seq<Round>, i: nat)
    requires s.batchSize >= 1 && i < |db.events| && db.events[i].state.Inflight?
    ensures |RunCycles(db, s, rounds).events| == |db.events|
    ensures RunCycles(db, s, rounds).events[i] == db.events[i]
    decreases |rounds|
  {
    if rounds != [] {
      var chosen := Chosen(db, s, rounds[0].now);
      if i in chosen {
        ChosenEligible(db, s, rounds[0].now, i);
      }
      InflightIsStranded(Cycle(db, s, rounds[0]), s, rounds[1..], i);
    }
  }

  // ---------------------------------------------------------- back-off spacing

  function DelayAfter(k: nat, s: Settings): int
    requires k >= 1 && ValidRetrySettings(s.retryInitial, s.retryMax)
  {
    RetryDelay(k, s.retryInitial, s.retryMax).value
  }

  /** Attempt k + 1 starts no earlier than its delay after attempt k completed. */
  ghost predicate SpacedAt(attempts: seq<Attempt>, k: nat, s: Settings)
    requires 1 <= k < |attempts| && ValidRetrySettings(s.retryInitial, s.retryMax)
  {
    attempts[k - 1].completedAt.Some? && attempts[k].attemptedAt >= attempts[k - 1].completedAt.value + DelayAfter(k, s)
  }

  ghost predicate OnSchedule(e: Event, s: Settings)
    requires ValidRetrySettings(s.retryInitial, s.retryMax)
  {
    && (forall k :: 1 <= k < |e.attempts| ==> SpacedAt(e.attempts, k, s))
    && (e.state.Retry? ==>
         var n := |e.attempts|;
         n > 0 && e.attempts[n - 1].completedAt.Some?
         && e.attempts[n - 1].nextRetryAt == Some(e.attempts[n - 1].completedAt.value + DelayAfter(n, s)))
  }

  ghost predicate OnScheduleAll(events: seq<Event>, s: Settings, bound: nat)
    requires ValidRetrySettings(s.retryInitial, s.retryMax)
  {
    forall i :: 0 <= i < |events| && IsFinalOf(events[i], s.reader) ==>
      LogInvariant(events[i], bound) && OnSchedule(events[i], s)
  }

  lemma ProcessOnSchedule(e: Event, s: Settings, reply: Reply, now: int, bound: nat)
    requires ValidSettings(s) && s.maxAttempts <= bound
    requires LogInvariant(e, bound) && OnSchedule(e, s)
    requires Eligible(e, s.reader, now) && now <= reply.startedAt
    ensures LogInvariant(Process(e, s, reply), bound) && OnSchedule(Process(e, s, reply), s)
    ensures IsFinalOf(Process(e, s, reply), s.reader)
  {
    LatestIsLast(e.attempts, 1);
    LogInvariantMeans(e, bound);
    hide LogInvariant;
    if |e.attempts| < s.maxAttempts {
      hide Process, RetryDelay;
      var e' := Process(e, s, reply);
      var n := |e.attempts|;
      ProcessOnce(e, s, reply, bound);
      forall k | 1 <= k < |e'.attempts|
        ensures SpacedAt(e'.attempts, k, s)
      {
        if k < n {
          assert SpacedAt(e.attempts, k, s);
        }
      }
    } else {
      NextNumberIsLength(e, bound);
      assert Process(e, s, reply) == e;
    }
  }

  lemma {:induction false} CycleOnSchedule(db: Db, s: Settings, round: Round, bound: nat)
    requires ValidSettings(s) && s.maxAttempts <= bound
    requires OnScheduleAll(db.events, s, bound) && forall i :: round.now <= round.reply(i).startedAt
    ensures OnScheduleAll(Cycle(db, s, round).events, s, bound)
  {
    hide LogInvariant, OnSchedule, Process;
    var db' := Cycle(db, s, round);
    var chosen := Chosen(db, s, round.now);
    forall i | 0 <= i < |db.events| && IsFinalOf(db'.events[i], s.reader)
      ensures LogInvariant(db'.events[i], bound) && OnSchedule(db'.events[i], s)
    {
      var swept := AfterSweeps(db.sessions, db.events[i], s);
      if i in chosen {
        ChosenEligible(db, s, round.now, i);
        SweptOnSchedule(db.sessions, db.events[i], s, bound);
        ProcessOnSchedule(swept, s, round.reply(i), round.now, bound);
      } else {
        SweptOnSchedule(db.sessions, db.events[i], s, bound);
      }
    }
  }

  lemma SweptOnSchedule(sessions: map<string, Session>, e: Event, s: Settings, bound: nat)
    requires ValidRetrySettings(s.retryInitial, s.retryMax)
    ensures
      var e' := AfterSweeps(sessions, e, s);
      && (IsFinalOf(e', s.reader) <==> IsFinalOf(e, s.reader))
      && (LogInvariant(e, bound) && OnSchedule(e, s) ==> LogInvariant(e', bound) && OnSchedule(e', s))
  {
  }

  /** With one worker, every retry of every event keeps its back-off. */
  lemma {:induction false} BackoffHolds(db: Db, s: Settings, rounds: seq<Round>, bound: nat)
    requires ValidSettings(s) && s.maxAttempts <= bound && OnScheduleAll(db.events, s, bound)
    requires forall k, i :: 0 <= k < |rounds| ==> rounds[k].now <= rounds[k].reply(i).startedAt
    ensures OnScheduleAll(RunCycles(db, s, rounds).events, s, bound)
    decreases |rounds|
  {
    if rounds != [] {
      hide OnScheduleAll;
      CycleOnSchedule(db, s, rounds[0], bound);
      BackoffHolds(Cycle(db, s, rounds[0]), s, rounds[1..], bound);
    }
  }
}
