/**
  Whether a STOP whose ACK waits behind the delivery barrier is acknowledged in
  the end: delivery cycles between redeliveries of the command, as actions of the
  whole worker (bridge_core/final_runtime_orchestrator.py:148-208,
  bridge_core/final_delivery_barrier.py:84-108).
 */
module StopLiveness {
  import opened Wrappers
  import opened Crc
  import opened ReaderProtocol
  import opened Store
  import opened QueuePolicy
  import opened DeliveryService
  import opened FinalDeliveryCycle
  import opened RuntimeState
  import opened SessionService
  import opened DeliveryBarrier
  import opened TagIngestion
  import opened IngestionUnion
  import opened StoreEvolution
  import opened ReaderExecutor
  import opened CaptureService
  import opened CaptureRefinement
  import opened ControlMachine
  import opened ControlInvariant
  import opened ControlOutcomes
  import opened FrameCustody
  import opened StopGuarantee
  import opened SessionContents
  import opened ControlTheorems
  import DeliveryProgress
  import CycleMeaning

  // ------------------------------------------------ a cycle as queue actions

  /** Both sweeps over the first `n` rows. */
  function Sweeping(db: Db, s: Settings, n: nat): seq<Action>
    requires n <= |db.events|
  {
    if n == 0 then []
    else Sweeping(db, s, n - 1) + SweepOf(n - 1, db.events[n - 1], AfterSweeps(db.sessions, db.events[n - 1], s))
  }

  function SweepOf(id: nat, before: Event, after: Event): seq<Action> {
    if after != before then [Queue(id, Move(before.state, QueueState.Dead))] else []
  }

  /** One processed event; when its attempt does not start there is nothing to complete. */
  function Attempting(id: nat, e: Event, s: Settings, reply: Reply): seq<Action> {
    if StartEvent(e, e.state, s.maxAttempts, reply.startedAt).Err? then []
    else
      [Queue(id, Begin(e.state, s.maxAttempts, reply.startedAt)),
       Queue(id, Complete(NextNumber(e.attempts), reply.outcome, reply.completedAt, s.retryInitial, s.retryMax))]
  }

  predicate Within(ids: seq<nat>, n: nat) {
    forall i :: 0 <= i < |ids| ==> ids[i] < n
  }

  function Working(events: seq<Event>, ids: seq<nat>, s: Settings, round: Round): seq<Action>
    requires Within(ids, |events|)
  {
    if ids == [] then []
    else Attempting(ids[0], events[ids[0]], s, round.reply(ids[0])) + Working(events, ids[1..], s, round)
  }

  function CycleActions(db: Db, s: Settings, round: Round): seq<Action>
    requires s.batchSize >= 1
  {
    Sweeping(db, s, |db.events|) + Working(Swept(db, s), Chosen(db, s, round.now), s, round)
  }

  function CyclesActions(db: Db, s: Settings, rounds: seq<Round>): seq<Action>
    requires s.batchSize >= 1
    decreases |rounds|
  {
    if rounds == [] then []
    else CycleActions(db, s, rounds[0]) + CyclesActions(Cycle(db, s, rounds[0]), s, rounds[1..])
  }

  function WithEvents(s: State, events: seq<Event>): State {
    s.(db := s.db.(events := events))
  }

  lemma SweepRuns(g: Gateway, s: State, id: nat, e: Event, sessions: map<string, Session>, settings: Settings)
    requires id < |s.db.events| && s.db.events[id] == e
    ensures
      var e' := AfterSweeps(sessions, e, settings);
      Run(g, s, SweepOf(id, e, e')) == WithEvents(s, s.db.events[id := e'])
  {
    hide IsFinalOf;
    var e' := AfterSweeps(sessions, e, settings);
    if e' != e {
      RunOne(g, s, Queue(id, Move(e.state, QueueState.Dead)));
    } else {
      assert s.db.events[id := e] == s.db.events;
    }
  }

  lemma {:induction false} SweepingRuns(g: Gateway, s: State, settings: Settings, n: nat)
    requires n <= |s.db.events|
    ensures Run(g, s, Sweeping(s.db, settings, n)) == WithEvents(s, Swept(s.db, settings)[..n] + s.db.events[n..])
  {
    hide AfterSweeps, Step, Run, SweepOf;
    var db := s.db;
    if n == 0 {
      assert Swept(db, settings)[..0] + db.events[0..] == db.events;
      RunNothing(g, s);
    } else {
      var e' := Swept(db, settings)[n - 1];
      SweepingRuns(g, s, settings, n - 1);
      var before := Run(g, s, Sweeping(db, settings, n - 1));
      SweepRuns(g, before, n - 1, db.events[n - 1], db.sessions, settings);
      RunConcat(g, s, Sweeping(db, settings, n - 1), SweepOf(n - 1, db.events[n - 1], e'));
      assert Swept(db, settings)[..n] + db.events[n..] == before.db.events[n - 1 := e'];
    }
  }

  lemma RunNothing(g: Gateway, s: State)
    ensures Run(g, s, []) == s
  {
  }

  lemma AttemptRuns(g: Gateway, s: State, id: nat, settings: Settings, reply: Reply)
    requires id < |s.db.events|
    ensures
      var e := s.db.events[id];
      Run(g, s, Attempting(id, e, settings, reply)) == WithEvents(s, s.db.events[id := Process(e, settings, reply)])
  {
    hide StartEvent, CompleteEvent, NextNumber, ControlStep, ThreadStep, OtherDb, ReceiveStep, InterruptStep;
    var e := s.db.events[id];
    var started := StartEvent(e, e.state, settings.maxAttempts, reply.startedAt);
    if started.Ok? {
      var a := Attempting(id, e, settings, reply);
      RunTwo(g, s, a[0], a[1]);
      assert forall x: Event {:trigger s.db.events[id := x]} :: s.db.events[id := started.value][id := x] == s.db.events[id := x];
    } else {
      assert s.db.events[id := e] == s.db.events;
    }
  }

  lemma {:induction false} WorkingSame(events: seq<Event>, other: seq<Event>, ids: seq<nat>, settings: Settings, round: Round)
    requires |events| == |other| && Within(ids, |events|)
    requires forall i :: 0 <= i < |ids| ==> events[ids[i]] == other[ids[i]]
    ensures Working(events, ids, settings, round) == Working(other, ids, settings, round)
  {
    if ids != [] {
      WorkingSame(events, other, ids[1..], settings, round);
    }
  }

  lemma {:induction false} WorkingRuns(g: Gateway, s: State, ids: seq<nat>, settings: Settings, round: Round)
    requires Within(ids, |s.db.events|) && forall i, j :: 0 <= i < j < |ids| ==> ids[i] < ids[j]
    ensures
      var s' := Run(g, s, Working(s.db.events, ids, settings, round));
      && s' == WithEvents(s, s'.db.events) && |s'.db.events| == |s.db.events|
      && forall i :: 0 <= i < |s.db.events| ==>
           s'.db.events[i] == if i in ids then Process(s.db.events[i], settings, round.reply(i)) else s.db.events[i]
    decreases |ids|
  {
    hide Process, Step, Run, Attempting;
    if ids == [] {
      RunNothing(g, s);
    } else {
      var id, rest := ids[0], ids[1..];
      var first := Attempting(id, s.db.events[id], settings, round.reply(id));
      AttemptRuns(g, s, id, settings, round.reply(id));
      var next := Run(g, s, first);
      WorkingSame(s.db.events, next.db.events, rest, settings, round);
      WorkingRuns(g, next, rest, settings, round);
      RunConcat(g, s, first, Working(s.db.events, rest, settings, round));
      forall i | 0 <= i < |s.db.events|
        ensures i in ids <==> i == id || i in rest
        ensures i in rest ==> next.db.events[i] == s.db.events[i]
      {
      }
    }
  }

  /** One undisturbed delivery cycle is a run of the whole worker. */
  lemma {:induction false} CycleIsRun(g: Gateway, s: State, settings: Settings, round: Round)
    requires settings.batchSize >= 1
    ensures Run(g, s, CycleActions(s.db, settings, round)) == s.(db := Cycle(s.db, settings, round))
  {
    hide Process, Eligible, AfterSweeps, Step, Run, Sweeping, Working;
    var n := |s.db.events|;
    var chosen := Chosen(s.db, settings, round.now);
    var sweeping := Sweeping(s.db, settings, n);
    SweepingRuns(g, s, settings, n);
    var swept := Run(g, s, sweeping);
    assert swept.db.events == Swept(s.db, settings);
    WorkingRuns(g, swept, chosen, settings, round);
    RunConcat(g, s, sweeping, Working(Swept(s.db, settings), chosen, settings, round));
    var s' := Run(g, s, CycleActions(s.db, settings, round));
    assert forall i :: 0 <= i < n ==> s'.db.events[i] == Cycle(s.db, settings, round).events[i];
    assert s'.db.events == Cycle(s.db, settings, round).events;
  }

  lemma {:induction false} CyclesAreRun(g: Gateway, s: State, settings: Settings, rounds: seq<Round>)
    requires settings.batchSize >= 1
    ensures Run(g, s, CyclesActions(s.db, settings, rounds)) == s.(db := DeliveryProgress.RunCycles(s.db, settings, rounds))
    decreases |rounds|
  {
    hide Step, Cycle, CycleActions;
    if rounds != [] {
      CycleIsRun(g, s, settings, rounds[0]);
      var next := s.(db := Cycle(s.db, settings, rounds[0]));
      CyclesAreRun(g, next, settings, rounds[1..]);
      RunConcat(g, s, CycleActions(s.db, settings, rounds[0]), CyclesActions(next.db, settings, rounds[1..]));
    }
  }

  // ---------------------------------------------------------------- the barrier

  /** Redelivery of a command, and the two steps it takes to answer a completed STOP. */
  function Redelivery(c: Command): seq<Action> {
    [Receive(c), Control(OK), Control(OK)]
  }

  /** Some final event of the session on the reader was given up. */
  ghost predicate Stuck(events: seq<Event>, key: string, reader: string) {
    exists i :: 0 <= i < |events| && InSession(events[i], key, reader) && (events[i].state.Rejected? || events[i].state.Dead?)
  }

  /** A redelivered STOP is acknowledged exactly if all its session's final events are SENT. */
  lemma RedeliveredStop(g: Gateway, s: State, c: Command)
    requires s.pc.Ready? && c.kind.Stop? && WellFormed(c) && PlanCommand(s.rt, c) == Ok(Duplicate)
    ensures
      Run(g, s, Redelivery(c)) ==
      if AllSent(s.db.events, c.sessionKey, c.readerCode) then s.(acks := s.acks + [c]) else s
  {
    hide AllSent, PlanCommand;
    OtherReaderRefused(s.rt, c);
    var received := s.(pc := Barrier(c));
    assert Step(g, s, Receive(c)) == received;
    RunOne(g, s, Receive(c));
    RunTwo(g, received, Control(OK), Control(OK));
    RunConcat(g, s, [Receive(c)], [Control(OK), Control(OK)]);
    assert [Receive(c)] + [Control(OK), Control(OK)] == Redelivery(c);
  }

  /**
    Liveness of the barrier: after the cycles that delivery needs to finish, a
    redelivered STOP is acknowledged exactly if no final event of its session was
    given up.
   */
  lemma {:induction false} StopAckedIffNothingStuck(
    g: Gateway, s: State, c: Command, settings: Settings, rounds: seq<Round>, bound: nat)
    requires s.pc.Ready? && c.kind.Stop? && WellFormed(c) && PlanCommand(s.rt, c) == Ok(Duplicate)
    requires settings.reader == c.readerCode
    requires DeliveryProgress.ValidSettings(settings) && settings.maxAttempts <= bound
    requires rounds != [] && DeliveryProgress.Spaced(rounds, settings)
    requires DeliveryProgress.Ready(s.db.events, settings, bound, rounds[0].now)
    requires |rounds| > DeliveryProgress.FinalCount(s.db.events, settings.reader) * settings.maxAttempts
    ensures
      var delivered := s.(db := DeliveryProgress.RunCycles(s.db, settings, rounds));
      var answered := Run(g, s, CyclesActions(s.db, settings, rounds) + Redelivery(c));
      if Stuck(delivered.db.events, c.sessionKey, c.readerCode) then answered == delivered
      else answered == delivered.(acks := s.acks + [c])
  {
    hide PlanCommand, Run, CyclesActions, Redelivery, Stuck, AllSent;
    hide DeliveryProgress.RunCycles, DeliveryProgress.Spaced, DeliveryProgress.Ready;
    DeliveryProgress.DeliveryTerminates(s.db, settings, rounds, bound);
    CyclesAreRun(g, s, settings, rounds);
    var delivered := s.(db := DeliveryProgress.RunCycles(s.db, settings, rounds));
    RunConcat(g, s, CyclesActions(s.db, settings, rounds), Redelivery(c));
    RedeliveredStop(g, delivered, c);
    TerminalIsSentOrStuck(delivered.db.events, c.sessionKey, c.readerCode);
  }

  /**
    Without trouble: the session is not cancelled, each of its final events is SENT
    or waits with an attempt left, and the sender delivers. Then the cycles that
    delivery needs let the STOP be acknowledged.
   */
  lemma {:induction false} StopAckedWhenDelivered(
    g: Gateway, s: State, c: Command, settings: Settings, rounds: seq<Round>, bound: nat)
    requires s.pc.Ready? && c.kind.Stop? && WellFormed(c) && PlanCommand(s.rt, c) == Ok(Duplicate)
    requires settings.reader == c.readerCode
    requires DeliveryProgress.ValidSettings(settings) && settings.maxAttempts <= bound
    requires rounds != [] && DeliveryProgress.Spaced(rounds, settings)
    requires DeliveryProgress.Ready(s.db.events, settings, bound, rounds[0].now) && CycleMeaning.Logged(s.db.events, bound)
    requires |rounds| > DeliveryProgress.FinalCount(s.db.events, settings.reader) * settings.maxAttempts
    requires c.sessionKey in s.db.sessions ==> s.db.sessions[c.sessionKey].status != Cancelled
    requires forall i :: 0 <= i < |s.db.events| && InSession(s.db.events[i], c.sessionKey, c.readerCode) ==>
               && (s.db.events[i].state.Sent?
                   || ((s.db.events[i].state.Queued? || s.db.events[i].state.Retry?)
                       && |s.db.events[i].attempts| < settings.maxAttempts))
               && forall k :: 0 <= k < |rounds| ==> rounds[k].reply(i).outcome.Sent?
    ensures
      var delivered := s.(db := DeliveryProgress.RunCycles(s.db, settings, rounds));
      Run(g, s, CyclesActions(s.db, settings, rounds) + Redelivery(c)) == delivered.(acks := s.acks + [c])
  {
    hide PlanCommand, Run, CyclesActions, Redelivery;
    hide DeliveryProgress.RunCycles, DeliveryProgress.Spaced, DeliveryProgress.Ready, CycleMeaning.Logged;
    StopAckedIffNothingStuck(g, s, c, settings, rounds, bound);
    var events := DeliveryProgress.RunCycles(s.db, settings, rounds).events;
    SameLength(s.db, settings, rounds);
    forall i | 0 <= i < |events| && InSession(events[i], c.sessionKey, c.readerCode)
      ensures !events[i].state.Rejected? && !events[i].state.Dead?
    {
      StaysHopeful(s.db, settings, rounds, bound, c, i);
    }
  }

  lemma {:induction false} SameLength(db: Db, settings: Settings, rounds: seq<Round>)
    requires settings.batchSize >= 1
    ensures |DeliveryProgress.RunCycles(db, settings, rounds).events| == |db.events|
    decreases |rounds|
  {
    if rounds != [] {
      SameLength(Cycle(db, settings, rounds[0]), settings, rounds[1..]);
    }
  }

  lemma StaysHopeful(db: Db, settings: Settings, rounds: seq<Round>, bound: nat, c: Command, i: nat)
    requires settings.batchSize >= 1 && settings.maxAttempts <= bound && CycleMeaning.Logged(db.events, bound)
    requires c.sessionKey in db.sessions ==> db.sessions[c.sessionKey].status != Cancelled
    requires forall i :: 0 <= i < |db.events| && InSession(db.events[i], c.sessionKey, c.readerCode) ==>
               && (db.events[i].state.Sent?
                   || ((db.events[i].state.Queued? || db.events[i].state.Retry?)
                       && |db.events[i].attempts| < settings.maxAttempts))
               && forall k :: 0 <= k < |rounds| ==> rounds[k].reply(i).outcome.Sent?
    requires |DeliveryProgress.RunCycles(db, settings, rounds).events| == |db.events| && i < |db.events|
    requires InSession(DeliveryProgress.RunCycles(db, settings, rounds).events[i], c.sessionKey, c.readerCode)
    ensures !DeliveryProgress.RunCycles(db, settings, rounds).events[i].state.Rejected?
    ensures !DeliveryProgress.RunCycles(db, settings, rounds).events[i].state.Dead?
  {
    hide DeliveryProgress.RunCycles, CycleMeaning.Logged;
    SameEvent(db, settings, rounds, i);
    assert InSession(db.events[i], c.sessionKey, c.readerCode);
    CycleMeaning.HopefulOverCycles(db, settings, rounds, bound, i);
  }

  /** Cycles change the state and the attempts of an event and nothing else. */
  lemma {:induction false} SameEvent(db: Db, settings: Settings, rounds: seq<Round>, i: nat)
    requires settings.batchSize >= 1 && i < |db.events|
    requires |DeliveryProgress.RunCycles(db, settings, rounds).events| == |db.events|
    ensures
      var e := DeliveryProgress.RunCycles(db, settings, rounds).events[i];
      db.events[i] == e.(state := db.events[i].state, attempts := db.events[i].attempts)
    decreases |rounds|
  {
    if rounds != [] {
      hide Process, AfterSweeps;
      ProcessSame(db.events[i], settings, rounds[0].reply(i));
      ProcessSame(AfterSweeps(db.sessions, db.events[i], settings), settings, rounds[0].reply(i));
      SweepSame(db.sessions, db.events[i], settings);
      SameEvent(Cycle(db, settings, rounds[0]), settings, rounds[1..], i);
    }
  }

  lemma ProcessSame(e: Event, settings: Settings, reply: Reply)
    ensures
      var e' := Process(e, settings, reply);
      e' == e.(state := e'.state, attempts := e'.attempts)
  {
    hide RetryDelay, Find, Latest;
  }

  lemma SweepSame(sessions: map<string, Session>, e: Event, settings: Settings)
    ensures
      var e' := AfterSweeps(sessions, e, settings);
      e' == e.(state := e'.state)
  {
  }

  lemma {:induction false} TerminalIsSentOrStuck(events: seq<Event>, key: string, reader: string)
    requires forall i :: 0 <= i < |events| && IsFinalOf(events[i], reader) ==> Terminal(events[i].state)
    ensures AllSent(events, key, reader) <==> !Stuck(events, key, reader)
  {
    if !Stuck(events, key, reader) {
      forall i | 0 <= i < |events| && InSession(events[i], key, reader) ensures events[i].state.Sent? {
        assert IsFinalOf(events[i], reader);
      }
    }
  }

  /** An event that a worker left INFLIGHT keeps the STOP waiting over any number of cycles. */
  lemma {:induction false} InflightBlocksStop(
    g: Gateway, s: State, c: Command, settings: Settings, rounds: seq<Round>, i: nat)
    requires s.pc.Ready? && c.kind.Stop? && WellFormed(c) && PlanCommand(s.rt, c) == Ok(Duplicate)
    requires settings.batchSize >= 1
    requires i < |s.db.events| && InSession(s.db.events[i], c.sessionKey, c.readerCode) && s.db.events[i].state.Inflight?
    ensures Run(g, s, CyclesActions(s.db, settings, rounds) + Redelivery(c)).acks == s.acks
  {
    hide PlanCommand, Run, CyclesActions, Redelivery;
    DeliveryProgress.InflightIsStranded(s.db, settings, rounds, i);
    CyclesAreRun(g, s, settings, rounds);
    RunConcat(g, s, CyclesActions(s.db, settings, rounds), Redelivery(c));
    RedeliveredStop(g, s.(db := DeliveryProgress.RunCycles(s.db, settings, rounds)), c);
  }

  lemma {:induction false} StuckForever(g: Gateway, s: State, q: seq<Action>, key: string)
    requires Inv(g, s) && Stuck(s.db.events, key, g.reader.code)
    ensures Inv(g, Run(g, s, q)) && Stuck(Run(g, s, q).db.events, key, g.reader.code)
    decreases |q|
  {
    hide Inv, Step;
    if q != [] {
      var next := Step(g, s, q[0]);
      StepInv(g, s, q[0]);
      var i :| 0 <= i < |s.db.events| && InSession(s.db.events[i], key, g.reader.code)
               && (s.db.events[i].state.Rejected? || s.db.events[i].state.Dead?);
      assert Later(s.db.events[i], next.db.events[i]);
      assert InSession(next.db.events[i], key, g.reader.code);
      StuckForever(g, next, q[1..], key);
    }
  }

  /**
    Once a final event of the session is REJECTED or DEAD, no STOP for it is ever
    acknowledged as a success, in any interleaving, and none has been.
   */
  lemma {:induction false} StuckIsNeverAcked(g: Gateway, db: Db, p: seq<Action>, q: seq<Action>, c: Command)
    requires StoreOk(g.digest, db)
    requires c.kind.Stop? && Stuck(After(g, db, p).db.events, c.sessionKey, g.reader.code)
    ensures c !in Run(g, After(g, db, p), q).acks
  {
    hide Core, StoreOk, Kept, StoredRows, Clean, Contents, Run, Stuck;
    Reachable(g, db, p);
    StuckForever(g, After(g, db, p), q, c.sessionKey);
    var events := Run(g, After(g, db, p), q).db.events;
    if c in Run(g, After(g, db, p), q).acks {
      SentIsNotStuck(events, c.sessionKey, g.reader.code);
    }
  }

  lemma SentIsNotStuck(events: seq<Event>, key: string, reader: string)
    requires AllSent(events, key, reader)
    ensures !Stuck(events, key, reader)
  {
  }
}
