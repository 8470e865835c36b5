/**
  A delivery cycle is a schedule of the multi-worker model, so what holds of every
  schedule holds of repeated cycles too, whatever other workers did before
  (bridge_core/final_delivery_cycle.py:234-316).
 */
module CycleSchedules {
  import opened Wrappers
  import opened Store
  import opened QueuePolicy
  import opened DeliveryService
  import opened FinalDeliveryCycle
  import opened DeliveryProgress
  import opened DeliveryRuns

  /** Both sweeps over the first `n` rows. */
  function Sweeping(db: Db, s: Settings, n: nat): seq<Action>
    requires n <= |db.events|
  {
    if n == 0 then []
    else
      var e := db.events[n - 1];
      Sweeping(db, s, n - 1) + if AfterSweeps(db.sessions, e, s) != e then [Sweep(n - 1, e.state)] else []
  }

  predicate Within(ids: seq<nat>, n: nat) {
    forall i :: 0 <= i < |ids| ==> ids[i] < n
  }

  function Snapshots(events: seq<Event>, ids: seq<nat>): (todo: seq<Snapshot>)
    requires Within(ids, |events|)
    ensures |todo| == |ids|
  {
    if ids == [] then [] else [Snapshot(ids[0], events[ids[0]].state)] + Snapshots(events, ids[1..])
  }

  function Attempting(k: nat, reply: Reply, s: Settings): seq<Action> {
    [Begin(k, s.maxAttempts, reply.startedAt), Send(k, reply.outcome), Finish(k, reply.completedAt, s.retryInitial, s.retryMax)]
  }

  function Working(k: nat, ids: seq<nat>, s: Settings, round: Round): seq<Action> {
    if ids == [] then [] else Attempting(k, round.reply(ids[0]), s) + Working(k, ids[1..], s, round)
  }

  /** The cycle of worker `k`. */
  function Scheduled(k: nat, db: Db, s: Settings, round: Round): seq<Action>
    requires s.batchSize >= 1
  {
    var chosen := Chosen(db, s, round.now);
    Sweeping(db, s, |db.events|) + ([Select(k, Snapshots(Swept(db, s), chosen))] + Working(k, chosen, s, round))
  }

  function ScheduledAll(k: nat, db: Db, s: Settings, rounds: seq<Round>): seq<Action>
    requires s.batchSize >= 1
    decreases |rounds|
  {
    if rounds == [] then []
    else Scheduled(k, db, s, rounds[0]) + ScheduledAll(k, Cycle(db, s, rounds[0]), s, rounds[1..])
  }

  lemma OneStep(w: World, a: Action, bound: nat)
    requires |w.tallies| == |w.events|
    ensures Run(w, [a], bound) == Step(w, a, bound)
  {
    assert [a][1..] == [];
  }

  /** The sweep of one row, where there is anything to sweep. */
  lemma SweepRuns(w: World, db: Db, s: Settings, id: nat, bound: nat)
    requires |w.tallies| == |w.events| && id < |w.events| && id < |db.events| && w.events[id] == db.events[id]
    ensures
      var e, e' := db.events[id], AfterSweeps(db.sessions, db.events[id], s);
      var w' := Run(w, if e' != e then [Sweep(id, e.state)] else [], bound);
      w'.events == w.events[id := e'] && w'.workers == w.workers
  {
    hide IsFinalOf;
    var e, e' := db.events[id], AfterSweeps(db.sessions, db.events[id], s);
    if e' != e {
      OneStep(w, Sweep(id, e.state), bound);
    } else {
      assert w.events[id := e] == w.events;
    }
  }

  lemma {:induction false} SweepingRuns(w: World, db: Db, s: Settings, n: nat, bound: nat)
    requires |w.tallies| == |w.events| && w.events == db.events && n <= |db.events|
    ensures
      var w' := Run(w, Sweeping(db, s, n), bound);
      w'.events == Swept(db, s)[..n] + db.events[n..] && w'.workers == w.workers
  {
    hide AfterSweeps, Step, Run;
    if n == 0 {
      assert Swept(db, s)[..0] + db.events[0..] == db.events;
      NoSteps(w, bound);
    } else {
      var e, e' := db.events[n - 1], Swept(db, s)[n - 1];
      SweepingRuns(w, db, s, n - 1, bound);
      var before := Run(w, Sweeping(db, s, n - 1), bound);
      SweepRuns(before, db, s, n - 1, bound);
      RunConcat(w, Sweeping(db, s, n - 1), if e' != e then [Sweep(n - 1, e.state)] else [], bound);
      assert Swept(db, s)[..n] + db.events[n..] == before.events[n - 1 := e'];
    }
  }

  lemma NoSteps(w: World, bound: nat)
    requires |w.tallies| == |w.events|
    ensures Run(w, [], bound) == w
  {
  }

  /** Worker `k` with this selection in front of it. */
  predicate Faces(w: World, k: nat, ids: seq<nat>) {
    && |w.tallies| == |w.events| && Within(ids, |w.events|)
    && k in w.workers && w.workers[k] == Choosing(Snapshots(w.events, ids))
  }

  lemma ThreeSteps(w: World, a: Action, b: Action, c: Action, bound: nat)
    requires |w.tallies| == |w.events|
    ensures |Step(w, a, bound).tallies| == |Step(w, a, bound).events|
    ensures |Step(Step(w, a, bound), b, bound).tallies| == |Step(Step(w, a, bound), b, bound).events|
    ensures Run(w, [a, b, c], bound) == Step(Step(Step(w, a, bound), b, bound), c, bound)
  {
    hide Step, Run;
    OneStep(w, a, bound);
    var w1 := Run(w, [a], bound);
    OneStep(w1, b, bound);
    var w2 := Run(w1, [b], bound);
    OneStep(w2, c, bound);
    RunConcat(w1, [b], [c], bound);
    RunConcat(w, [a], [b, c], bound);
    assert [a] + [b, c] == [a, b, c] && [b] + [c] == [b, c];
  }

  lemma AttemptRuns(w: World, k: nat, ids: seq<nat>, s: Settings, reply: Reply, bound: nat)
    requires Faces(w, k, ids) && ids != [] && s.maxAttempts <= bound
    ensures
      var w' := Run(w, Attempting(k, reply, s), bound);
      && w'.events == w.events[ids[0] := Process(w.events[ids[0]], s, reply)]
      && Within(ids[1..], |w.events|)
      && w'.workers == w.workers[k := Choosing(Snapshots(w.events, ids[1..]))]
  {
    hide StartEvent, CompleteEvent, NextNumber;
    var id, rest := ids[0], Snapshots(w.events, ids[1..]);
    var e := w.events[id];
    var a := Attempting(k, reply, s);
    ThreeSteps(w, a[0], a[1], a[2], bound);
    var w1 := Step(w, a[0], bound);
    assert ([Snapshot(id, e.state)] + rest)[1..] == rest;
    if StartEvent(e, e.state, s.maxAttempts, reply.startedAt).Ok? {
      var started := StartEvent(e, e.state, s.maxAttempts, reply.startedAt).value;
      assert w1.workers == w.workers[k := Sending(id, NextNumber(e.attempts), rest)] && w1.events == w.events[id := started];
      var w2 := Step(w1, a[1], bound);
      assert w2.workers == w1.workers[k := Replied(id, NextNumber(e.attempts), reply.outcome, rest)] && w2.events == w1.events;
      assert w2.workers[k := Choosing(rest)] == w.workers[k := Choosing(rest)];
      var w3 := Step(w2, a[2], bound);
      assert w3.workers == w2.workers[k := Choosing(rest)];
      var done := CompleteEvent(started, NextNumber(e.attempts), reply.outcome, reply.completedAt, s.retryInitial, s.retryMax);
      if done.Ok? {
        assert w.events[id := started][id := done.value] == w.events[id := done.value];
      }
    } else {
      assert w1.workers == w.workers[k := Choosing(rest)];
      assert w.events[id := e] == w.events;
    }
  }

  lemma {:induction false} SameSnapshots(events: seq<Event>, other: seq<Event>, ids: seq<nat>)
    requires |events| == |other| && Within(ids, |events|)
    requires forall i :: 0 <= i < |ids| ==> events[ids[i]] == other[ids[i]]
    ensures Snapshots(events, ids) == Snapshots(other, ids)
  {
    if ids != [] {
      SameSnapshots(events, other, ids[1..]);
    }
  }

  lemma {:induction false} WorkingRuns(w: World, k: nat, ids: seq<nat>, s: Settings, round: Round, bound: nat)
    requires Faces(w, k, ids) && s.maxAttempts <= bound
    requires forall i, j :: 0 <= i < j < |ids| ==> ids[i] < ids[j]
    ensures
      var w' := Run(w, Working(k, ids, s, round), bound);
      && |w'.events| == |w.events|
      && (forall i :: 0 <= i < |w.events| ==>
           w'.events[i] == if i in ids then Process(w.events[i], s, round.reply(i)) else w.events[i])
      && w'.workers == w.workers[k := Choosing([])]
    decreases |ids|
  {
    hide Process, Step;
    if ids != [] {
      var reply := round.reply(ids[0]);
      AttemptRuns(w, k, ids, s, reply, bound);
      var next := Run(w, Attempting(k, reply, s), bound);
      SameSnapshots(w.events, next.events, ids[1..]);
      WorkingRuns(next, k, ids[1..], s, round, bound);
      RunConcat(w, Attempting(k, reply, s), Working(k, ids[1..], s, round), bound);
      forall i | 0 <= i < |w.events|
        ensures i in ids <==> i == ids[0] || i in ids[1..]
        ensures i in ids[1..] ==> next.events[i] == w.events[i]
      {
      }
    }
  }

  lemma SelectRuns(w: World, k: nat, todo: seq<Snapshot>, bound: nat)
    requires |w.tallies| == |w.events| && WorkerAt(w, k).Choosing?
    ensures
      var w' := Run(w, [Select(k, todo)], bound);
      w'.events == w.events && w'.workers == w.workers[k := Choosing(todo)]
  {
    OneStep(w, Select(k, todo), bound);
  }

  /** One undisturbed cycle, as a schedule of one worker. */
  lemma {:induction false} CycleIsSchedule(w: World, k: nat, db: Db, s: Settings, round: Round, bound: nat)
    requires |w.tallies| == |w.events| && w.events == db.events && WorkerAt(w, k).Choosing?
    requires s.batchSize >= 1 && s.maxAttempts <= bound
    ensures
      var w' := Run(w, Scheduled(k, db, s, round), bound);
      w'.events == Cycle(db, s, round).events && w'.workers == w.workers[k := Choosing([])]
  {
    hide Process, Eligible, AfterSweeps, Step, Run, Sweeping, Working, Snapshots;
    var n := |db.events|;
    var chosen := Chosen(db, s, round.now);
    var todo := Snapshots(Swept(db, s), chosen);
    SweepingRuns(w, db, s, n, bound);
    var swept := Run(w, Sweeping(db, s, n), bound);
    assert swept.events == Swept(db, s);
    SelectRuns(swept, k, todo, bound);
    var selected := Run(swept, [Select(k, todo)], bound);
    WorkingRuns(selected, k, chosen, s, round, bound);
    RunConcat(swept, [Select(k, todo)], Working(k, chosen, s, round), bound);
    RunConcat(w, Sweeping(db, s, n), [Select(k, todo)] + Working(k, chosen, s, round), bound);
    var w' := Run(w, Scheduled(k, db, s, round), bound);
    assert w' == Run(selected, Working(k, chosen, s, round), bound);
    assert w'.events == Cycle(db, s, round).events;
    assert w.workers[k := Choosing(todo)][k := Choosing([])] == w.workers[k := Choosing([])];
  }

  /** Any number of cycles in a row. */
  lemma {:induction false} CyclesAreSchedule(w: World, k: nat, db: Db, s: Settings, rounds: seq<Round>, bound: nat)
    requires |w.tallies| == |w.events| && w.events == db.events && WorkerAt(w, k).Choosing?
    requires s.batchSize >= 1 && s.maxAttempts <= bound
    ensures Run(w, ScheduledAll(k, db, s, rounds), bound).events == RunCycles(db, s, rounds).events
    decreases |rounds|
  {
    hide Step, Cycle, Scheduled;
    if rounds != [] {
      CycleIsSchedule(w, k, db, s, rounds[0], bound);
      var next := Run(w, Scheduled(k, db, s, rounds[0]), bound);
      CyclesAreSchedule(next, k, Cycle(db, s, rounds[0]), s, rounds[1..], bound);
      RunConcat(w, Scheduled(k, db, s, rounds[0]), ScheduledAll(k, Cycle(db, s, rounds[0]), s, rounds[1..]), bound);
    }
  }
}
