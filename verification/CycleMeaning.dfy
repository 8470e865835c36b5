/**
  What a delivery cycle does to an event, in terms of the event's session, queue
  state and attempts alone (bridge_core/final_delivery_cycle.py:28-316).
 */
module CycleMeaning {
  import opened Wrappers
  import opened Store
  import opened QueuePolicy
  import opened DeliveryService
  import opened FinalDeliveryCycle
  import opened DeliveryProgress

  /** A final event of the reader that belongs to a session. */
  predicate Ours(e: Event, reader: string) {
    e.device == reader && e.session.Some? && "final:" <= e.key
  }

  predicate SessionCancelled(sessions: map<string, Session>, e: Event) {
    e.session.Some? && e.session.value in sessions && sessions[e.session.value].status == Cancelled
  }

  /** Waiting for Odoo in a cancelled session, or for a retry with no attempt left. */
  predicate GivenUp(sessions: map<string, Session>, e: Event, s: Settings) {
    && Ours(e, s.reader)
    && (((e.state.Queued? || e.state.Retry?) && SessionCancelled(sessions, e))
        || (e.state.Retry? && |e.attempts| >= s.maxAttempts))
  }

  /** QUEUED, or in RETRY with the scheduled time of its last attempt come. */
  predicate Due(e: Event, now: int) {
    || e.state.Queued?
    || (e.state.Retry? && e.attempts != []
        && e.attempts[|e.attempts| - 1].nextRetryAt.Some? && e.attempts[|e.attempts| - 1].nextRetryAt.value <= now)
  }

  /** An event that a cycle may try to send. */
  predicate MayGo(sessions: map<string, Session>, e: Event, s: Settings, now: int) {
    Ours(e, s.reader) && Due(e, now) && !GivenUp(sessions, e, s)
  }

  /** The older ones among them. */
  ghost function Older(db: Db, s: Settings, now: int, i: nat): set<nat>
    requires i <= |db.events|
  {
    set j: nat | j < i && MayGo(db.sessions, db.events[j], s, now)
  }

  ghost predicate Logged(events: seq<Event>, bound: nat) {
    forall i :: 0 <= i < |events| ==> LogInvariant(events[i], bound)
  }

  // ---------------------------------------------------------------- selection

  lemma SweepIff(sessions: map<string, Session>, e: Event, s: Settings)
    ensures AfterSweeps(sessions, e, s) == if GivenUp(sessions, e, s) then e.(state := QueueState.Dead) else e
  {
  }

  lemma EligibleIff(sessions: map<string, Session>, e: Event, s: Settings, now: int, bound: nat)
    requires LogInvariant(e, bound)
    ensures Eligible(AfterSweeps(sessions, e, s), s.reader, now) <==> MayGo(sessions, e, s, now)
  {
    SweepIff(sessions, e, s);
    LatestIsLast(e.attempts, 1);
  }

  ghost function EligibleBetween(events: seq<Event>, reader: string, now: int, from: nat, to: nat): set<nat>
    requires to <= |events|
  {
    set j: nat | from <= j < to && Eligible(events[j], reader, now)
  }

  /** The first `limit` eligible positions: those with fewer than `limit` in front of them. */
  lemma {:induction false} CandidatesIff(events: seq<Event>, reader: string, now: int, limit: nat, from: nat, k: nat)
    requires from <= k < |events|
    ensures
      k in Candidates(events, reader, now, limit, from) <==>
      Eligible(events[k], reader, now) && |EligibleBetween(events, reader, now, from, k)| < limit
    decreases |events| - from
  {
    hide Eligible;
    if limit > 0 {
      var rest := EligibleBetween(events, reader, now, from + 1, k);
      if Eligible(events[from], reader, now) {
        if k > from {
          CandidatesIff(events, reader, now, limit - 1, from + 1, k);
          assert EligibleBetween(events, reader, now, from, k) == rest + {from};
        } else {
          assert EligibleBetween(events, reader, now, from, k) == {};
        }
      } else if k > from {
        CandidatesIff(events, reader, now, limit, from + 1, k);
        assert EligibleBetween(events, reader, now, from, k) == rest;
      }
    }
  }

  /** A cycle tries exactly the oldest `batchSize` events that may go. */
  lemma {:induction false} ChosenIff(db: Db, s: Settings, now: int, bound: nat, i: nat)
    requires s.batchSize >= 1 && Logged(db.events, bound) && i < |db.events|
    ensures
      i in Chosen(db, s, now) <==>
      MayGo(db.sessions, db.events[i], s, now) && |Older(db, s, now, i)| < s.batchSize
  {
    hide Eligible, AfterSweeps, MayGo, LogInvariant;
    var swept := Swept(db, s);
    CandidatesIff(swept, s.reader, now, s.batchSize, 0, i);
    forall j: nat | j <= i ensures Eligible(swept[j], s.reader, now) <==> MayGo(db.sessions, db.events[j], s, now) {
      EligibleIff(db.sessions, db.events[j], s, now, bound);
    }
    assert EligibleBetween(swept, s.reader, now, 0, i) == Older(db, s, now, i);
  }

  /** The selection is full: as many as may go, up to the batch size. */
  lemma {:induction false} ChosenIsFull(db: Db, s: Settings, now: int, bound: nat)
    requires s.batchSize >= 1 && Logged(db.events, bound)
    ensures
      var all := |Older(db, s, now, |db.events|)|;
      |Chosen(db, s, now)| == if all <= s.batchSize then all else s.batchSize
  {
    hide Eligible, AfterSweeps, MayGo, LogInvariant;
    var ids, all := Chosen(db, s, now), Older(db, s, now, |db.events|);
    DistinctSize(ids);
    forall i: nat | i in Elements(ids) ensures i in all {
      ChosenIff(db, s, now, bound, i);
    }
    SubsetSize(Elements(ids), all);
    if |ids| < s.batchSize {
      forall i: nat | i in all ensures i in Elements(ids) {
        ChosenIff(db, s, now, bound, i);
        if |Older(db, s, now, i)| >= s.batchSize {
          TooMany(db, s, now, bound, i);
        }
      }
      SubsetSize(all, Elements(ids));
    }
  }

  lemma {:induction false} SubsetSize(a: set<nat>, b: set<nat>)
    requires a <= b
    ensures |a| <= |b|
  {
    if a != {} {
      var x :| x in a;
      SubsetSize(a - {x}, b - {x});
    }
  }

  /** Everything in front of the first event left out has been chosen. */
  lemma {:induction false} TooMany(db: Db, s: Settings, now: int, bound: nat, i: nat)
    requires s.batchSize >= 1 && Logged(db.events, bound) && i < |db.events|
    requires |Older(db, s, now, i)| >= s.batchSize
    ensures |Chosen(db, s, now)| >= s.batchSize
    decreases i
  {
    hide Eligible, AfterSweeps, MayGo, LogInvariant;
    var older := Older(db, s, now, i);
    assert i == 0 ==> older == {};
    if |Older(db, s, now, i - 1)| >= s.batchSize {
      TooMany(db, s, now, bound, i - 1);
    } else {
      var ids := Chosen(db, s, now);
      forall j: nat | j in older ensures j in Elements(ids) {
        assert Older(db, s, now, j) <= Older(db, s, now, i - 1);
        SubsetSize(Older(db, s, now, j), Older(db, s, now, i - 1));
        ChosenIff(db, s, now, bound, j);
      }
      SubsetSize(older, Elements(ids));
      DistinctSize(ids);
    }
  }

  // ------------------------------------------------------------ what it does

  /** One more attempt, with this outcome, and the state that goes with it. */
  ghost predicate Tried(e: Event, e': Event, s: Settings, reply: Reply) {
    && |e'.attempts| == |e.attempts| + 1
    && (forall k :: 0 <= k < |e.attempts| ==> e'.attempts[k] == e.attempts[k])
    && e' == e.(state := e'.state, attempts := e'.attempts)
    && e'.attempts[|e.attempts|].attemptedAt == reply.startedAt
    && match reply.outcome
       case Sent => e'.state.Sent?
       case Rejected => e'.state.Rejected?
       case Dead => e'.state.Dead?
       case Retry => if ValidRetrySettings(s.retryInitial, s.retryMax) then e'.state.Retry? else e'.state.Inflight?
       case Started => e'.state.Inflight?
  }

  lemma {:induction false} ProcessMeans(e: Event, s: Settings, reply: Reply, bound: nat)
    requires LogInvariant(e, bound) && s.maxAttempts <= bound && (e.state.Queued? || e.state.Retry?)
    ensures
      if |e.attempts| < s.maxAttempts then Tried(e, Process(e, s, reply), s, reply)
      else Process(e, s, reply) == e
  {
    if |e.attempts| < s.maxAttempts {
      hide Process, LogInvariant;
      ProcessOnce(e, s, reply, bound);
    } else {
      hide LogInvariant, CompleteEvent;
      NextNumberIsLength(e, bound);
    }
  }

  /**
    One cycle, for one event. A given-up event becomes DEAD with its attempts
    unchanged; one of the oldest `batchSize` that may go and have an attempt left is
    tried once; every other event stays as it is.
   */
  lemma {:induction false} CycleMeans(db: Db, s: Settings, round: Round, bound: nat, i: nat)
    requires s.batchSize >= 1 && s.maxAttempts <= bound && Logged(db.events, bound) && i < |db.events|
    ensures
      var e, e' := db.events[i], Cycle(db, s, round).events[i];
      if GivenUp(db.sessions, e, s) then e' == e.(state := QueueState.Dead)
      else if MayGo(db.sessions, e, s, round.now) && |Older(db, s, round.now, i)| < s.batchSize && |e.attempts| < s.maxAttempts
      then Tried(e, e', s, round.reply(i))
      else e' == e
  {
    hide Process, Eligible, AfterSweeps, LogInvariant, Tried;
    var e := db.events[i];
    ChosenIff(db, s, round.now, bound, i);
    SweepIff(db.sessions, e, s);
    if i in Chosen(db, s, round.now) {
      ProcessMeans(e, s, round.reply(i), bound);
    }
  }

  /**
    An event turns DEAD in a cycle exactly if its session was CANCELLED while it
    waited, or it waited for a retry with no attempt left, or it was tried and the
    sender answered DEAD. In the first two cases it has not been tried.
   */
  lemma {:induction false} TurnsDeadIff(db: Db, s: Settings, round: Round, bound: nat, i: nat)
    requires s.batchSize >= 1 && s.maxAttempts <= bound && Logged(db.events, bound) && i < |db.events|
    requires !db.events[i].state.Dead?
    ensures
      var e, e' := db.events[i], Cycle(db, s, round).events[i];
      var cancelled := Ours(e, s.reader) && SessionCancelled(db.sessions, e) && (e.state.Queued? || e.state.Retry?);
      var exhausted := Ours(e, s.reader) && e.state.Retry? && |e.attempts| >= s.maxAttempts;
      && (e'.state.Dead? <==> cancelled || exhausted || (|e'.attempts| > |e.attempts| && round.reply(i).outcome.Dead?))
      && (cancelled || exhausted ==> e'.attempts == e.attempts)
  {
    hide Cycle, LogInvariant;
    CycleMeans(db, s, round, bound, i);
  }

  // ---------------------------------------------------- everything gets through

  /** The event is SENT, or waits with an attempt left in a session that is not cancelled. */
  ghost predicate Hopeful(sessions: map<string, Session>, e: Event, s: Settings) {
    || e.state.Sent?
    || ((e.state.Queued? || e.state.Retry?) && |e.attempts| < s.maxAttempts && !SessionCancelled(sessions, e))
  }

  lemma {:induction false} HopefulOverCycles(db: Db, s: Settings, rounds: seq<Round>, bound: nat, i: nat)
    requires s.batchSize >= 1 && s.maxAttempts <= bound && Logged(db.events, bound) && i < |db.events|
    requires Hopeful(db.sessions, db.events[i], s)
    requires forall k :: 0 <= k < |rounds| ==> rounds[k].reply(i).outcome.Sent?
    ensures |RunCycles(db, s, rounds).events| == |db.events|
    ensures RunCycles(db, s, rounds).sessions == db.sessions
    ensures Hopeful(db.sessions, RunCycles(db, s, rounds).events[i], s)
    ensures RunCycles(db, s, rounds).events[i] == db.events[i].(
      state := RunCycles(db, s, rounds).events[i].state, attempts := RunCycles(db, s, rounds).events[i].attempts)
    decreases |rounds|
  {
    if rounds != [] {
      var next := Cycle(db, s, rounds[0]);
      CycleMeans(db, s, rounds[0], bound, i);
      CycleLogged(db, s, rounds[0], bound);
      hide Cycle, LogInvariant;
      HopefulOverCycles(next, s, rounds[1..], bound, i);
    }
  }

  lemma CycleLogged(db: Db, s: Settings, round: Round, bound: nat)
    requires s.batchSize >= 1 && s.maxAttempts <= bound && Logged(db.events, bound)
    ensures Logged(Cycle(db, s, round).events, bound)
  {
    hide Process, Eligible, AfterSweeps, LogInvariant;
    forall i | 0 <= i < |db.events| ensures LogInvariant(Cycle(db, s, round).events[i], bound) {
      var e := db.events[i];
      SweepIff(db.sessions, e, s);
      ChosenIff(db, s, round.now, bound, i);
      DeadKeepsLog(e, bound);
      if i in Chosen(db, s, round.now) {
        ProcessKeepsLog(e, s, round.reply(i), bound);
      }
    }
  }

  lemma DeadKeepsLog(e: Event, bound: nat)
    requires LogInvariant(e, bound)
    ensures e.state.Queued? || e.state.Retry? ==> LogInvariant(e.(state := QueueState.Dead), bound)
  {
    if e.state.Queued? || e.state.Retry? {
      SweepKeepsLog(e, e.state, bound);
    }
  }

  lemma ProcessKeepsLog(e: Event, s: Settings, reply: Reply, bound: nat)
    requires LogInvariant(e, bound) && s.maxAttempts <= bound && (e.state.Queued? || e.state.Retry?)
    ensures LogInvariant(Process(e, s, reply), bound)
  {
    if |e.attempts| < s.maxAttempts {
      ProcessOnce(e, s, reply, bound);
    } else {
      hide LogInvariant;
      ProcessMeans(e, s, reply, bound);
    }
  }
}
