/**
  The worker process around the orchestrator: startup gate, control cycle and
  shutdown (bridge_core/management/commands/run_final_rfid_worker.py,
  bridge_core/final_worker_cycle.py:168-232).
 */
module FinalWorker {
  import opened Wrappers
  import opened Crc
  import opened ReaderProtocol
  import opened Store
  import opened RuntimeState
  import opened SessionService
  import opened DeliveryBarrier
  import opened TagIngestion
  import opened IngestionUnion
  import opened StoreEvolution
  import opened ReaderExecutor
  import opened CaptureService
  import opened CaptureRefinement
  import opened ControlMachine
  import opened ControlInvariant
  import opened ControlTheorems
  import opened RuntimeOrchestrator

  // ------------------------------------------- what the machine's steps come to

  lemma BootEnds(g: Gateway, s: State, link: Link, receptions: seq<Reception>, fail: Option<string>)
    requires Core(g, s) && s.pc.Down?
    ensures
      var s1 := Step(g, s, Boot);
      var s2 := ControlStep(g, s1, Choice(None, link, []));
      var s3 := if link.Up? then ControlStep(g, s2, Choice(None, Up, receptions)) else s2;
      var verified := link.Up? && AwaitVerify(g.reader, receptions).Ok?;
      var s4 := if verified then ControlStep(g, s3, Choice(fail, Up, [])) else s3;
      && s4.db == s.db
      && if verified && fail.None? && !HasActive(s.db.sessions, g.reader.code)
         then s4.pc.Ready? && s4.exec == s.exec && s4.cap == s.cap && s4.rt == Fresh(g.reader.code, Idle, None, 0, None)
         else s4.pc.Down?
  {
    hide AwaitVerify, HasActive;
  }

  /** Shutdown without a connection: stop capturing, whatever comes of it, and end. */
  lemma IdleShutdownEnds(g: Gateway, s: State, ch: Choice)
    requires s.pc == Join(Shutdown(None))
    ensures
      var s' := ControlStep(g, s, ch);
      s'.db == s.db && if s.cap.thread.Alive? && ch.fail.None? then s' == s.(cap := s.cap.(stop := true)) else s'.pc.Down?
  {
  }

  /** Any failure inside the shutdown of a running reader ends the process. */
  lemma ShutdownFails(g: Gateway, s: State, k: Option<string>, why: string)
    ensures
      var s' := HaltFailed(g, s, Shutdown(k), why);
      s'.pc.Down? && s'.db == s.db
  {
  }

  lemma ShutdownDrains(g: Gateway, s: State, key: string, ch: Choice)
    requires s.pc == Drain(Shutdown(Some(key)))
    ensures
      var s' := ControlStep(g, s, ch);
      s'.pc.Down? && s'.db == DrainPending(g, s, key, ch.fail).0.db && s'.quiet == s.quiet
  {
    hide IngestOr;
  }

  lemma DrainIsQuiet(g: Gateway, s: State)
    requires Core(g, s) && s.pc.Drain?
    ensures s.quiet
  {
  }

  lemma InterruptEnds(g: Gateway, s: State)
    requires s.pc.Ready?
    ensures Step(g, s, Interrupt) == s.(pc := Join(Shutdown(if Running(s.exec) then s.exec.key else None)))
  {
  }

  /** The capture thread, if there is one, ends in time. */
  predicate Joins(c: Capture, timeout: Option<string>) {
    c.thread.NoThread? || c.thread.Ended? || (c.thread.Alive? && timeout.None?)
  }

  class FinalRfidWorker {
    const o: FinalRuntimeOrchestrator

    constructor (o: FinalRuntimeOrchestrator)
      ensures this.o == o
    {
      this.o := o;
    }

    /**
      Startup: the reader must answer STOP and no ACTIVE row may be left on it;
      otherwise the worker does not start. A stale session is never resumed.
     */
    method Startup(link: Link, receptions: seq<Reception>, fail: Option<string>) returns (started: bool)
      requires o.Valid() && o.Now().pc.Down?
      modifies o`trace, o`runtime
      ensures started <==>
                link.Up? && AwaitVerify(o.g.reader, receptions).Ok? && fail.None?
                && !HasActive(o.database.sessions, o.g.reader.code)
      ensures started ==> o.Valid() && o.Now().pc.Ready? && o.runtime == Fresh(o.g.reader.code, Idle, None, 0, None)
      ensures !started ==> o.Wired() && o.Now().pc.Down? && o.Now().db == o.database.View()
    {
      hide Received, ControlStep, Run, Step, After, StoreOk, AwaitVerify, HasActive, AtPc;
      o.NowCore();
      BootEnds(o.g, o.Now(), link, receptions, fail);
      DownIsInactive(o.g, o.Now());
      o.Take(Boot);
      o.Advance(Choice(None, link, []));
      var verified, sent := o.executor.VerifyIdle(link, receptions);
      if !link.Up? {
        return false;
      }
      o.Advance(Choice(None, Up, receptions));
      if verified.Err? {
        return false;
      }
      o.Advance(Choice(fail, Up, []));
      if fail.Some? || HasActive(o.database.sessions, o.g.reader.code) {
        return false;
      }
      o.runtime := Fresh(o.g.reader.code, Idle, None, 0, None);
      return true;
    }

    /**
      One control cycle. Err: an exception left the cycle, either out of a handler
      or from the health check, the heartbeat or a malformed payload.
     */
    method RunOnce(heartbeat: Option<string>, payloads: seq<Payload>, fx: seq<Effects>) returns (r: Result<seq<bool>>)
      requires o.Valid() && o.Now().pc.Ready? && |fx| == |payloads|
      modifies o`trace, o`received, o`runtime, o.executor, o.capture, o.database
      ensures o.Valid()
      ensures r.Ok? ==>
        && o.Now().pc.Ready? && Healthy(o.capture.View())
        && o.runtime.state in {Idle, Reading, RunState.Degraded}
        && o.received == old(o.received) + CommandsFor(payloads, o.g.reader.code)
        && |r.value| == |CommandsFor(payloads, o.g.reader.code)|
      ensures r.Err? ==> o.Now().pc.Ready? || (o.Now().pc.Join? && o.Now().pc.t.Shutdown?)
      ensures r.Ok? <==>
        && old(o.capture.error).None? && heartbeat.None?
        && (forall p <- payloads :: FromPayload(p).Ok?) && o.Now().pc.Ready?
        && o.capture.error.None?
    {
      hide Received, ControlStep, Run, Step, After, StoreOk, AtPc;
      if o.capture.error.Some? {
        return Err("RFID capture failed.");
      }
      if heartbeat.Some? {
        return Err(heartbeat.value);
      }
      var results;
      ghost var taken;
      results, taken := o.PollCommands(payloads, fx);
      if results.Err? {
        return Err(results.message);
      }
      assert payloads[..taken] == payloads;
      if o.capture.error.Some? {
        return Err("RFID capture failed.");
      }
      return results;
    }

    /** An exception, SIGTERM among them, leaves the loop between commands. */
    ghost method LeaveLoop()
      requires o.Valid() && (o.Now().pc.Ready? || (o.Now().pc.Join? && o.Now().pc.t.Shutdown?))
      modifies o`trace
      ensures o.Valid() && o.Now().pc.Join? && o.Now().pc.t.Shutdown?
    {
      hide Received, ControlStep, Run, Step, After, StoreOk, AtPc;
      if o.Now().pc.Ready? {
        InterruptEnds(o.g, o.Now());
        o.Take(Interrupt);
      }
    }

    /**
      _safe_shutdown_reader. Ok(true): the running reader has confirmed STOP and
      its last frames have been stored; Ok(false): no connection was active; Err:
      the reader is not known to have stopped, or frames could not be stored. The
      process then ends, and the session row stays as it is for recovery.
     */
    method SafeShutdownReader(fx: Effects) returns (r: Result<bool>)
      requires o.Valid() && o.Now().pc.Join? && o.Now().pc.t.Shutdown?
      modifies o`trace, o.executor, o.capture, o.database
      ensures o.Wired() && o.Now().pc.Down? && o.Now().db == o.database.View()
      ensures r.Ok? ==> r.value == old(o.executor.IsActive())
      ensures r.Ok? && r.value ==> o.Now().quiet
      ensures !old(o.executor.IsActive()) ==> (r.Ok? <==> Joins(old(o.capture.View()), fx.join))
      ensures old(o.executor.IsActive()) ==>
        var key := old(o.executor.key).value;
        (r.Ok? <==> Stops(o.g, old(o.View()), key, STOP_REQUEST, fx) && Storable(o.g, old(o.View()), key, STOP_REQUEST, fx))
      ensures o.database.sessions == old(o.database.sessions)
    {
      hide Received, ControlStep, Run, Step, After, StoreOk, AtPc, HaltFailed, Stops, Storable;
      o.NowCore();
      ShutdownKey(o.g, o.Now());
      var active := o.executor.IsActive();
      if !active {
        r := IdleShutdown(fx);
        return;
      }
      r := RunningShutdown(o.executor.key.value, fx);
    }

    method IdleShutdown(fx: Effects) returns (r: Result<bool>)
      requires o.Valid() && o.Now().pc == Join(Shutdown(None))
      modifies o`trace, o.executor, o.capture, o.database
      ensures o.Wired() && o.Now().pc.Down? && o.Now().db == o.database.View()
      ensures r.Ok? ==> !r.value
      ensures r.Ok? <==> Joins(old(o.capture.View()), fx.join)
      ensures o.database.sessions == old(o.database.sessions)
    {
      hide Received, ControlStep, Run, Step, After, StoreOk, AtPc, HaltFailed;
      if fx.join.None? && o.capture.thread.Alive? {
        o.ThreadEndsLoop(Shutdown(None), fx.passes);
      }
      IdleShutdownEnds(o.g, o.Now(), Choice(fx.join, Up, []));
      o.Advance(Choice(fx.join, Up, []));
      var stopped := o.capture.Stop(fx.join);
      if stopped.Err? {
        return Err(stopped.message);
      }
      o.executor.Close();
      return Ok(false);
    }

    method RunningShutdown(key: string, fx: Effects) returns (r: Result<bool>)
      requires o.Valid() && o.Now().pc == Join(Shutdown(Some(key)))
      modifies o`trace, o.executor, o.capture, o.database
      ensures o.Wired() && o.Now().pc.Down? && o.Now().db == o.database.View()
      ensures r.Ok? <==> Stops(o.g, old(o.View()), key, STOP_REQUEST, fx) && Storable(o.g, old(o.View()), key, STOP_REQUEST, fx)
      ensures r.Ok? ==> r.value && o.Now().quiet
      ensures o.database.sessions == old(o.database.sessions)
    {
      hide Received, ControlStep, Run, Step, After, UniqueKeys, KeyedRows, OneActive, AtPc, HaltFailed, IngestOr, CaptureStops, Accepted, TagsHeard, Joined, Ingest;
      ghost var t := Shutdown(Some(key));
      ghost var at;
      var step;
      step, at := o.CaptureStopped(t, key, fx.passes, fx.join);
      if step.Err? {
        ShutdownFails(o.g, at, Some(key), step.message);
        return Err(step.message);
      }
      step, at := o.ReaderStopped(t, key, fx.stopLink, fx.stopReply);
      if step.Err? {
        ShutdownFails(o.g, at, Some(key), step.message);
        return Err(step.message);
      }
      o.NowCore();
      DrainIsQuiet(o.g, o.Now());
      IngestOrIff(o.database.View(), o.g.digest, o.g.reader, key, o.executor.pending, fx.drain);
      ShutdownDrains(o.g, o.Now(), key, Choice(fx.drain, Up, []));
      o.Advance(Choice(fx.drain, Up, []));
      var frames := o.executor.TakePendingTagFrames();
      if frames != [] {
        var drained := o.capture.Hand(o.database, o.g.digest, key, frames, fx.drain);
        if drained.Err? {
          return Err(drained.message);
        }
      }
      return Ok(true);
    }
  }

  lemma ShutdownKey(g: Gateway, s: State)
    requires Core(g, s) && s.pc.Join? && s.pc.t.Shutdown?
    ensures s.pc.t.k == if Running(s.exec) then s.exec.key else None
  {
  }

  lemma DownIsInactive(g: Gateway, s: State)
    requires Core(g, s) && s.pc.Down?
    ensures !Running(s.exec)
  {
  }
}
