/**
  The capture loop as FinalCaptureService runs it is what the capture thread of
  the transition system does: each pass is a few of its steps.
 */
module CaptureRefinement {
  import opened Wrappers
  import opened Crc
  import opened ReaderProtocol
  import opened Store
  import opened TagIngestion
  import opened ReaderExecutor
  import opened CaptureService
  import opened ControlMachine

  const OK := Choice(None, Up, [])

  function Hears(pass: Pass): Action {
    Thread(Choice(None, Up, [pass.reception]))
  }

  function Ingests(pass: Pass): Action {
    Thread(Choice(pass.failure, Up, []))
  }

  /** The thread's steps in one pass. */
  function PassActions(g: Gateway, e: Executor, pass: Pass): seq<Action> {
    if e.pending != [] then [Thread(OK), Thread(OK)] + [Ingests(pass)]
    else if !Running(e) then [Thread(OK), Thread(OK)] + []
    else
      match Poll(e, g.reader, pass.reception).1
      case Err(_) => [Thread(OK), Thread(OK)] + [Hears(pass)]
      case Ok(frames) =>
        if frames == [] then [Thread(OK), Thread(OK)] + [Hears(pass)]
        else [Thread(OK), Thread(OK)] + [Hears(pass), Ingests(pass)]
  }

  /** The machine's record of the calls of the ingestor. */
  function HandAll(calls: seq<Handover>): seq<Handed> {
    if calls == [] then []
    else
      var last := calls[|calls| - 1];
      HandAll(calls[..|calls| - 1]) + Hand(last.frames, last.key, last.stored)
  }

  /** What the thread's passes change, and what they may not. */
  ghost predicate Reflects(s: State, s': State, p: Progress) {
    && s' == s.(exec := p.exec, db := p.db, cap := s'.cap, captured := s'.captured, handed := s'.handed)
    && s'.cap == if p.error.Some? then s.cap.(thread := Ended, stop := true, error := p.error) else s.cap
  }

  predicate AtTop(s: State, key: string) {
    s.cap.thread == Alive(Top) && !s.cap.stop && s.cap.key == Some(key)
  }

  lemma TwoSteps(g: Gateway, s: State, key: string)
    requires AtTop(s, key)
    ensures
      Run(g, s, [Thread(OK), Thread(OK)]) ==
      if s.exec.pending != [] then s.(exec := s.exec.(pending := []), cap := s.cap.(thread := Alive(Holding(s.exec.pending))))
      else if Running(s.exec) then s.(cap := s.cap.(thread := Alive(Listening)))
      else s
  {
    hide ControlStep, ListenStep, IngestOr, ReceiveStep;
    RunTwo(g, s, Thread(OK), Thread(OK));
    assert Step(g, s, Thread(OK)) == s.(cap := s.cap.(thread := Alive(Polling)));
  }

  lemma IngestStep(g: Gateway, s: State, key: string, frames: seq<Frame>, pass: Pass)
    requires s.cap.thread == Alive(Holding(frames)) && frames != [] && s.cap.key == Some(key)
    ensures
      var (db, r) := IngestOr(s.db, g.digest, g.reader, key, frames, pass.failure);
      Run(g, s, [Ingests(pass)]) ==
      s.(db := db, handed := s.handed + Hand(frames, key, r.Ok?),
         cap := if r.Ok? then s.cap.(thread := Alive(Top)) else s.cap.(thread := Ended, stop := true, error := Some(StoreFault(r.message))))
  {
    hide ControlStep, ListenStep, IngestOr, ReceiveStep;
    RunOne(g, s, Ingests(pass));
  }

  lemma HearStep(g: Gateway, s: State, key: string, pass: Pass)
    requires s.cap.thread == Alive(Listening) && Running(s.exec) && s.exec.pending == []
    ensures
      var (exec, r) := Poll(s.exec, g.reader, pass.reception);
      var s' := Run(g, s, [Hears(pass)]);
      && s' == s.(exec := exec, cap := s'.cap, captured := s'.captured)
      && s'.cap == match r
                   case Err(m) => s.cap.(thread := Ended, stop := true, error := Some(ReceiveFault(m)))
                   case Ok(frames) => s.cap.(thread := if frames == [] then Alive(Top) else Alive(Holding(frames)))
  {
    hide ControlStep, OnFrames, IngestOr, ReceiveStep;
    RunOne(g, s, Hears(pass));
  }

  /** The frames of the last call, if the pass made one. */
  function NewHands(p: Progress, p': Progress): seq<Handed> {
    if |p'.calls| <= |p.calls| then []
    else
      var last := p'.calls[|p'.calls| - 1];
      Hand(last.frames, last.key, last.stored)
  }

  /** One pass of the loop is that pass of the thread. */
  lemma PassRefines(g: Gateway, s: State, key: string, p: Progress, pass: Pass)
    requires AtTop(s, key) && s.exec == p.exec && s.db == p.db && p.error.None?
    ensures
      var p' := Once(p, g.digest, g.reader, key, pass);
      var s' := Run(g, s, PassActions(g, s.exec, pass));
      Reflects(s, s', p') && s'.handed == s.handed + NewHands(p, p')
  {
    hide Step, Run, OnFrames, IngestOr, Incoming;
    TwoSteps(g, s, key);
    var t := Run(g, s, [Thread(OK), Thread(OK)]);
    var polled := Poll(s.exec, g.reader, pass.reception).1;
    if s.exec.pending != [] {
      IngestStep(g, t, key, s.exec.pending, pass);
      RunConcat(g, s, [Thread(OK), Thread(OK)], [Ingests(pass)]);
    } else if Running(s.exec) {
      HearStep(g, t, key, pass);
      if polled.Ok? && polled.value != [] {
        var u := Run(g, t, [Hears(pass)]);
        IngestStep(g, u, key, polled.value, pass);
        RunConcat(g, t, [Hears(pass)], [Ingests(pass)]);
        assert [Hears(pass)] + [Ingests(pass)] == [Hears(pass), Ingests(pass)];
        RunConcat(g, s, [Thread(OK), Thread(OK)], [Hears(pass), Ingests(pass)]);
      } else {
        RunConcat(g, s, [Thread(OK), Thread(OK)], [Hears(pass)]);
      }
    } else {
      assert [Thread(OK), Thread(OK)] + [] == [Thread(OK), Thread(OK)];
    }
  }

  lemma HandsAdd(g: Gateway, p: Progress, key: string, pass: Pass, earlier: seq<Handed>)
    ensures
      var p' := Once(p, g.digest, g.reader, key, pass);
      earlier + HandAll(p.calls) + NewHands(p, p') == earlier + HandAll(p'.calls)
  {
    hide Poll, IngestOr, Incoming;
    var p' := Once(p, g.digest, g.reader, key, pass);
    if |p'.calls| > |p.calls| {
      assert p'.calls[..|p.calls|] == p.calls;
    }
  }

  ghost function LoopActions(g: Gateway, p: Progress, key: string, passes: seq<Pass>): seq<Action>
    decreases |passes|
  {
    if p.error.Some? || passes == [] || passes[0].stop then []
    else PassActions(g, p.exec, passes[0]) + LoopActions(g, Once(p, g.digest, g.reader, key, passes[0]), key, passes[1..])
  }

  /**
    Running the loop from its top is a run of the machine's capture thread: the
    same executor, database and error, and the same frames handed to the ingestor.
   */
  lemma {:induction false} LoopRefines(
    g: Gateway, s: State, key: string, p: Progress, passes: seq<Pass>, earlier: seq<Handed>)
    requires AtTop(s, key) && s.exec == p.exec && s.db == p.db && p.error.None?
    requires s.handed == earlier + HandAll(p.calls)
    ensures
      var p' := Loop(p, g.digest, g.reader, key, passes);
      var s' := Run(g, s, LoopActions(g, p, key, passes));
      Reflects(s, s', p') && s'.handed == earlier + HandAll(p'.calls)
    decreases |passes|
  {
    hide Once, PassActions, Step, HandAll, NewHands;
    if passes != [] && !passes[0].stop {
      var next := Once(p, g.digest, g.reader, key, passes[0]);
      var t := Run(g, s, PassActions(g, p.exec, passes[0]));
      PassRefines(g, s, key, p, passes[0]);
      HandsAdd(g, p, key, passes[0], earlier);
      RunConcat(g, s, PassActions(g, p.exec, passes[0]), LoopActions(g, next, key, passes[1..]));
      if next.error.None? {
        LoopRefines(g, t, key, next, passes[1..], earlier);
      }
    }
  }
}
