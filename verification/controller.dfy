/** The caller-facing half of `EspAsyncOta`: `startTask`, `endTask`,
    `trigger`, `abort` and the periodic `update` tick. Each call is one
    atomic step from a state to a result and a successor state. */
module OtaController {
  import opened Basics
  import opened EventFlags
  import opened OtaState

  /** The `expected<void, string>` a call returns and the state it leaves. */
  datatype Step = Step(out: Outcome, next: State)

  /** What task creation does: the FreeRTOS return code and whether it wrote
      the task handle. The scheduler is outside the model. */
  datatype Spawn = Spawn(result: int, handleWritten: bool)

  /** `pdPASS`, the return code of a successful task creation. */
  const PdPass: int := 1

  /** The job is in flight: a start is pending or the worker is transferring. */
  predicate InFlight(fs: Flags) {
    StartRequestBit in fs || RequestRunningBit in fs
  }

  /** `startTask()`. A task created with pdPASS runs and raises TASK_RUNNING
      before the call returns, even when the handle came back null. */
  function StartTask(s: State, spawn: Spawn): (r: Step)
    ensures s.taskHandle ==> r == Step(Fail("ota task handle is not null"), s)
    ensures !s.taskHandle && TaskRunningBit in s.flags ==>
              r == Step(Fail("ota task already running"), s)
    ensures r.out == Pass <==>
              !s.taskHandle && TaskRunningBit !in s.flags && spawn.result == PdPass && spawn.handleWritten
    ensures r.out == Pass ==> r.next.flags == {TaskRunningBit} && r.next.taskHandle
    ensures r.next.(flags := s.flags, taskHandle := s.taskHandle) == s
    ensures Inv(s) ==> Inv(r.next)
  {
    if s.taskHandle then Step(Fail("ota task handle is not null"), s)
    else if TaskRunningBit in s.flags then Step(Fail("ota task already running"), s)
    else
      var cleared := s.(flags := s.flags - AllFlags);
      if spawn.result != PdPass then
        Step(Fail("failed creating ota task " + IntToDecimal(spawn.result)), cleared)
      else if !spawn.handleWritten then
        Step(Fail("ota task handle is null"), cleared.(flags := {TaskRunningBit}))
      else
        Step(Pass, cleared.(flags := {TaskRunningBit}, taskHandle := true))
  }

  /** The three ways `endTask()` can go. The worker never acknowledges a
      shutdown, so a caller that gets past the guards waits for TASK_ENDED
      with END_TASK raised. */
  datatype EndStep = Ended | EndRefused(msg: string) | AwaitingWorker(next: State)

  function EndTask(s: State): (r: EndStep)
    ensures r == Ended <==> TaskRunningBit !in s.flags
    ensures r.EndRefused? <==> TaskRunningBit in s.flags && EndTaskBit in s.flags
    ensures r.EndRefused? ==> r.msg == "Another end request is already pending"
    ensures r.AwaitingWorker? ==>
              r.next.flags == s.flags + {EndTaskBit} && r.next.(flags := s.flags) == s
  {
    if TaskRunningBit !in s.flags then Ended
    else if EndTaskBit in s.flags then EndRefused("Another end request is already pending")
    else AwaitingWorker(s.(flags := s.flags + {EndTaskBit}))
  }

  /** Calling `endTask()` twice with no worker succeeds twice and changes nothing. */
  lemma EndTaskIdempotentWhenStopped(s: State)
    requires Inv(s) && !s.taskHandle && TaskRunningBit !in s.flags
    ensures EndTask(s) == Ended
    ensures s.flags == {}
  {
  }

  /** The guards of `trigger()` once the worker is known to exist. */
  function TriggerGuards(s: State, req: JobParams, urlVerdict: Outcome): (r: Step)
    ensures r.out.Fail? ==> r.next == s
    ensures r.out == Pass <==>
              TaskRunningBit in s.flags && !InFlight(s.flags) && RequestFinishedBit !in s.flags
              && |req.url| > 0 && urlVerdict == Pass
    ensures r.out == Pass ==>
              r.next == s.(params := req, flags := s.flags + {StartRequestBit})
  {
    if TaskRunningBit !in s.flags then Step(Fail("ota cloud task not running"), s)
    else if InFlight(s.flags) then Step(Fail("ota cloud already running"), s)
    else if RequestFinishedBit in s.flags then Step(Fail("ota cloud not fully finished, try again"), s)
    else if |req.url| == 0 then Step(Fail("empty firmware url"), s)
    else if urlVerdict.Fail? then Step(Fail("could not verify firmware url: " + urlVerdict.msg), s)
    else Step(Pass, s.(params := req, flags := s.flags + {StartRequestBit}))
  }

  /** `trigger(url, cert_pem, use_global_ca, client_key, client_cert)`: starts
      the worker lazily, then checks its guards in a fixed order. The URL
      verifier is outside the model; its verdict is a parameter. */
  function Trigger(s: State, req: JobParams, spawn: Spawn, urlVerdict: Outcome): (r: Step)
    ensures r.out.Fail? ==> r.next.params == s.params
    ensures s.taskHandle ==> r == TriggerGuards(s, req, urlVerdict)
    ensures s.taskHandle && TaskRunningBit in s.flags ==>
              && (InFlight(s.flags) ==> r == Step(Fail("ota cloud already running"), s))
              && (!InFlight(s.flags) && RequestFinishedBit in s.flags ==>
                    r == Step(Fail("ota cloud not fully finished, try again"), s))
              && (!InFlight(s.flags) && RequestFinishedBit !in s.flags && |req.url| == 0 ==>
                    r == Step(Fail("empty firmware url"), s))
              && (!InFlight(s.flags) && RequestFinishedBit !in s.flags && |req.url| > 0
                  && urlVerdict.Fail? ==>
                    r == Step(Fail("could not verify firmware url: " + urlVerdict.msg), s))
    ensures r.out == Pass ==>
              && r.next.params == req
              && (s.taskHandle ==> StartRequestBit !in s.flags)
              && r.next.flags == (if s.taskHandle then s.flags else {TaskRunningBit}) + {StartRequestBit}
    ensures Inv(s) ==> Inv(r.next)
  {
    var started := if s.taskHandle then Step(Pass, s) else StartTask(s, spawn);
    if started.out.Fail? then started
    else TriggerGuards(started.next, req, urlVerdict)
  }

  /** The assertion `trigger()` makes after its guards: with FINISHED clear,
      SUCCEEDED is clear as well. */
  lemma TriggerAssertionHolds(s: State)
    requires Inv(s)
    requires TaskRunningBit in s.flags && !InFlight(s.flags) && RequestFinishedBit !in s.flags
    ensures RequestSucceededBit !in s.flags
  {
  }

  /** `abort()`. It does not look at TASK_RUNNING. */
  function Abort(s: State): (r: Step)
    ensures !InFlight(s.flags) ==> r == Step(Fail("no ota job is running!"), s)
    ensures InFlight(s.flags) && AbortRequestBit in s.flags ==>
              r == Step(Fail("an abort has already been requested!"), s)
    ensures r.out == Pass <==> InFlight(s.flags) && AbortRequestBit !in s.flags
    ensures r.out == Pass ==> r.next == s.(flags := s.flags + {AbortRequestBit})
    ensures Status(r.next.flags) == Status(s.flags)
    ensures Inv(s) ==> Inv(r.next)
  {
    if !InFlight(s.flags) then Step(Fail("no ota job is running!"), s)
    else if AbortRequestBit in s.flags then Step(Fail("an abort has already been requested!"), s)
    else Step(Pass, s.(flags := s.flags + {AbortRequestBit}))
  }

  /** Delay, in milliseconds, a finished job is held before it is settled. */
  const SettleDelayMs: int := 5000

  /** Interval, in milliseconds, between two progress log lines. */
  const InfoIntervalMs: int := 1000

  /** The result of an `update()` tick: `esp_restart()` never returns. */
  datatype Tick = Restart | Continue(next: State)

  /** The settle delay since the recorded finish time has run out. */
  predicate SettleElapsed(s: State, now: int) {
    s.finishedTs.Some? && now - s.finishedTs.value > SettleDelayMs
  }

  /** `update()` at clock reading `now`. While a job is in flight only the
      logging timestamp moves. Once the job is finished, the first tick
      records the finish time; a tick more than the settle delay later
      restarts the device after a success and otherwise returns to idle. */
  function Update(s: State, now: int): (r: Tick)
    ensures r == Restart <==>
              !InFlight(s.flags) && RequestFinishedBit in s.flags && RequestSucceededBit in s.flags
              && SettleElapsed(s, now)
    ensures r.Continue? ==>
              && r.next.(flags := s.flags, appDesc := s.appDesc, finishedTs := s.finishedTs,
                         lastInfo := s.lastInfo) == s
              && r.next.flags <= s.flags
    ensures InFlight(s.flags) ==> r.Continue? && r.next.(lastInfo := s.lastInfo) == s
    ensures r.Continue? && r.next.flags != s.flags ==>
              && !InFlight(s.flags) && SettleElapsed(s, now)
              && r.next.flags == s.flags - {RequestFinishedBit, RequestSucceededBit}
              && r.next.appDesc == None && r.next.finishedTs == None
    ensures Inv(s) && r.Continue? ==> Inv(r.next)
  {
    if InFlight(s.flags) then
      if s.lastInfo.None? || now - s.lastInfo.value >= InfoIntervalMs then
        Continue(s.(lastInfo := Some(now)))
      else
        Continue(s)
    else if RequestFinishedBit in s.flags then
      match s.finishedTs
      case Some(ts) =>
        if now - ts > SettleDelayMs then
          if RequestSucceededBit in s.flags then Restart
          else Continue(s.(finishedTs := None,
                           flags := s.flags - {RequestFinishedBit, RequestSucceededBit},
                           appDesc := None))
        else Continue(s)
      case None => Continue(s.(finishedTs := Some(now)))
    else Continue(s)
  }
}
