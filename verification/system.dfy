/** The controller and the worker together: every public call, every
    `update()` tick and every worker job is one atomic event on the shared
    state. This module proves that the flag invariant holds in every state
    reachable from a fresh object, and the lifecycle facts that span
    several events: one trigger per job, abort honoured at the next chunk,
    and the two-step settle after a job finishes. */
module OtaSystem {
  import opened Basics
  import opened EventFlags
  import opened OtaState
  import opened OtaController
  import opened OtaWorker

  datatype Event =
    | StartTaskCall(spawn: Spawn)
    | EndTaskCall
    | TriggerCall(req: JobParams, spawn: Spawn, urlVerdict: Outcome)
    | AbortCall
    | UpdateTick(now: int)
    | WorkerJob(inputs: JobInputs)
    | SetTotalSizeCall(n: int32)

  /** The device runs, or `update()` has restarted it. */
  datatype Machine = Live(s: State) | Restarted

  /** The worker runs a job only while it is alive and a start is pending;
      otherwise it stays parked. */
  function WorkerStep(s: State, j: JobInputs): State {
    if TaskRunningBit in s.flags && StartRequestBit in s.flags then RunJob(s, j) else s
  }

  function Apply(s: State, e: Event): Machine {
    match e
    case StartTaskCall(spawn) => Live(StartTask(s, spawn).next)
    case EndTaskCall =>
      (match EndTask(s)
       case AwaitingWorker(next) => Live(next)
       case _ => Live(s))
    case TriggerCall(req, spawn, verdict) => Live(Trigger(s, req, spawn, verdict).next)
    case AbortCall => Live(Abort(s).next)
    case UpdateTick(now) =>
      (match Update(s, now)
       case Restart => Restarted
       case Continue(next) => Live(next))
    case WorkerJob(j) => Live(WorkerStep(s, j))
    case SetTotalSizeCall(n) => Live(SetTotalSize(s, n))
  }

  function Run(s: State, es: seq<Event>): Machine
    decreases |es|
  {
    if |es| == 0 then Live(s)
    else match Apply(s, es[0])
      case Restarted => Restarted
      case Live(next) => Run(next, es[1..])
  }

  /** A job keeps the invariant: it starts from a state where the worker's
      wake-up assertions hold and ends FINISHED with nothing in flight. */
  lemma RunJobKeepsInv(s: State, j: JobInputs)
    requires Inv(s) && TaskRunningBit in s.flags && StartRequestBit in s.flags
    ensures Inv(RunJob(s, j))
  {
    WakeAssertionsHold(s);
    var r := RunJob(s, j);
    assert TaskRunningBit in r.flags;
  }

  lemma ApplyKeepsInv(s: State, e: Event)
    requires Inv(s)
    ensures Apply(s, e).Live? ==> Inv(Apply(s, e).s)
  {
    match e
    case WorkerJob(j) =>
      if TaskRunningBit in s.flags && StartRequestBit in s.flags {
        RunJobKeepsInv(s, j);
      }
    case _ =>
  }

  lemma {:induction false} RunKeepsInv(s: State, es: seq<Event>)
    requires Inv(s)
    ensures Run(s, es).Live? ==> Inv(Run(s, es).s)
    decreases |es|
  {
    if |es| > 0 {
      ApplyKeepsInv(s, es[0]);
      match Apply(s, es[0])
      case Restarted =>
      case Live(next) => RunKeepsInv(next, es[1..]);
    }
  }

  /** Every state a fresh object can reach keeps the invariant; in
      particular SUCCEEDED implies FINISHED and FINISHED excludes a job in flight. */
  lemma ReachableStatesKeepInv(es: seq<Event>)
    ensures Run(Init(), es).Live? ==> Inv(Run(Init(), es).s)
    ensures Run(Init(), es).Live? ==>
              var fs := Run(Init(), es).s.flags;
              && (RequestSucceededBit in fs ==> RequestFinishedBit in fs)
              && (RequestFinishedBit in fs ==> StartRequestBit !in fs && RequestRunningBit !in fs)
  {
    RunKeepsInv(Init(), es);
  }

  /** The device restarts only on an `update()` tick that finds a succeeded
      job whose settle delay has run out. */
  lemma RestartOnlyAfterSettledSuccess(s: State, e: Event)
    requires Apply(s, e) == Restarted
    ensures e.UpdateTick?
    ensures RequestFinishedBit in s.flags && RequestSucceededBit in s.flags
    ensures SettleElapsed(s, e.now)
  {
  }

  // ---------------------------------------------------------------------
  // Triggers

  /** The arguments of one `trigger()` call and what its collaborators answer. */
  datatype TriggerArgs = TriggerArgs(req: JobParams, spawn: Spawn, urlVerdict: Outcome)

  /** Feeds a run of `trigger()` calls to the controller, with no job event
      in between; returns the final state and how many were accepted. */
  function TriggerAll(s: State, calls: seq<TriggerArgs>): (State, nat)
    decreases |calls|
  {
    if |calls| == 0 then (s, 0)
    else
      var c := calls[0];
      var step := Trigger(s, c.req, c.spawn, c.urlVerdict);
      var rest := TriggerAll(step.next, calls[1..]);
      (rest.0, rest.1 + if step.out == Pass then 1 else 0)
  }

  /** While a job is in flight every trigger is refused and nothing changes. */
  lemma {:induction false} TriggersRefusedInFlight(s: State, calls: seq<TriggerArgs>)
    requires Inv(s) && InFlight(s.flags)
    ensures TriggerAll(s, calls) == (s, 0)
    decreases |calls|
  {
    if |calls| > 0 {
      TriggersRefusedInFlight(s, calls[1..]);
    }
  }

  /** Whether the i-th call of a run is accepted, given the calls before it. */
  predicate AcceptedAt(s: State, calls: seq<TriggerArgs>, i: nat)
    requires i < |calls|
  {
    var c := calls[i];
    Trigger(TriggerAll(s, calls[..i]).0, c.req, c.spawn, c.urlVerdict).out == Pass
  }

  /** Of any run of triggers at most one is accepted, and the parameters
      stored at the end are those of the accepted call (or unchanged). */
  lemma {:induction false} AtMostOneTriggerAccepted(s: State, calls: seq<TriggerArgs>)
    requires Inv(s)
    ensures TriggerAll(s, calls).1 <= 1
    ensures TriggerAll(s, calls).1 == 0 ==> TriggerAll(s, calls).0.params == s.params
    ensures TriggerAll(s, calls).1 == 1 ==>
              exists i :: 0 <= i < |calls| && AcceptedAt(s, calls, i)
                          && TriggerAll(s, calls).0.params == calls[i].req
    decreases |calls|
  {
    if |calls| > 0 {
      var c := calls[0];
      var step := Trigger(s, c.req, c.spawn, c.urlVerdict);
      assert Inv(step.next);
      if step.out == Pass {
        assert InFlight(step.next.flags);
        TriggersRefusedInFlight(step.next, calls[1..]);
        assert TriggerAll(s, calls).0 == step.next;
        assert calls[..0] == [];
        assert AcceptedAt(s, calls, 0);
      } else {
        AtMostOneTriggerAccepted(step.next, calls[1..]);
        var rest := TriggerAll(step.next, calls[1..]);
        if rest.1 == 1 {
          var i :| 0 <= i < |calls[1..]| && AcceptedAt(step.next, calls[1..], i)
                   && rest.0.params == calls[1..][i].req;
          assert calls[i + 1] == calls[1..][i];
          var prefix := calls[..i + 1];
          assert prefix[0] == c && prefix[1..] == calls[1..][..i];
          assert TriggerAll(s, prefix).0 == TriggerAll(step.next, calls[1..][..i]).0;
          assert AcceptedAt(s, calls, i + 1);
        }
      }
    }
  }

  /** The controller's example calls: with the worker idle, a trigger with a
      URL the verifier accepts succeeds and the status becomes Updating; a
      second trigger is refused as already running; an empty URL is refused
      without a change; and `abort()` with no job fails. */
  lemma TriggerScenarios(s: State, spawn: Spawn)
    requires Inv(s) && s.taskHandle && Status(s.flags) == Idle
    ensures var req := JobParams("https://example/fw.bin", "", true, "", "");
            var first := Trigger(s, req, spawn, Pass);
            && first.out == Pass
            && Status(first.next.flags) == Updating
            && Trigger(first.next, req, spawn, Pass) == Step(Fail("ota cloud already running"), first.next)
    ensures Trigger(s, JobParams("", "", true, "", ""), spawn, Pass) == Step(Fail("empty firmware url"), s)
    ensures Abort(s) == Step(Fail("no ota job is running!"), s)
  {
    StatusUnderInv(s);
  }

  /** The first trigger on a controller with no worker starts one. A
      successful spawn is followed by the guards, so a valid request is
      accepted and the status becomes Updating; an empty URL is refused but
      leaves the new worker running; a failed spawn is reported with its
      result code and changes nothing. */
  lemma TriggerStartsWorkerLazily(s: State, code: int)
    requires Inv(s) && !s.taskHandle && TaskRunningBit !in s.flags
    ensures var req := JobParams("https://example/fw.bin", "", true, "", "");
            var first := Trigger(s, req, Spawn(PdPass, true), Pass);
            && first.out == Pass
            && first.next == s.(flags := {TaskRunningBit, StartRequestBit}, taskHandle := true, params := req)
            && Status(first.next.flags) == Updating
    ensures Trigger(s, JobParams("", "", true, "", ""), Spawn(PdPass, true), Pass)
         == Step(Fail("empty firmware url"), s.(flags := {TaskRunningBit}, taskHandle := true))
    ensures code != PdPass ==>
              (Trigger(s, JobParams("https://example/fw.bin", "", true, "", ""), Spawn(code, true), Pass)
               == Step(Fail("failed creating ota task " + IntToDecimal(code)), s))
  {
    assert s.flags == {};
  }

  // ---------------------------------------------------------------------
  // Abort

  /** An abort accepted while the start is still pending is seen at the
      abort check after the first chunk: the job ends FINISHED and failed,
      with the abort message and the first chunk's progress. */
  lemma AbortHonouredAtFirstChunk(s: State, j: JobInputs)
    requires Inv(s) && TaskRunningBit in s.flags && StartRequestBit in s.flags
    requires Abort(s).out == Pass
    requires j.begin == EspOk && j.handleValid && |j.chunks| > 0
    ensures var r := RunJob(Abort(s).next, j);
            && Status(r.flags) == Failed
            && r.message == "Requested abort"
            && r.progress == j.chunks[0]
  {
    var a := Abort(s).next;
    assert Classify(AbortRequestBit in a.flags, j) == Aborted(0);
    RunJobOutcome(a, j);
    RunJobProgress(a, j);
    RunJobKeepsInv(a, j);
    StatusUnderInv(RunJob(a, j));
  }

  /** An abort that lands after the last chunk is never seen: it is cleared
      by the cleanup, and the job ends as if no abort had been made. */
  lemma LateAbortIsDiscarded(s: State, j: JobInputs)
    requires Inv(s) && TaskRunningBit in s.flags && StartRequestBit in s.flags
    requires AbortRequestBit !in s.flags
    requires j.abortArrival.Some? && j.abortArrival.value >= |j.chunks|
    ensures var r := RunJob(s, j);
            && AbortRequestBit !in r.flags
            && r == RunJob(s, j.(abortArrival := None))
  {
  }

  /** A job ends Succeeded exactly when begin, perform and finish returned
      ESP_OK with a valid handle and no abort was seen; otherwise Failed with
      a non-empty message. */
  lemma JobOutcomeStatus(s: State, j: JobInputs)
    requires Inv(s) && TaskRunningBit in s.flags && StartRequestBit in s.flags
    ensures var r := RunJob(s, j);
            var e := Classify(AbortRequestBit in s.flags, j);
            && (Status(r.flags) == Succeeded <==> e == Completed)
            && (Status(r.flags) == Failed <==> e != Completed)
            && (r.message == "" <==> e == Completed)
  {
    WakeAssertionsHold(s);
    RunJobKeepsInv(s, j);
    RunJobOutcome(s, j);
    StatusUnderInv(RunJob(s, j));
    MessageEmptyOnlyOnSuccess(Classify(AbortRequestBit in s.flags, j), j);
  }

  /** The worker never touches END_TASK or TASK_ENDED, so a caller blocked in
      `endTask()` is never released by a job. */
  lemma JobNeverAcknowledgesShutdown(s: State, j: JobInputs)
    ensures EndTaskBit in WorkerStep(s, j).flags <==> EndTaskBit in s.flags
    ensures TaskEndedBit in WorkerStep(s, j).flags <==> TaskEndedBit in s.flags
  {
    if TaskRunningBit in s.flags && StartRequestBit in s.flags {
      var r := RunJob(s, j);
      assert EndTaskBit in r.flags <==> EndTaskBit in r.flags * {TaskRunningBit, EndTaskBit, TaskEndedBit};
      assert TaskEndedBit in r.flags <==> TaskEndedBit in r.flags * {TaskRunningBit, EndTaskBit, TaskEndedBit};
    }
  }

  // ---------------------------------------------------------------------
  // Settle

  /** The two-step settle. The first tick after a job finishes records the
      time and changes no flag; ticks up to the settle delay later change
      nothing, so the terminal status stays readable; the first tick past the
      delay restarts after a success, and otherwise returns to Idle with the
      descriptor cleared and the message kept. */
  lemma SettleTwoStep(s: State, t0: int, t: int)
    requires Inv(s) && TaskRunningBit in s.flags && RequestFinishedBit in s.flags
    requires s.finishedTs.None?
    ensures Update(s, t0).Continue?
    ensures var s1 := Update(s, t0).next;
            && s1 == s.(finishedTs := Some(t0))
            && Status(s1.flags) == Status(s.flags)
            && (Status(s.flags) == Succeeded || Status(s.flags) == Failed)
            && (t - t0 <= SettleDelayMs ==> Update(s1, t) == Continue(s1))
            && (t - t0 > SettleDelayMs && RequestSucceededBit in s.flags ==> Update(s1, t) == Restart)
            && (t - t0 > SettleDelayMs && RequestSucceededBit !in s.flags ==>
                  && Update(s1, t).Continue?
                  && Status(Update(s1, t).next.flags) == Idle
                  && Update(s1, t).next.appDesc == None
                  && Update(s1, t).next.finishedTs == None
                  && Update(s1, t).next.message == s.message)
  {
    StatusUnderInv(s);
  }
}
