/** One job of the worker task `otaTask()`, taken as a single atomic step.
    The HTTPS OTA engine is outside the model: what each of its calls returns
    is an input of the step. The step wakes on START_REQUEST, runs begin,
    the handle check, describe, size, the perform loop with its abort check,
    and finish, and its scoped cleanup always ends the job FINISHED. */
module OtaWorker {
  import opened Basics
  import opened EventFlags
  import opened OtaState

  /** An `esp_err_t` as the model needs it: ESP_OK, or an error carrying the
      name `esp_err_to_name` gives it. */
  datatype EspErr = EspOk | EspError(name: string)

  const EspFail: EspErr := EspError("ESP_FAIL")

  /** `esp_err_to_name`. */
  function ErrName(e: EspErr): string {
    match e
    case EspOk => "ESP_OK"
    case EspError(name) => name
  }

  /** The name of the code `esp_https_ota_perform` returns while a chunk is in progress. */
  const InProgressName: string := "ESP_ERR_HTTPS_OTA_IN_PROGRESS"

  /** The first result of `esp_https_ota_perform` that is not "in progress". */
  type PerformEnd = e: EspErr | e != EspError(InProgressName) witness EspOk

  /** What the engine and the foreground do during one job.
      `chunks[i]` is `esp_https_ota_get_image_len_read` after the i-th call
      to perform that reported "in progress"; `performEnd` is the call after
      them. `abortArrival == Some(k)` says a concurrent `abort()` raises
      ABORT_REQUEST just before the abort check that follows chunk k, or after
      the loop when k is past the last chunk. `at` is the clock reading
      written into error messages. */
  datatype JobInputs = JobInputs(
    begin: EspErr,
    handleValid: bool,
    describe: Option<AppDesc>,
    imageSize: int32,
    chunks: seq<int32>,
    performEnd: PerformEnd,
    abortArrival: Option<nat>,
    finish: EspErr,
    at: int)

  /** The message format of a failed engine call. */
  function FailedWith(call: string, err: string, at: int): string {
    call + "() failed with " + err + " (at " + IntToDecimal(at) + ")"
  }

  function HandleInvalidMessage(at: int): string {
    "ota handle invalid (at " + IntToDecimal(at) + ")"
  }

  const AbortMessage: string := "Requested abort"

  // ---------------------------------------------------------------------
  // The perform loop

  /** Where the perform loop leaves things: the error it ends with, whether
      it ended on an abort, the last progress it published, and whether
      ABORT_REQUEST is still raised. */
  datatype PerformOutcome = PerformOutcome(err: EspErr, aborted: bool, progress: int32, abortRaised: bool)

  /** Reference: the chunk after which the loop, scanning from chunk i with
      ABORT_REQUEST raised or not, finds an abort. The first check finds a
      raised bit; a later arrival is found at its own chunk. */
  function AbortSeenFrom(n: nat, i: nat, raised: bool, arrival: Option<nat>): (k: Option<nat>)
    requires i <= n
    ensures k.Some? ==> i <= k.value < n
  {
    if i == n then None
    else if raised then Some(i)
    else if arrival.Some? && i <= arrival.value < n then arrival
    else None
  }

  /** The perform loop from chunk i on, as the source runs it: publish the
      bytes read, then test-and-clear ABORT_REQUEST; an abort ends the loop
      with ESP_FAIL. */
  function PerformLoop(chunks: seq<int32>, i: nat, raised: bool, arrival: Option<nat>,
                       end: PerformEnd, progress: int32): (r: PerformOutcome)
    requires i <= |chunks|
    ensures match AbortSeenFrom(|chunks|, i, raised, arrival)
            case Some(k) => r == PerformOutcome(EspFail, true, chunks[k], false)
            case None =>
              r == PerformOutcome(end, false, if i < |chunks| then chunks[|chunks| - 1] else progress, raised)
    decreases |chunks| - i
  {
    if i == |chunks| then PerformOutcome(end, false, progress, raised)
    else
      var published := chunks[i];
      var raisedNow := raised || arrival == Some(i);
      if raisedNow then PerformOutcome(EspFail, true, published, false)
      else PerformLoop(chunks, i + 1, false, arrival, end, published)
  }

  // ---------------------------------------------------------------------
  // Reference outcome of a job

  datatype JobEnd =
    | BeginFailed
    | HandleInvalid
    | Aborted(atChunk: nat)
    | PerformFailed
    | FinishFailed
    | Completed

  /** Which exit a job takes, stated from the inputs alone. `raised` says
      ABORT_REQUEST was already set when the worker woke. */
  function Classify(raised: bool, j: JobInputs): JobEnd {
    if j.begin != EspOk then BeginFailed
    else if !j.handleValid then HandleInvalid
    else match AbortSeenFrom(|j.chunks|, 0, raised, j.abortArrival)
      case Some(k) => Aborted(k)
      case None =>
        if j.performEnd != EspOk then PerformFailed
        else if j.finish != EspOk then FinishFailed
        else Completed
  }

  /** The message each exit leaves in `m_message`. */
  function MessageFor(e: JobEnd, j: JobInputs): string {
    match e
    case BeginFailed => FailedWith("esp_https_ota_begin", ErrName(j.begin), j.at)
    case HandleInvalid => HandleInvalidMessage(j.at)
    case Aborted(_) => AbortMessage
    case PerformFailed => FailedWith("esp_https_ota_perform", ErrName(j.performEnd), j.at)
    case FinishFailed => FailedWith("esp_https_ota_finish", ErrName(j.finish), j.at)
    case Completed => ""
  }

  /** Only a completed job leaves the message empty. */
  lemma MessageEmptyOnlyOnSuccess(e: JobEnd, j: JobInputs)
    ensures MessageFor(e, j) == "" <==> e == Completed
  {
    if e != Completed {
      assert MessageFor(e, j)[0] in "oRe";
    }
  }

  // ---------------------------------------------------------------------
  // The job itself

  /** Waking on START_REQUEST: the wait clears it, progress is reset and
      RUNNING is raised. Total size and descriptor are kept. */
  function Wake(s: State): State {
    s.(flags := s.flags - {StartRequestBit} + {RequestRunningBit}, progress := 0)
  }

  /** The assertions the worker makes right after it wakes hold in every
      state that keeps the invariant. */
  lemma WakeAssertionsHold(s: State)
    requires Inv(s) && StartRequestBit in s.flags
    ensures var fs := s.flags - {StartRequestBit};
            StartRequestBit !in fs && RequestRunningBit !in fs && RequestVerifyingBit !in fs
            && RequestFinishedBit !in fs && RequestSucceededBit !in fs
  {
  }

  /** The job from begin to the last statement of the loop body, before the
      scoped cleanup runs; `s` is the state after Wake. */
  function JobBody(s: State, j: JobInputs): State {
    if j.begin.EspError? then
      s.(message := FailedWith("esp_https_ota_begin", ErrName(j.begin), j.at))
    else if !j.handleValid then
      s.(message := HandleInvalidMessage(j.at))
    else
      var described := s.(appDesc := j.describe,
                          totalSize := if j.imageSize > 0 then Some(j.imageSize) else s.totalSize);
      var p := PerformLoop(j.chunks, 0, AbortRequestBit in s.flags, j.abortArrival, j.performEnd, s.progress);
      var late := j.abortArrival.Some? && j.abortArrival.value >= |j.chunks|;
      var afterLoop :=
        if p.aborted then s.flags - {AbortRequestBit}
        else if p.abortRaised || late then s.flags + {AbortRequestBit}
        else s.flags - {AbortRequestBit};
      var verifying := if p.err == EspOk then afterLoop + {RequestVerifyingBit} else afterLoop;
      var message :=
        if p.aborted then AbortMessage
        else if p.err.EspError? then FailedWith("esp_https_ota_perform", ErrName(p.err), j.at)
        else if j.finish.EspError? then FailedWith("esp_https_ota_finish", ErrName(j.finish), j.at)
        else "";
      var outcome :=
        if p.err == EspOk && j.finish == EspOk then verifying + {RequestSucceededBit} else verifying;
      described.(flags := outcome, progress := p.progress, message := message)
  }

  /** The scoped cleanup that ends every job. */
  function Cleanup(s: State): State {
    s.(flags := s.flags - {RequestRunningBit, RequestVerifyingBit, AbortRequestBit} + {RequestFinishedBit})
  }

  /** While finish runs, VERIFYING is raised exactly when perform returned
      ESP_OK without an abort, and RUNNING is still raised beside it, so
      `status()` reports Verifying. */
  lemma VerifyingBeforeCleanup(s: State, j: JobInputs)
    requires StartRequestBit in s.flags && RequestVerifyingBit !in s.flags
    ensures var b := JobBody(Wake(s), j);
            var e := Classify(AbortRequestBit in s.flags, j);
            && (RequestVerifyingBit in b.flags <==> e == FinishFailed || e == Completed)
            && RequestRunningBit in b.flags
            && (TaskRunningBit in s.flags && RequestVerifyingBit in b.flags ==> Status(b.flags) == Verifying)
  {
  }

  /** One whole job: wake, body, cleanup. Every exit path ends the same
      way, and the snapshot fields move only once begin has succeeded. */
  function RunJob(s: State, j: JobInputs): (r: State)
    requires StartRequestBit in s.flags
    ensures StartRequestBit !in r.flags && RequestRunningBit !in r.flags
    ensures RequestVerifyingBit !in r.flags && AbortRequestBit !in r.flags
    ensures RequestFinishedBit in r.flags
    ensures r.flags * {TaskRunningBit, EndTaskBit, TaskEndedBit}
         == s.flags * {TaskRunningBit, EndTaskBit, TaskEndedBit}
    ensures r.totalSize == if j.begin == EspOk && j.handleValid && j.imageSize > 0
                           then Some(j.imageSize) else s.totalSize
    ensures r.appDesc == if j.begin == EspOk && j.handleValid then j.describe else s.appDesc
    ensures r.(flags := s.flags, progress := s.progress, message := s.message,
               totalSize := s.totalSize, appDesc := s.appDesc) == s
  {
    Cleanup(JobBody(Wake(s), j))
  }

  /** The job ends with the outcome the inputs select: SUCCEEDED is added
      exactly for a completed job, and the message is the one of its exit. */
  lemma RunJobOutcome(s: State, j: JobInputs)
    requires StartRequestBit in s.flags
    ensures var r := RunJob(s, j);
            var e := Classify(AbortRequestBit in s.flags, j);
            && (RequestSucceededBit in r.flags <==> RequestSucceededBit in s.flags || e == Completed)
            && r.message == MessageFor(e, j)
  {
    var w := Wake(s);
    var raised := AbortRequestBit in s.flags;
    assert (AbortRequestBit in w.flags) == raised;
    if j.begin == EspOk && j.handleValid {
      var p := PerformLoop(j.chunks, 0, raised, j.abortArrival, j.performEnd, w.progress);
      match AbortSeenFrom(|j.chunks|, 0, raised, j.abortArrival)
      case Some(k) =>
        assert p.aborted && p.err == EspFail;
      case None =>
        assert !p.aborted && p.err == j.performEnd;
    }
  }

  /** The progress a job leaves is the last value the loop published: zero
      when begin or the handle failed, the aborted chunk's, or the last chunk's. */
  lemma RunJobProgress(s: State, j: JobInputs)
    requires StartRequestBit in s.flags
    ensures var r := RunJob(s, j);
            var e := Classify(AbortRequestBit in s.flags, j);
            && (e.Aborted? ==> r.progress == j.chunks[e.atChunk])
            && (e.BeginFailed? || e.HandleInvalid? ==> r.progress == 0)
            && (e.PerformFailed? || e.FinishFailed? || e.Completed? ==>
                  r.progress == if |j.chunks| == 0 then 0 else j.chunks[|j.chunks| - 1])
  {
    var w := Wake(s);
    var raised := AbortRequestBit in s.flags;
    assert (AbortRequestBit in w.flags) == raised;
    if j.begin == EspOk && j.handleValid {
      var p := PerformLoop(j.chunks, 0, raised, j.abortArrival, j.performEnd, w.progress);
      assert RunJob(s, j).progress == p.progress;
    }
  }
}
