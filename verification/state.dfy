/** The state record of one `EspAsyncOta` object: the event group, the task
    handle, the progress snapshot the worker publishes, the settle and
    logging timestamps `update()` keeps, and the job parameters `trigger()`
    stores. Also the status enumeration, the `status()` mapping, the
    accessors, `setTotalSize`, and the invariant every operation keeps. */
module OtaState {
  import opened Basics
  import opened EventFlags

  /** `OtaCloudUpdateStatus`. The header's enumeration has no Verifying,
      but `status()` returns it, so it is part of the type here. */
  datatype OtaStatus = Idle | Updating | Failed | Succeeded | NotReady | Verifying

  /** `esp_app_desc_t`, the image descriptor the describe phase reads. Its
      contents are only stored and handed back, so a few fields stand for it. */
  datatype AppDesc = AppDesc(projectName: string, version: string, secureVersion: nat)

  /** What `trigger()` stores for the worker to read. */
  datatype JobParams = JobParams(
    url: string,
    certPem: string,
    useGlobalCa: bool,
    clientKey: string,
    clientCert: string)

  /** Times are millisecond readings of the monotonic clock. */
  datatype State = State(
    flags: Flags,
    taskHandle: bool,           // m_taskHandle is non-null
    progress: int32,
    totalSize: Option<int32>,
    message: string,
    appDesc: Option<AppDesc>,
    finishedTs: Option<int>,
    lastInfo: Option<int>,
    params: JobParams)

  const NoParams: JobParams := JobParams("", "", false, "", "")

  /** A freshly constructed object: the event group is empty and no worker exists. */
  function Init(): (s: State)
    ensures Inv(s)
    ensures Status(s.flags) == Idle
    ensures s.flags == {} && s.params == NoParams
    ensures !s.taskHandle && s.progress == 0 && s.message == ""
    ensures s.totalSize == None && s.appDesc == None && s.finishedTs == None && s.lastInfo == None
  {
    State({}, false, 0, None, "", None, None, None, NoParams)
  }

  /** `status()`: a function of the flags alone. It never reports NotReady. */
  function Status(fs: Flags): (r: OtaStatus)
    ensures r != NotReady
    ensures r == Verifying ==> RequestVerifyingBit in fs
    ensures r == Succeeded ==> RequestSucceededBit in fs
  {
    if TaskRunningBit !in fs then Idle
    else if RequestVerifyingBit in fs then Verifying
    else if StartRequestBit in fs || RequestRunningBit in fs then Updating
    else if RequestFinishedBit in fs then
      if RequestSucceededBit in fs then Succeeded else Failed
    else Idle
  }

  /** `status()` written over the event group word, bit test by bit test. */
  function StatusOfBits(bits: bv32): OtaStatus {
    if bits & Bit(TaskRunningBit) == 0 then Idle
    else if bits & Bit(RequestVerifyingBit) != 0 then Verifying
    else if bits & (Bit(StartRequestBit) | Bit(RequestRunningBit)) != 0 then Updating
    else if bits & Bit(RequestFinishedBit) != 0 then
      if bits & Bit(RequestSucceededBit) != 0 then Succeeded else Failed
    else Idle
  }

  /** The bitmask `status()` and the set-based Status agree on every flag set. */
  lemma StatusOfBitsAgrees(fs: Flags)
    ensures StatusOfBits(Encode(fs)) == Status(fs)
  {
    var w := Encode(fs);
    EncodeTest(fs, TaskRunningBit);
    EncodeTest(fs, RequestVerifyingBit);
    EncodeTest(fs, StartRequestBit);
    EncodeTest(fs, RequestRunningBit);
    EncodeTest(fs, RequestFinishedBit);
    EncodeTest(fs, RequestSucceededBit);
    assert w & (Bit(StartRequestBit) | Bit(RequestRunningBit))
      == (w & Bit(StartRequestBit)) | (w & Bit(RequestRunningBit));
  }

  /** The invariant of the flag set between atomic steps. */
  ghost predicate Inv(s: State) {
    var fs := s.flags;
    && (RequestSucceededBit in fs ==> RequestFinishedBit in fs)
    && (RequestFinishedBit in fs ==>
          StartRequestBit !in fs && RequestRunningBit !in fs && RequestVerifyingBit !in fs)
    && (RequestVerifyingBit in fs ==> RequestRunningBit in fs)
    && !(StartRequestBit in fs && RequestRunningBit in fs)
    && (AbortRequestBit in fs ==> StartRequestBit in fs || RequestRunningBit in fs)
    && (s.taskHandle ==> TaskRunningBit in fs)
    && (TaskRunningBit !in fs ==> fs == {})
  }

  /** Under the invariant each status is decided by the flags that name it,
      whatever the order of the tests in `status()`. */
  lemma StatusUnderInv(s: State)
    requires Inv(s)
    ensures Status(s.flags) == Succeeded <==> RequestSucceededBit in s.flags
    ensures Status(s.flags) == Failed <==>
              RequestFinishedBit in s.flags && RequestSucceededBit !in s.flags
    ensures Status(s.flags) == Verifying <==> RequestVerifyingBit in s.flags
    ensures Status(s.flags) == Updating <==>
              RequestVerifyingBit !in s.flags
              && (StartRequestBit in s.flags || RequestRunningBit in s.flags)
    ensures Status(s.flags) == Idle <==>
              StartRequestBit !in s.flags && RequestRunningBit !in s.flags
              && RequestFinishedBit !in s.flags
  {
  }

  function Progress(s: State): int32 { s.progress }

  function TotalSize(s: State): Option<int32> { s.totalSize }

  function Message(s: State): string { s.message }

  function ImageDescriptor(s: State): Option<AppDesc> { s.appDesc }

  /** `setTotalSize(n)`: totalSize() then reports n; no other field moves. */
  function SetTotalSize(s: State, n: int32): (r: State)
    ensures TotalSize(r) == Some(n)
    ensures r.(totalSize := s.totalSize) == s
    ensures Status(r.flags) == Status(s.flags)
    ensures Inv(s) ==> Inv(r)
  {
    s.(totalSize := Some(n))
  }
}
