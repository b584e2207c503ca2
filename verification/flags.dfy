/** The nine bits of the FreeRTOS event group the controller and the worker
    share. The rest of the model treats the group as a set of flags; this
    module ties that set to the source's bit constants BIT0..BIT8 and shows
    that set insertion and removal are exactly `setBits` and `clearBits`. */
module EventFlags {

  datatype Flag =
    | TaskRunningBit        // the worker is alive, parked or busy
    | StartRequestBit       // a trigger waits to be consumed by the worker
    | RequestRunningBit     // the worker is transferring
    | RequestVerifyingBit   // perform succeeded, finish in progress
    | RequestFinishedBit    // the job reached an outcome, not yet settled
    | RequestSucceededBit   // that outcome was success
    | EndTaskBit            // shutdown requested
    | TaskEndedBit          // shutdown acknowledged
    | AbortRequestBit       // cancellation requested

  type Flags = set<Flag>

  const AllFlags: Flags := {
    TaskRunningBit, StartRequestBit, RequestRunningBit, RequestVerifyingBit,
    RequestFinishedBit, RequestSucceededBit, EndTaskBit, TaskEndedBit, AbortRequestBit
  }

  /** The mask of one flag in the event group word. */
  function Bit(f: Flag): bv32 {
    match f
    case TaskRunningBit => 0x001  // BIT0
    case StartRequestBit => 0x002  // BIT1
    case RequestRunningBit => 0x004  // BIT2
    case RequestVerifyingBit => 0x008  // BIT3
    case RequestFinishedBit => 0x010  // BIT4
    case RequestSucceededBit => 0x020  // BIT5
    case EndTaskBit => 0x040  // BIT6
    case TaskEndedBit => 0x080  // BIT7
    case AbortRequestBit => 0x100  // BIT8
  }

  function Mask(b: bool, f: Flag): bv32 {
    if b then Bit(f) else 0
  }

  /** The event group word holding exactly the flags of `fs`. */
  function Encode(fs: Flags): (bits: bv32)
    ensures bits & !0x1FF == 0
  {
    Mask(TaskRunningBit in fs, TaskRunningBit)
    | Mask(StartRequestBit in fs, StartRequestBit)
    | Mask(RequestRunningBit in fs, RequestRunningBit)
    | Mask(RequestVerifyingBit in fs, RequestVerifyingBit)
    | Mask(RequestFinishedBit in fs, RequestFinishedBit)
    | Mask(RequestSucceededBit in fs, RequestSucceededBit)
    | Mask(EndTaskBit in fs, EndTaskBit)
    | Mask(TaskEndedBit in fs, TaskEndedBit)
    | Mask(AbortRequestBit in fs, AbortRequestBit)
  }

  /** The flags whose bit is set in an event group word. */
  function Decode(bits: bv32): (fs: Flags)
    ensures forall f :: f in fs <==> bits & Bit(f) != 0
  {
    set f | f in AllFlags && bits & Bit(f) != 0
  }

  /** The nine masks are pairwise disjoint, so no two flags share a bit. */
  lemma BitsDisjoint(f: Flag, g: Flag)
    ensures f != g <==> Bit(f) & Bit(g) == 0
  {
  }

  /** Testing a bit of an encoded word is testing membership. */
  lemma EncodeTest(fs: Flags, f: Flag)
    ensures Encode(fs) & Bit(f) != 0 <==> f in fs
  {
    match f
    case TaskRunningBit =>
    case StartRequestBit =>
    case RequestRunningBit =>
    case RequestVerifyingBit =>
    case RequestFinishedBit =>
    case RequestSucceededBit =>
    case EndTaskBit =>
    case TaskEndedBit =>
    case AbortRequestBit =>
  }

  lemma DecodeEncode(fs: Flags)
    ensures Decode(Encode(fs)) == fs
  {
    forall f
      ensures f in Decode(Encode(fs)) <==> f in fs
    {
      EncodeTest(fs, f);
    }
  }

  lemma EncodeDecode(bits: bv32)
    ensures Encode(Decode(bits)) == bits & 0x1FF
  {
  }

  /** `setBits(Bit(f))` on the word is adding `f` to the set. */
  lemma SetBitsIsInsert(fs: Flags, f: Flag)
    ensures Encode(fs + {f}) == Encode(fs) | Bit(f)
  {
    var t := fs + {f};
    assert forall g :: Mask(g in t, g) == Mask(g in fs, g) | Mask(g == f, g);
    assert Bit(f) == Mask(f == f, f);
  }

  /** `clearBits(Bit(f))` on the word is removing `f` from the set, and the
      word it returns tells whether `f` was set (the worker's test-and-clear). */
  lemma ClearBitsIsRemove(fs: Flags, f: Flag)
    ensures Encode(fs - {f}) == Encode(fs) & !Bit(f)
    ensures Encode(fs) & Bit(f) != 0 <==> f in fs
  {
    var rest := fs - {f};
    EncodeTest(rest, f);
    if f in fs {
      assert fs == rest + {f};
      SetBitsIsInsert(rest, f);
    } else {
      assert rest == fs;
    }
    EncodeTest(fs, f);
  }

  /** The mask `startTask` clears before spawning the worker. */
  const StartTaskClearMask: bv32 :=
    Bit(TaskRunningBit) | Bit(StartRequestBit) | Bit(RequestRunningBit) | Bit(RequestVerifyingBit)
    | Bit(RequestFinishedBit) | Bit(RequestSucceededBit) | Bit(EndTaskBit) | Bit(TaskEndedBit)
    | Bit(AbortRequestBit)

  /** That mask names every flag, so the word after clearing it is empty. */
  lemma StartTaskClearsEverything(fs: Flags)
    ensures Decode(StartTaskClearMask) == AllFlags
    ensures Encode(fs) & !StartTaskClearMask == 0
  {
  }
}
