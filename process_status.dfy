/** The status word of a process and the rescheduling rights, which
    `src/process.rs` and `vm/src/runtime/process.rs` define identically: a
    byte of flags (main, blocking, terminated) that several statuses may
    share, updated one mask at a time. */
module ProcessStatus {
  const NORMAL: bv8 := 0
  const MAIN: bv8 := 1
  const BLOCKING: bv8 := 2
  const TERMINATED: bv8 := 4

  /** `update_bits`: the bits of `mask` are all set when `enable` holds and
      all cleared otherwise; every other bit keeps its value. */
  function UpdateBits(bits: bv8, mask: bv8, enable: bool): (r: bv8)
    ensures r & !mask == bits & !mask
    ensures r & mask == if enable then mask else 0
  {
    if enable then bits | mask else bits & !mask
  }

  /** `bit_is_set`: every bit of the mask is set. */
  predicate BitIsSet(bits: bv8, mask: bv8)
  {
    bits & mask == mask
  }

  /** Updating one status flag sets or clears that flag and leaves the
      other two as they were. */
  lemma FlagsIndependent(bits: bv8, mask: bv8, other: bv8, enable: bool)
    requires mask in {MAIN, BLOCKING, TERMINATED} && other in {MAIN, BLOCKING, TERMINATED}
    requires mask != other
    ensures BitIsSet(UpdateBits(bits, mask, enable), mask) == enable
    ensures BitIsSet(UpdateBits(bits, mask, enable), other) == BitIsSet(bits, other)
  {
  }

  class Status {
    var bits: bv8

    /** `ProcessStatus::new`: a normal process, no flag set. */
    constructor ()
      ensures bits == NORMAL
      ensures !IsMain() && !IsBlocking() && !IsTerminated()
    {
      bits := NORMAL;
    }

    predicate IsMain() reads this { BitIsSet(bits, MAIN) }
    predicate IsBlocking() reads this { BitIsSet(bits, BLOCKING) }
    predicate IsTerminated() reads this { BitIsSet(bits, TERMINATED) }

    /** `update_bits`. */
    method Update(mask: bv8, enable: bool)
      modifies this
      ensures bits == UpdateBits(old(bits), mask, enable)
    {
      bits := UpdateBits(bits, mask, enable);
    }

    /** `set_main`: the process is main; the other flags are unchanged. */
    method SetMain()
      modifies this
      ensures IsMain()
      ensures IsBlocking() == old(IsBlocking()) && IsTerminated() == old(IsTerminated())
    {
      Update(MAIN, true);
      FlagsIndependent(old(bits), MAIN, BLOCKING, true);
      FlagsIndependent(old(bits), MAIN, TERMINATED, true);
    }

    /** `set_blocking(enable)`: sets or clears the blocking flag only. */
    method SetBlocking(enable: bool)
      modifies this
      ensures IsBlocking() == enable
      ensures IsMain() == old(IsMain()) && IsTerminated() == old(IsTerminated())
    {
      Update(BLOCKING, enable);
      FlagsIndependent(old(bits), BLOCKING, MAIN, enable);
      FlagsIndependent(old(bits), BLOCKING, TERMINATED, enable);
    }

    /** `set_terminated`: the process is terminated; the other flags are
        unchanged. */
    method SetTerminated()
      modifies this
      ensures IsTerminated()
      ensures IsMain() == old(IsMain()) && IsBlocking() == old(IsBlocking())
    {
      Update(TERMINATED, true);
      FlagsIndependent(old(bits), TERMINATED, MAIN, true);
      FlagsIndependent(old(bits), TERMINATED, BLOCKING, true);
    }
  }

  /** What a thread obtained when it tried to reschedule a process; the
      timeout is identified by a number. */
  datatype RescheduleRights = Failed | Acquired | AcquiredWithTimeout(timeout: nat)

  /** `are_acquired`: anything but `Failed`. */
  predicate AreAcquired(r: RescheduleRights)
  {
    match r
    case Failed => false
    case _ => true
  }

  /** `process_had_timeout`: only `AcquiredWithTimeout`. */
  predicate ProcessHadTimeout(r: RescheduleRights)
  {
    match r
    case AcquiredWithTimeout(_) => true
    case _ => false
  }

  /** A process that had a timeout was rescheduled, and the rights fail
      exactly in the `Failed` case. */
  lemma RightsQueries(r: RescheduleRights)
    ensures ProcessHadTimeout(r) ==> AreAcquired(r)
    ensures !AreAcquired(r) <==> r == Failed
    ensures AreAcquired(r) && !ProcessHadTimeout(r) <==> r == Acquired
  {
  }
}
