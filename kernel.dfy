/**
 * The Linux futex system call as the primitives see it. The call itself is
 * not modelled: a wait is an oracle that reports a return code and `errno`
 * and never writes the word, and a wake is a request whose reply the
 * environment supplies.
 */
module Kernel {
  import opened Words

  /** Linux `errno` values the primitives test for. */
  const EINTR: int := 4
  const EAGAIN: int := 11
  const ETIMEDOUT: int := 110

  const NS_PER_SEC: int := 1_000_000_000

  /** What one `syscall(SYS_futex, ...)` reported: its return value and `errno` afterwards. */
  datatype SysCall = SysCall(ret: int, errno: int)

  /** A `struct timespec`. */
  datatype Timespec = Timespec(sec: int, nsec: int)

  /** The argument tuple of a FUTEX_WAIT (FUTEX_WAIT_PRIVATE when not shared). */
  datatype WaitRequest = WaitRequest(expected: u32, timeout: Option<Timespec>, shared: bool)

  /** A FUTEX_WAKE issued for `count` waiters, or no wake at all. */
  datatype WakeCall = NoWake | WakeCall(count: int, shared: bool)

  datatype Option<+T> = None | Some(value: T)

  function TotalNs(ts: Timespec): int
  {
    ts.sec * NS_PER_SEC + ts.nsec
  }

  predicate Normalized(ts: Timespec)
  {
    0 <= ts.sec && 0 <= ts.nsec < NS_PER_SEC
  }

  /**
   * The timeout handed to the kernel: a negative `timeout_ns` means "no
   * timeout" (a null pointer); otherwise the nanoseconds are split into whole
   * seconds and the remainder. C's truncating `/` and `%` agree with Dafny's
   * on the non-negative operands used here.
   */
  function TimeoutOf(timeoutNs: i64): (r: Option<Timespec>)
    ensures r.None? <==> timeoutNs < 0
    ensures r.Some? ==> Normalized(r.value) && TotalNs(r.value) == timeoutNs
  {
    if timeoutNs >= 0 then Some(Timespec(timeoutNs / NS_PER_SEC, timeoutNs % NS_PER_SEC))
    else None
  }

  /** The split is the only normalized timespec denoting `timeoutNs` nanoseconds. */
  lemma TimeoutUnique(timeoutNs: i64, ts: Timespec)
    requires Normalized(ts) && TotalNs(ts) == timeoutNs
    ensures TimeoutOf(timeoutNs) == Some(ts)
  {
  }

  /** The kernel reported a timeout: `ret == -1 && errno == ETIMEDOUT`. */
  predicate TimedOut(call: SysCall)
  {
    call.ret == -1 && call.errno == ETIMEDOUT
  }
}
