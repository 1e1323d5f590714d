/**
 * FutexWord: the raw wait/wake primitive over one 32-bit word, plus its
 * acquire load and release store.
 */
module FutexWords {
  import opened Words
  import opened Kernel
  import Validation

  /** What `FutexWord.wait` gives back: True, False, or a raised OSError. */
  datatype WaitResult = Woken | NotWoken | WaitError(errno: int)

  /** What the retry loop does with one futex reply: finish with a result, or call again. */
  datatype Step = Finish(result: WaitResult) | Retry

  /**
   * The reply table of the wait loop. Return code 0 is a wake; EAGAIN (the
   * word no longer held `expected`) and ETIMEDOUT are False; EINTR is False
   * when a timeout was given and a retry otherwise; any other errno is an
   * OSError.
   */
  function Classify(call: SysCall, timed: bool): Step
  {
    if call.ret == 0 then Finish(Woken)
    else if call.errno == EAGAIN then Finish(NotWoken)
    else if call.errno == ETIMEDOUT then Finish(NotWoken)
    else if call.errno == EINTR then (if timed then Finish(NotWoken) else Retry)
    else Finish(WaitError(call.errno))
  }

  /** Whether a reply ends the loop of a wait with a timeout. */
  predicate DecidesTimed(call: SysCall)
  {
    Classify(call, true).Finish?
  }

  /** Whether a reply ends the loop of a wait without a timeout. */
  predicate DecidesUntimed(call: SysCall)
  {
    Classify(call, false).Finish?
  }

  /** Whether a reply ends the loop, chosen by whether a timeout was given. */
  function Decides(timed: bool): SysCall -> bool
  {
    if timed then DecidesTimed else DecidesUntimed
  }

  /**
   * The result of a wait whose successive futex calls reply `calls`: the
   * first reply that is not a retried interrupt decides it.
   */
  function FutexWaitSpec(calls: seq<SysCall>, timed: bool): Call<WaitResult>
  {
    var k := FirstWhere(calls, Decides(timed));
    if k < |calls| then Returned(Classify(calls[k], timed).result) else Unfinished
  }

  /** How many futex calls a wait issues on `calls`. */
  function CallsMade(calls: seq<SysCall>, timed: bool): nat
  {
    var k := FirstWhere(calls, Decides(timed));
    if k < |calls| then k + 1 else |calls|
  }

  /** A timed wait issues exactly one futex call and never retries. */
  lemma TimedWaitCallsOnce(calls: seq<SysCall>)
    requires calls != []
    ensures CallsMade(calls, true) == 1
    ensures FutexWaitSpec(calls, true) == Returned(Classify(calls[0], true).result)
  {
  }

  /** An interrupt never reaches the caller of an untimed wait: it is retried. */
  lemma UntimedWaitSkipsInterrupts(calls: seq<SysCall>)
    requires calls != [] && calls[0].ret != 0 && calls[0].errno == EINTR
    ensures FutexWaitSpec(calls, false) == FutexWaitSpec(calls[1..], false)
    ensures CallsMade(calls, false) == 1 + CallsMade(calls[1..], false)
  {
  }

  /** The wait returns True exactly when the deciding futex call returned 0. */
  lemma WokenIffZeroReturn(calls: seq<SysCall>, timed: bool)
    ensures FutexWaitSpec(calls, timed) == Returned(Woken) <==>
      exists k :: 0 <= k < |calls| && calls[k].ret == 0 && forall j :: 0 <= j < k ==> !Decides(timed)(calls[j])
  {
  }

  /** OSError is raised only for an errno outside EAGAIN, ETIMEDOUT and EINTR, and only when the call failed. */
  lemma OSErrorOnlyForUnknownErrno(calls: seq<SysCall>, timed: bool, e: int)
    requires FutexWaitSpec(calls, timed) == Returned(WaitError(e))
    ensures e != EAGAIN && e != ETIMEDOUT && e != EINTR
    ensures exists k :: 0 <= k < |calls| && calls[k].ret != 0 && calls[k].errno == e
  {
  }

  class FutexWord {
    const buf: Buffer32
    const shared: bool

    constructor (buf: Buffer32, shared: bool)
      requires Validation.Fits32(buf.address, buf.length)
      ensures this.buf == buf && this.shared == shared
    {
      this.buf := buf;
      this.shared := shared;
    }

    /** `FutexWord(buffer, shared)`: a ValueError for a short or misaligned buffer; the word is not touched. */
    static method Init(buf: Buffer32, shared: bool) returns (r: Result<FutexWord>)
      ensures r.Ok? <==> Validation.Fits32(buf.address, buf.length)
      ensures r.Err? ==> r.error == ValueError
      ensures r.Ok? ==> fresh(r.value) && r.value.buf == buf && r.value.shared == shared
    {
      if buf.length < 4 || buf.address % 4 != 0 {
        return Err(ValueError);
      }
      var w := new FutexWord(buf, shared);
      r := Ok(w);
    }

    /**
     * `wait(expected, timeout_ns)`. The kernel's replies are `calls`, one per
     * futex call; the kernel never writes the word, and neither does this
     * method. `request` is the argument tuple every one of those calls uses.
     */
    method Wait(expected: u32, timeoutNs: i64, calls: seq<SysCall>)
      returns (r: Call<WaitResult>, request: WaitRequest, made: nat)
      ensures request == WaitRequest(expected, TimeoutOf(timeoutNs), shared)
      ensures r == FutexWaitSpec(calls, timeoutNs >= 0)
      ensures made == CallsMade(calls, timeoutNs >= 0)
      ensures made <= |calls| && (calls != [] ==> made >= 1)
    {
      var timeout := TimeoutOf(timeoutNs);
      request := WaitRequest(expected, timeout, shared);
      ghost var timed := timeout.Some?;
      made := 0;
      while made < |calls|
        invariant made <= |calls|
        invariant forall j :: 0 <= j < made ==> !Decides(timed)(calls[j])
      {
        var call := calls[made];
        made := made + 1;
        if call.ret == 0 {
          return Returned(Woken), request, made;
        }
        if call.errno == EAGAIN {
          return Returned(NotWoken), request, made;
        }
        if call.errno == ETIMEDOUT {
          return Returned(NotWoken), request, made;
        }
        if call.errno == EINTR {
          if timeout.Some? {
            return Returned(NotWoken), request, made;
          }
          continue;
        }
        return Returned(WaitError(call.errno)), request, made;
      }
      r := Unfinished;
    }

    /** `wake(n)`: the kernel's reply count, or an OSError when the call failed. */
    method Wake(n: i32, reply: SysCall) returns (r: Result<int>, call: WakeCall)
      ensures call == WakeCall(n, shared)
      ensures r.Ok? <==> reply.ret >= 0
      ensures r.Ok? ==> r.value == reply.ret
      ensures r.Err? ==> r.error == OSError(reply.errno)
    {
      call := WakeCall(n, shared);
      if reply.ret >= 0 {
        return Ok(reply.ret), call;
      }
      r := Err(OSError(reply.errno));
    }

    /** `load_acquire()` */
    method LoadAcquire() returns (v: u32)
      ensures v == buf.word
    {
      v := buf.word;
    }

    /** `store_release(v)` */
    method StoreRelease(v: u32)
      modifies buf
      ensures buf.word == v
    {
      buf.word := v;
    }
  }
}
