/**
 * The futex counting semaphore: a 32-bit token count raised by a wrapping
 * fetch-add and lowered only by a compare-exchange from v to v - 1 with v > 0.
 */
module Semaphores {
  import opened Words
  import opened Kernel
  import Atomics
  import Validation

  /**
   * One pass of the `wait` loop: the spin rounds it makes, then the futex
   * reply it gets if it goes on to sleep.
   */
  datatype Pass = Pass(steps: seq<SpinStep>, reply: SysCall)

  /**
   * A spin round claims a token when it loads a positive count and its weak
   * compare-exchange does not fail (neither spuriously nor because another
   * party changed the count after the load).
   */
  predicate Takes(step: SpinStep)
  {
    step.seen > 0 && !step.casFails
  }

  /** A C `for (i = 0; i < spin; i++)` runs `spin` times, and not at all for a negative `spin`. */
  function SpinCount(spin: i32): nat
  {
    if spin > 0 then spin else 0
  }

  /**
   * The result of `wait(blocking, ...)` on the passes `passes`: True as soon
   * as a spin round claims a token; False when a non-blocking call's spin
   * fails, or when a sleep times out; any other futex reply (a wake, EAGAIN,
   * EINTR, another error) starts a new pass.
   */
  function SemWaitSpec(passes: seq<Pass>, blocking: bool): Call<bool>
    decreases |passes|
  {
    if passes == [] then Unfinished
    else if FirstWhere(passes[0].steps, Takes) < |passes[0].steps| then Returned(true)
    else if !blocking then Returned(false)
    else if TimedOut(passes[0].reply) then Returned(false)
    else SemWaitSpec(passes[1..], blocking)
  }

  /** A non-blocking wait makes one pass and sleeps never. */
  lemma NonBlockingDecidedByFirstPass(passes: seq<Pass>)
    requires passes != []
    ensures SemWaitSpec(passes, false) == Returned(FirstWhere(passes[0].steps, Takes) < |passes[0].steps|)
  {
  }

  /** With no spin rounds, a non-blocking wait never claims a token. */
  lemma NoSpinNeverClaims(passes: seq<Pass>)
    requires passes != [] && passes[0].steps == []
    ensures SemWaitSpec(passes, false) == Returned(false)
  {
  }

  /** A blocking wait returns False only after a sleep that timed out. */
  lemma {:induction false} BlockingFalseOnlyOnTimeout(passes: seq<Pass>)
    requires SemWaitSpec(passes, true) == Returned(false)
    ensures exists k :: 0 <= k < |passes| && TimedOut(passes[k].reply)
    decreases |passes|
  {
    if !TimedOut(passes[0].reply) {
      BlockingFalseOnlyOnTimeout(passes[1..]);
      var k :| 0 <= k < |passes[1..]| && TimedOut(passes[1..][k].reply);
      assert passes[k + 1] == passes[1..][k];
    }
  }

  /** A wait returns True only when some spin round found a positive count. */
  lemma {:induction false} TrueNeedsToken(passes: seq<Pass>, blocking: bool)
    requires SemWaitSpec(passes, blocking) == Returned(true)
    ensures exists k, i :: 0 <= k < |passes| && 0 <= i < |passes[k].steps| && passes[k].steps[i].seen > 0
    decreases |passes|
  {
    var steps := passes[0].steps;
    var i := FirstWhere(steps, Takes);
    if i < |steps| {
      assert Takes(steps[i]);
      assert passes[0].steps[i].seen > 0;
    } else {
      TrueNeedsToken(passes[1..], blocking);
      var k, j :| 0 <= k < |passes[1..]| && 0 <= j < |passes[1..][k].steps| && passes[1..][k].steps[j].seen > 0;
      assert passes[k + 1] == passes[1..][k];
    }
  }

  class FutexSemaphore {
    const buf: Buffer32
    const shared: bool

    constructor (buf: Buffer32, shared: bool)
      requires Validation.Fits32(buf.address, buf.length)
      ensures this.buf == buf && this.shared == shared
    {
      this.buf := buf;
      this.shared := shared;
    }

    /**
     * `Semaphore(buffer, initial, shared)`. A short or misaligned buffer is a
     * ValueError; an `initial` that is negative or above 0xFFFFFFFF is an
     * OverflowError; neither writes the word. Without an `initial` (or with
     * None) the word is left as it is.
     */
    static method Init(buf: Buffer32, initial: Option<int>, shared: bool) returns (r: Result<FutexSemaphore>)
      modifies buf
      ensures r.Ok? <==> Validation.Fits32(buf.address, buf.length) && (initial.None? || 0 <= initial.value <= U32_MAX)
      ensures !Validation.Fits32(buf.address, buf.length) ==> r == Err(ValueError)
      ensures r.Err? ==> buf.word == old(buf.word)
      ensures r.Ok? ==> buf.word == if initial.Some? then initial.value else old(buf.word)
      ensures r.Err? ==> r.error == ValueError || r.error == OverflowError
      ensures Validation.Fits32(buf.address, buf.length) && initial.Some? && !(0 <= initial.value <= U32_MAX) ==>
        r == Err(OverflowError)
      ensures r.Ok? ==> fresh(r.value) && r.value.buf == buf && r.value.shared == shared
    {
      if buf.length < 4 || buf.address % 4 != 0 {
        return Err(ValueError);
      }
      var s := new FutexSemaphore(buf, shared);
      if initial.Some? {
        // PyLong_AsUnsignedLong refuses a negative value with OverflowError
        if initial.value < 0 || initial.value > U64_MAX {
          return Err(OverflowError);
        }
        if initial.value > U32_MAX {
          return Err(OverflowError);
        }
        buf.word := initial.value;
      }
      r := Ok(s);
    }

    /**
     * `post(n)`: add `n` to the count modulo 2^32 and, when the count was 0,
     * ask the kernel to wake `(int)n` sleepers.
     */
    method Post(n: u32) returns (wake: WakeCall)
      modifies buf
      ensures buf.word == Wrap32(old(buf.word) + n)
      ensures buf.word == Apply(old(buf.word), Posted(n))
      ensures wake == if old(buf.word) == 0 then WakeCall(ToCInt(n), shared) else NoWake
    {
      var prev := buf.word;
      buf.word := Wrap32(prev + n);
      if prev == 0 {
        wake := WakeCall(ToCInt(n), shared);
      } else {
        wake := NoWake;
      }
    }

    /** `post1()`: `post(1)`. */
    method Post1() returns (wake: WakeCall)
      modifies buf
      ensures buf.word == Wrap32(old(buf.word) + 1)
      ensures wake == if old(buf.word) == 0 then WakeCall(1, shared) else NoWake
    {
      wake := Post(1);
    }

    /** `value()` */
    method Value() returns (v: u32)
      ensures v == buf.word
    {
      v := buf.word;
    }

    /**
     * The spin of `wait`: each round loads the count and, when it is positive,
     * tries a weak compare-exchange from it to one less. A claimed token is
     * `observed - 1` left in the word; the count is never lowered otherwise.
     */
    method Spin(steps: seq<SpinStep>) returns (taken: bool, observed: u32)
      modifies buf
      ensures taken <==> FirstWhere(steps, Takes) < |steps|
      ensures taken ==> observed == steps[FirstWhere(steps, Takes)].seen && observed > 0 && buf.word == observed - 1
      ensures taken ==> buf.word == Apply(observed, TryTake)
      ensures !taken ==> buf.word == if steps == [] then old(buf.word) else steps[|steps| - 1].seen
    {
      var i := 0;
      while i < |steps|
        invariant i <= |steps|
        invariant forall j :: 0 <= j < i ==> !Takes(steps[j])
        invariant buf.word == if i == 0 then old(buf.word) else steps[i - 1].seen
      {
        var step := steps[i];
        buf.word := step.seen;
        var v := buf.word;
        if v > 0 {
          var weak := Atomics.WeakCompareExchange(buf.word, v, v - 1, step.casFails);
          buf.word := weak.word;
          if weak.success {
            return true, v;
          }
        }
        i := i + 1;
      }
      taken, observed := false, 0;
    }

    /**
     * `wait(blocking, timeout_ns, spin)`: spin; then return False if not
     * blocking, else sleep in a futex wait on 0 with the timeout and return
     * False only if that sleep timed out, spinning again otherwise.
     * `request` is the argument tuple of every sleep; `sleeps` counts them.
     */
    method Wait(blocking: bool, timeoutNs: i64, spin: i32, passes: seq<Pass>)
      returns (r: Call<bool>, request: WaitRequest, sleeps: nat, observed: u32)
      requires forall k | 0 <= k < |passes| :: |passes[k].steps| == SpinCount(spin)
      modifies buf
      ensures request == WaitRequest(0, TimeoutOf(timeoutNs), shared)
      ensures r == SemWaitSpec(passes, blocking)
      ensures r == Returned(true) ==> observed > 0 && buf.word == observed - 1
      ensures r == Returned(true) ==>
        (sleeps < |passes| && FirstWhere(passes[sleeps].steps, Takes) < |passes[sleeps].steps| &&
         observed == passes[sleeps].steps[FirstWhere(passes[sleeps].steps, Takes)].seen)
      ensures forall j | 0 <= j < sleeps && j < |passes| :: FirstWhere(passes[j].steps, Takes) == |passes[j].steps|
      ensures forall j | 0 <= j && j + 1 < sleeps && j < |passes| :: !TimedOut(passes[j].reply)
      ensures blocking && r == Returned(false) ==> 1 <= sleeps <= |passes| && TimedOut(passes[sleeps - 1].reply)
      ensures !blocking ==> sleeps == 0
      ensures sleeps <= |passes|
      ensures spin <= 0 && !blocking && passes != [] ==> r == Returned(false) && buf.word == old(buf.word)
    {
      var timeout := TimeoutOf(timeoutNs);
      request := WaitRequest(0, timeout, shared);
      sleeps := 0;
      var k := 0;
      while k < |passes|
        invariant k <= |passes|
        invariant SemWaitSpec(passes, blocking) == SemWaitSpec(passes[k..], blocking)
        invariant sleeps == k
        invariant !blocking ==> k == 0
        invariant k == 0 ==> buf.word == old(buf.word)
        invariant forall j | 0 <= j < k :: FirstWhere(passes[j].steps, Takes) == |passes[j].steps|
        invariant forall j | 0 <= j < k :: !TimedOut(passes[j].reply)
      {
        assert passes[k..][0] == passes[k];
        assert passes[k..][1..] == passes[k + 1..];
        var taken, v := Spin(passes[k].steps);
        if taken {
          return Returned(true), request, sleeps, v;
        }
        if !blocking {
          return Returned(false), request, sleeps, 0;
        }
        sleeps := sleeps + 1;
        var reply := passes[k].reply;
        if reply.ret == -1 && reply.errno == ETIMEDOUT {
          return Returned(false), request, sleeps, 0;
        }
        k := k + 1;
      }
      r, observed := Unfinished, 0;
    }
  }

  /**
   * A blocking wait whose first spin round loads 5 and claims returns True at
   * that pass and leaves 4, though a later pass could also have claimed.
   */
  method ClaimAtFirstPassScenario(s: FutexSemaphore) returns (r: Call<bool>)
    modifies s.buf
    ensures r == Returned(true) && s.buf.word == 4
  {
    var passes := [Pass([SpinStep(5, false)], SysCall(0, 0)), Pass([SpinStep(9, false)], SysCall(0, 0))];
    var request, sleeps, observed;
    r, request, sleeps, observed := s.Wait(true, -1, 1, passes);
  }

  /**
   * Token accounting over any interleaving of posts and claim attempts by
   * any threads. A claim is the compare-exchange from v to v - 1, which is
   * only tried when v > 0.
   */
  datatype SemStep = Posted(n: u32) | TryTake

  function Apply(count: u32, step: SemStep): u32
  {
    match step
    case Posted(n) => Wrap32(count + n)
    case TryTake => if count > 0 then count - 1 else count
  }

  function Replay(count: u32, steps: seq<SemStep>): u32
    decreases |steps|
  {
    if steps == [] then count else Replay(Apply(count, steps[0]), steps[1..])
  }

  /** How many of the claim attempts in `steps` took a token. */
  function Claimed(count: u32, steps: seq<SemStep>): nat
    decreases |steps|
  {
    if steps == [] then 0
    else (if steps[0].TryTake? && count > 0 then 1 else 0) + Claimed(Apply(count, steps[0]), steps[1..])
  }

  function TotalPosted(steps: seq<SemStep>): nat
    decreases |steps|
  {
    if steps == [] then 0
    else (if steps[0].Posted? then steps[0].n else 0) + TotalPosted(steps[1..])
  }

  /**
   * Safety of the count on every trace, wrapping posts included: the tokens
   * left plus the tokens claimed never exceed the initial count plus all
   * tokens posted. A wrap only loses tokens.
   */
  lemma {:induction false} ClaimsNeverExceedTokens(count: u32, steps: seq<SemStep>)
    ensures Replay(count, steps) + Claimed(count, steps) <= count + TotalPosted(steps)
    ensures Claimed(count, steps) <= count + TotalPosted(steps)
    decreases |steps|
  {
    if steps != [] {
      ClaimsNeverExceedTokens(Apply(count, steps[0]), steps[1..]);
    }
  }

  /**
   * Token conservation: while the count does not wrap, every token claimed
   * was there initially or posted, and the count holds exactly the rest; so
   * claims equal tokens once the count is drained.
   */
  lemma {:induction false} TokenConservation(count: u32, steps: seq<SemStep>)
    requires count + TotalPosted(steps) <= U32_MAX
    ensures Replay(count, steps) + Claimed(count, steps) == count + TotalPosted(steps)
    ensures Replay(count, steps) == 0 ==> Claimed(count, steps) == count + TotalPosted(steps)
    decreases |steps|
  {
    if steps != [] {
      TokenConservation(Apply(count, steps[0]), steps[1..]);
    }
  }

  /** A post to a full count wraps it around to zero: the width is the only bound. */
  lemma PostWrapsAtWidth(n: u32)
    requires n > 0
    ensures Apply(U32_MAX, Posted(n)) == n - 1
  {
  }
}
