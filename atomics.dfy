/**
 * AtomicU32 and AtomicU64: load, store and strong compare-and-swap over one
 * word of a caller-owned buffer.
 */
module Atomics {
  import opened Words
  import Validation

  /**
   * One strong compare-exchange as section 7.17.7.4 of ISO/IEC 9899:2011
   * defines it: it succeeds exactly when the word equals `expected`, then
   * holding `desired`; on failure the word is left alone and `observed`
   * (what C writes back into `*expected`) is the value it holds.
   */
  datatype CasOutcome = CasOutcome(success: bool, word: nat, observed: nat)

  function CompareExchange(current: nat, expected: nat, desired: nat): (r: CasOutcome)
    ensures r.success <==> current == expected
    ensures r.word == (if r.success then desired else current)
    ensures r.observed == current
  {
    if current == expected then CasOutcome(true, desired, current)
    else CasOutcome(false, current, current)
  }

  /** A compare-exchange with a stale `expected` fails and changes nothing, however often it is repeated. */
  lemma {:induction false} StaleCasNeverSucceeds(current: nat, expected: nat, desired: nat, times: nat)
    requires current != expected
    ensures RepeatCas(current, expected, desired, times) == current
  {
    if times > 0 {
      StaleCasNeverSucceeds(current, expected, desired, times - 1);
    }
  }

  /** The word after `times` identical compare-exchanges starting from `current`. */
  function RepeatCas(current: nat, expected: nat, desired: nat, times: nat): nat
  {
    if times == 0 then current
    else CompareExchange(RepeatCas(current, expected, desired, times - 1), expected, desired).word
  }

  /**
   * A weak compare-exchange (`atomic_compare_exchange_weak_explicit`): like
   * the strong one, except that it may also fail without cause, and then it
   * too leaves the word alone.
   */
  function WeakCompareExchange(current: nat, expected: nat, desired: nat, spurious: bool): (r: CasOutcome)
    ensures r.success ==> current == expected && r.word == desired
    ensures !r.success ==> r.word == current
    ensures !spurious ==> r == CompareExchange(current, expected, desired)
  {
    if spurious then CasOutcome(false, current, current) else CompareExchange(current, expected, desired)
  }

  class AtomicU32 {
    const buf: Buffer32

    constructor (buf: Buffer32)
      requires Validation.CheckAligned(buf.address, buf.length, 4, 4) == 1
      ensures this.buf == buf
    {
      this.buf := buf;
    }

    /**
     * `AtomicU32(buffer)`: a ValueError when `check_aligned(buf, len, 4, 4)`
     * is 0. The RuntimeError the source raises on a negative result cannot
     * happen, because `check_aligned` is never negative.
     */
    static method Init(buf: Buffer32) returns (r: Result<AtomicU32>)
      ensures r.Ok? <==> buf.length >= 4 && buf.address % 4 == 0
      ensures r.Err? ==> r.error == ValueError
      ensures r.Ok? ==> fresh(r.value) && r.value.buf == buf
    {
      var ok := Validation.CheckAligned(buf.address, buf.length, 4, 4);
      if ok == 0 {
        return Err(ValueError);
      }
      assert ok == 1;
      var a := new AtomicU32(buf);
      r := Ok(a);
    }

    /** `load()` */
    method Load() returns (v: u32)
      ensures v == buf.word
    {
      v := buf.word;
    }

    /** `store(v)`, where `v` is the C `unsigned long` the argument was parsed into. */
    method Store(v: u64) returns (r: Result<()>)
      modifies buf
      ensures r.Ok? <==> v <= U32_MAX
      ensures r.Err? ==> r.error == OverflowError && buf.word == old(buf.word)
      ensures r.Ok? ==> buf.word == v
    {
      if v > U32_MAX {
        return Err(OverflowError);
      }
      buf.word := v;
      r := Ok(());
    }

    /** `cas(expected, new)`: both arguments are range checked before the word is touched. */
    method Cas(expected: u64, desired: u64) returns (r: Result<bool>)
      modifies buf
      ensures r.Err? <==> expected > U32_MAX || desired > U32_MAX
      ensures r.Err? ==> r.error == OverflowError && buf.word == old(buf.word)
      ensures r.Ok? ==> r.value == (old(buf.word) == expected)
      ensures r.Ok? ==> buf.word == CompareExchange(old(buf.word), expected, desired).word
    {
      if expected > U32_MAX || desired > U32_MAX {
        return Err(OverflowError);
      }
      var outcome := CompareExchange(buf.word, expected, desired);
      buf.word := outcome.word;
      r := Ok(outcome.success);
    }
  }

  class AtomicU64 {
    const buf: Buffer64

    constructor (buf: Buffer64)
      requires Validation.CheckAligned(buf.address, buf.length, 8, 8) == 1
      ensures this.buf == buf
    {
      this.buf := buf;
    }

    /** `AtomicU64(buffer)`: a ValueError when `check_aligned(buf, len, 8, 8)` is 0. */
    static method Init(buf: Buffer64) returns (r: Result<AtomicU64>)
      ensures r.Ok? <==> buf.length >= 8 && buf.address % 8 == 0
      ensures r.Err? ==> r.error == ValueError
      ensures r.Ok? ==> fresh(r.value) && r.value.buf == buf
    {
      var ok := Validation.CheckAligned(buf.address, buf.length, 8, 8);
      if ok == 0 {
        return Err(ValueError);
      }
      assert ok == 1;
      var a := new AtomicU64(buf);
      r := Ok(a);
    }

    /** `load()` */
    method Load() returns (v: u64)
      ensures v == buf.word
    {
      v := buf.word;
    }

    /** `store(v)`: every `unsigned long long` fits, so there is no range check. */
    method Store(v: u64)
      modifies buf
      ensures buf.word == v
    {
      buf.word := v;
    }

    /** `cas(expected, new)` */
    method Cas(expected: u64, desired: u64) returns (ok: bool)
      modifies buf
      ensures ok == (old(buf.word) == expected)
      ensures buf.word == CompareExchange(old(buf.word), expected, desired).word
    {
      var outcome := CompareExchange(buf.word, expected, desired);
      buf.word := outcome.word;
      ok := outcome.success;
    }
  }

  /** `store(x)` then `load()` gives `x` back, at both widths. */
  method StoreThenLoad(a: AtomicU32, b: AtomicU64, x: u32, y: u64) returns (vx: u32, vy: u64)
    modifies a.buf, b.buf
    ensures vx == x && vy == y
  {
    var stored := a.Store(x);
    b.Store(y);
    vx := a.Load();
    vy := b.Load();
  }
}
