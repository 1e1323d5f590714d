/**
 * The futex mutex: a three-state word (0 unlocked, 1 locked, 2 locked with
 * possible sleepers) changed only by compare-exchange and exchange.
 */
module Mutexes {
  import opened Words
  import opened Kernel
  import Atomics
  import Validation

  const UNLOCKED: u32 := 0
  const LOCKED: u32 := 1
  const CONTENDED: u32 := 2

  /** How many times `__enter__` retries the compare-exchange before it sleeps. */
  const ENTER_SPINS: nat := 16

  /**
   * A spin round of `__enter__` takes the lock when it loads 0 and its weak
   * compare-exchange does not fail (neither spuriously nor because another
   * party took the word after the load).
   */
  predicate Claims(step: SpinStep)
  {
    step.seen == UNLOCKED && !step.casFails
  }

  /** An exchange takes the lock when it finds the word 0. */
  predicate IsUnlocked(w: u32)
  {
    w == UNLOCKED
  }

  /** The argument tuple of every slow-path futex wait: sleep while the word is 2, with no timeout. */
  function SlowPathRequest(shared: bool): WaitRequest
  {
    WaitRequest(CONTENDED, None, shared)
  }

  /**
   * The slow path, given the word it first exchanges and the words found
   * after each futex wait returns: the number of futex waits issued (the
   * last one still asleep when no 0 is ever found), and whether the lock was
   * taken.
   */
  function SlowPathWaits(first: u32, woken: seq<u32>): nat
  {
    FirstWhere([first] + woken, IsUnlocked)
  }

  /** The slow path takes the lock exactly when some exchange finds the word 0. */
  lemma SlowPathTakesIffUnlockSeen(first: u32, woken: seq<u32>)
    ensures SlowPathWaits(first, woken) < |woken| + 1 <==> (first == UNLOCKED || UNLOCKED in woken)
  {
  }

  class FutexMutex {
    const buf: Buffer32
    const shared: bool

    constructor (buf: Buffer32, shared: bool)
      requires Validation.Fits32(buf.address, buf.length)
      ensures this.buf == buf && this.shared == shared
    {
      this.buf := buf;
      this.shared := shared;
    }

    /** `Mutex(buffer, shared)`: a ValueError for a short or misaligned buffer; the word is not touched. */
    static method Init(buf: Buffer32, shared: bool) returns (r: Result<FutexMutex>)
      ensures r.Ok? <==> Validation.Fits32(buf.address, buf.length)
      ensures r.Err? ==> r.error == ValueError
      ensures r.Ok? ==> fresh(r.value) && r.value.buf == buf && r.value.shared == shared
    {
      if buf.length < 4 || buf.address % 4 != 0 {
        return Err(ValueError);
      }
      var m := new FutexMutex(buf, shared);
      r := Ok(m);
    }

    /** `try_acquire()`: one strong compare-exchange from 0 to 1. */
    method TryAcquire() returns (ok: bool)
      modifies buf
      ensures ok <==> old(buf.word) == UNLOCKED
      ensures buf.word == if ok then LOCKED else old(buf.word)
      ensures LockState(buf.word, if ok then 1 else 0) == Next(LockState(old(buf.word), 0), CasLock)
    {
      var outcome := Atomics.CompareExchange(buf.word, UNLOCKED, LOCKED);
      buf.word := outcome.word;
      ok := outcome.success;
    }

    /**
     * `release()`: exchange the word to 0 and wake one sleeper only when it
     * was 2. Releasing from 1, or releasing an unlocked mutex, wakes nobody.
     */
    method Release() returns (wake: WakeCall)
      modifies buf
      ensures buf.word == UNLOCKED
      ensures wake == if old(buf.word) == CONTENDED then WakeCall(1, shared) else NoWake
    {
      var prev := buf.word;
      buf.word := UNLOCKED;
      if prev == CONTENDED {
        wake := WakeCall(1, shared);
      } else {
        wake := NoWake;
      }
    }

    /** `__exit__`: a release. */
    method Exit() returns (wake: WakeCall)
      modifies buf
      ensures buf.word == UNLOCKED
      ensures wake == if old(buf.word) == CONTENDED then WakeCall(1, shared) else NoWake
    {
      wake := Release();
    }

    /**
     * The slow path shared by `acquire` and `__enter__`: exchange the word to
     * 2; if it was 0 the lock is taken (and left at 2), otherwise sleep in a
     * futex wait on 2 and try again. `woken[k]` is the word as other parties
     * left it when the k-th wait returns. Every exchange is an `ExchangeLock`
     * step, and every wait uses `request`.
     */
    method SlowPath(woken: seq<u32>) returns (acquired: bool, waits: nat, request: WaitRequest)
      modifies buf
      ensures waits == SlowPathWaits(old(buf.word), woken)
      ensures acquired <==> waits < |woken| + 1
      ensures buf.word == CONTENDED
      ensures acquired <==> waits <= |woken| && Next(LockState(([old(buf.word)] + woken)[waits], 0), ExchangeLock).holders == 1
      ensures request == SlowPathRequest(shared)
    {
      request := SlowPathRequest(shared);
      ghost var obs := [buf.word] + woken;
      var c := buf.word;
      buf.word := CONTENDED;
      waits := 0;
      while c != UNLOCKED && waits < |woken|
        invariant waits <= |woken|
        invariant buf.word == CONTENDED
        invariant c == obs[waits]
        invariant forall j :: 0 <= j < waits ==> !IsUnlocked(obs[j])
        decreases |woken| - waits
      {
        buf.word := woken[waits];
        waits := waits + 1;
        c := buf.word;
        buf.word := CONTENDED;
      }
      acquired := c == UNLOCKED;
      if !acquired {
        waits := waits + 1;
      }
    }

    /**
     * `acquire()`: a strong compare-exchange from 0 to 1, then the slow path;
     * there is no spin. It returns True once it holds the lock, which it does
     * exactly when the word is 0 at the fast path or at some exchange.
     * `first` is the word as other parties left it when the first exchange
     * runs; a release in between lets the slow path take the lock without
     * sleeping.
     */
    method Acquire(first: u32, woken: seq<u32>) returns (r: Call<bool>, waits: nat, request: WaitRequest)
      modifies buf
      ensures r.Returned? ==> r.value
      ensures r.Returned? <==> old(buf.word) == UNLOCKED || first == UNLOCKED || UNLOCKED in woken
      ensures old(buf.word) == UNLOCKED ==> buf.word == LOCKED && waits == 0
      ensures old(buf.word) != UNLOCKED ==> buf.word == CONTENDED && waits == SlowPathWaits(first, woken)
      ensures old(buf.word) != UNLOCKED && first == UNLOCKED ==> r.Returned? && waits == 0
      ensures old(buf.word) != UNLOCKED && first != UNLOCKED ==> waits == 1 + FirstWhere(woken, IsUnlocked)
      ensures request == SlowPathRequest(shared)
    {
      request := SlowPathRequest(shared);
      var outcome := Atomics.CompareExchange(buf.word, UNLOCKED, LOCKED);
      buf.word := outcome.word;
      if outcome.success {
        return Returned(true), 0, request;
      }
      buf.word := first;
      var acquired;
      acquired, waits, request := SlowPath(woken);
      SlowPathTakesIffUnlockSeen(first, woken);
      if first != UNLOCKED {
        SlowPathFirstNotUnlocked(first, woken);
      }
      r := if acquired then Returned(true) else Unfinished;
    }

    /**
     * `__enter__`: the fast compare-exchange, then at most 16 rounds of "load;
     * if 0, weak compare-exchange to 1", then the slow path. The fast path and
     * the spin only ever write 1, and only over a 0. `first` is the word as
     * other parties left it when the first slow-path exchange runs.
     */
    method Enter(spin: seq<SpinStep>, first: u32, woken: seq<u32>)
      returns (r: Call<FutexMutex>, spins: nat, waits: nat, request: WaitRequest)
      requires |spin| == ENTER_SPINS
      modifies buf
      ensures spins <= ENTER_SPINS
      ensures r.Returned? ==> r.value == this
      ensures old(buf.word) == UNLOCKED ==> r.Returned? && buf.word == LOCKED && spins == 0 && waits == 0
      ensures old(buf.word) != UNLOCKED && FirstWhere(spin, Claims) < ENTER_SPINS ==>
        r.Returned? && buf.word == LOCKED && spins == FirstWhere(spin, Claims) + 1 && waits == 0
      ensures old(buf.word) != UNLOCKED && FirstWhere(spin, Claims) == ENTER_SPINS ==>
        spins == ENTER_SPINS && buf.word == CONTENDED &&
        waits == SlowPathWaits(first, woken) &&
        (r.Returned? <==> first == UNLOCKED || UNLOCKED in woken)
      ensures request == SlowPathRequest(shared)
    {
      request := SlowPathRequest(shared);
      var outcome := Atomics.CompareExchange(buf.word, UNLOCKED, LOCKED);
      buf.word := outcome.word;
      if outcome.success {
        return Returned(this), 0, 0, request;
      }
      spins := 0;
      while spins < ENTER_SPINS
        invariant spins <= ENTER_SPINS
        invariant forall j :: 0 <= j < spins ==> !Claims(spin[j])
      {
        var step := spin[spins];
        buf.word := step.seen;
        var v := buf.word;
        spins := spins + 1;
        if v == UNLOCKED {
          var weak := Atomics.WeakCompareExchange(buf.word, UNLOCKED, LOCKED, step.casFails);
          buf.word := weak.word;
          if weak.success {
            return Returned(this), spins, 0, request;
          }
        }
      }
      buf.word := first;
      var acquired;
      acquired, waits, request := SlowPath(woken);
      SlowPathTakesIffUnlockSeen(first, woken);
      r := if acquired then Returned(this) else Unfinished;
    }
  }

  /** When the first exchange finds the word held, the waits are one more than the index of the first 0 in `woken`. */
  lemma SlowPathFirstNotUnlocked(first: u32, woken: seq<u32>)
    requires first != UNLOCKED
    ensures SlowPathWaits(first, woken) == 1 + FirstWhere(woken, IsUnlocked)
  {
  }

  /**
   * The mutex seen as a transition system over atomic steps taken by any
   * threads in any interleaving. `holders` counts the threads that hold the
   * lock; the steps change the word exactly as the methods above do.
   */
  datatype LockState = LockState(word: u32, holders: nat)

  datatype LockStep =
    | CasLock       // a strong or weak compare-exchange 0 -> 1 (try_acquire, fast path, spin)
    | ExchangeLock  // a slow-path exchange to 2
    | Unlock        // release by the holder, or a release of an unlocked mutex

  function Next(s: LockState, step: LockStep): LockState
  {
    match step
    case CasLock =>
      var outcome := Atomics.CompareExchange(s.word, UNLOCKED, LOCKED);
      LockState(outcome.word, if outcome.success then s.holders + 1 else s.holders)
    case ExchangeLock =>
      LockState(CONTENDED, if s.word == UNLOCKED then s.holders + 1 else s.holders)
    case Unlock =>
      LockState(UNLOCKED, if s.holders > 0 then s.holders - 1 else 0)
  }

  function Run(s: LockState, steps: seq<LockStep>): LockState
    decreases |steps|
  {
    if steps == [] then s else Run(Next(s, steps[0]), steps[1..])
  }

  /** The word is one of the three states, at most one thread holds the lock, and it is held exactly when the word is not 0. */
  predicate Inv(s: LockState)
  {
    s.word <= CONTENDED && s.holders <= 1 && (s.holders == 0 <==> s.word == UNLOCKED)
  }

  /** A step grants the lock only from an unlocked word. */
  lemma GrantOnlyFromUnlocked(s: LockState, step: LockStep)
    ensures Next(s, step).holders > s.holders ==> s.word == UNLOCKED
  {
  }

  /** Mutual exclusion: every interleaving of mutex steps keeps the invariant, so never two holders. */
  lemma {:induction false} MutualExclusion(s: LockState, steps: seq<LockStep>)
    requires Inv(s)
    ensures Inv(Run(s, steps))
    ensures Run(s, steps).holders <= 1
    decreases |steps|
  {
    if steps != [] {
      MutualExclusion(Next(s, steps[0]), steps[1..]);
    }
  }

  /** A word that starts in {0, 1, 2} stays in {0, 1, 2} under any sequence of mutex steps. */
  lemma WordStaysInStates(w: u32, steps: seq<LockStep>)
    requires w <= CONTENDED
    ensures Run(LockState(w, if w == UNLOCKED then 0 else 1), steps).word <= CONTENDED
  {
    MutualExclusion(LockState(w, if w == UNLOCKED then 0 else 1), steps);
  }

  /**
   * Two threads over one zeroed mutex: A's try_acquire succeeds, B's fails;
   * after A releases, B's succeeds.
   */
  method TryAcquireScenario(a: FutexMutex, b: FutexMutex) returns (first: bool, second: bool, third: bool)
    requires a.buf == b.buf && a.buf.word == UNLOCKED
    modifies a.buf
    ensures first && !second && third
    ensures a.buf.word == LOCKED
  {
    first := a.TryAcquire();
    second := b.TryAcquire();
    var wake := a.Release();
    assert wake == NoWake;
    third := b.TryAcquire();
  }
}
