# fastipc primitives, modelled in Dafny

This project models the C core of fastipc's `_primitives` extension. The core is a set of synchronization primitives, each working on one unsigned machine word that lives at the start of a caller-owned buffer:

- `FutexWord`: the raw futex wait/wake, plus an acquire load and a release store.
- `AtomicU32` and `AtomicU64`: load, store and strong compare-and-swap.
- `Mutex`: a three-state lock word. 0 is unlocked, 1 is locked, 2 is locked with possible sleepers.
- `Semaphore`: a 32-bit token count.

The modules are:

- `Words` (words.dfy): the C integer types and the caller's buffer. The buffer is a class (`Buffer32`, `Buffer64`) with a constant address and length and a mutable `word`. Every primitive holds its buffer as a `const` borrow, so two primitives may share one word. This module also holds the exception kinds, `Result`, and `Call`. A `Call` is either `Returned(v)` or `Unfinished`, the second meaning the environment trace ended while the call was still spinning or asleep.
- `Validation` (validation.dfy): `check_aligned` and the inline length/alignment test of the FutexWord, Mutex and Semaphore constructors.
- `Kernel` (kernel.dfy): the futex system call as an oracle. A wait reply is a return code and an `errno`; the kernel never writes the word. This module also splits a nanosecond timeout into a `timespec`.
- `FutexWords`, `Atomics`, `Mutexes`, `Semaphores`: one class per primitive. Each method makes the same atomic steps on `buf.word` as the C function, in the same order.

Strong compare-exchange follows section 7.17.7.4 of ISO/IEC 9899:2011. A weak compare-exchange (`__enter__` spin, `wait` spin) is a step that may also fail spuriously, and then it leaves the word alone.

Other threads and processes appear only as environment input:

- In a spin round (`SpinStep`), the environment supplies the value the word holds when this thread loads it, and whether the compare-exchange after that load fails. It may fail spuriously, or because another party changed the word between the load and the compare-exchange; both are this one flag, `casFails`, and such a change reaches the word only through the next load.
- In the mutex slow path, it supplies the value the word holds at the first exchange (so a release between the fast path or spin and that exchange is possible), and the value it holds when each futex wait returns.
- In `FutexWord.wait` and `Semaphore.wait`, it supplies the kernel's reply to each futex wait.

The pure transition systems `Mutexes.Run` and `Semaphores.Replay` describe any interleaving of atomic steps by any threads. The mutual-exclusion and token-conservation lemmas are stated over them. The methods are tied to their steps in their contracts: `TryAcquire` is a `CasLock` step of `Mutexes.Next`, and the exchange that decides `SlowPath` is an `ExchangeLock` step that grants the lock. `Post` and a claim in `Spin` change the count as a `Semaphores.Apply` step does.

The model follows these facts of the code:

- `acquire` (line 571 binds it to `FutexMutex_acquire_fast`) has no spin phase. Only `__enter__` spins, 16 times.
- `FutexMutex_acquire_fast` assigns an undeclared `blocked` (line 518), so the file as written does not compile. The model takes the evident intent: exchange to 2, and while the previous value was not 0, sleep and repeat.
- `Semaphore.wait` never raises OSError. Any futex reply other than a timeout (a wake, EAGAIN, EINTR or any error) sends it back to spinning.
- `check_aligned` never returns a negative value, so the RuntimeError branches of the atomic constructors cannot be taken (`assert ok == 1` in the model).

## Model

| member | source | states |
|---|---|---|
| `Validation.CheckAligned` | src/fastipc/_primitives/_primitives.c:200-207 | 1 exactly when length >= size and the address is a multiple of the alignment, 0 exactly otherwise, never negative |
| `Validation.InlineCheckAgrees` | src/fastipc/_primitives/_primitives.c:71 | the inline test (length below 4 or address not a multiple of 4) rejects exactly the buffers `check_aligned(buf, len, 4, 4)` rejects |
| `Kernel.TimeoutOf` | src/fastipc/_primitives/_primitives.c:112-118 | a negative timeout means no timeout; otherwise `tv_nsec` is in [0, 10^9) and `tv_sec * 10^9 + tv_nsec` is the timeout |
| `Kernel.TimeoutUnique` | src/fastipc/_primitives/_primitives.c:697-703 | the split is the only normalized timespec for a non-negative timeout |
| `FutexWords.FutexWord.Init` | src/fastipc/_primitives/_primitives.c:59-84 | ValueError exactly for a buffer shorter than 4 bytes or not 4-byte aligned; otherwise a new FutexWord over that buffer with the given shared flag |
| `FutexWords.FutexWord.Wait` | src/fastipc/_primitives/_primitives.c:104-141 | the result is the first kernel reply that is not a retried EINTR, classified as True (ret 0), False (EAGAIN, ETIMEDOUT, EINTR with a timeout) or OSError (any other errno); every call uses `(expected, timeout or null, shared)`; the number of futex calls is one more than the retries; the word is never written |
| `FutexWords.TimedWaitCallsOnce` | src/fastipc/_primitives/_primitives.c:131-135 | with a timeout, wait makes exactly one futex call and its reply decides the result |
| `FutexWords.UntimedWaitSkipsInterrupts` | src/fastipc/_primitives/_primitives.c:136-137 | without a timeout, an EINTR reply is retried: the result is that of the remaining replies, after one more call |
| `FutexWords.WokenIffZeroReturn` | src/fastipc/_primitives/_primitives.c:126 | wait returns True exactly when the deciding futex call returned 0 |
| `FutexWords.OSErrorOnlyForUnknownErrno` | src/fastipc/_primitives/_primitives.c:127-139 | OSError carries the errno of a failed call, and that errno is neither EAGAIN, ETIMEDOUT nor EINTR |
| `FutexWords.FutexWord.Wake` | src/fastipc/_primitives/_primitives.c:143-159 | issues one FUTEX_WAKE for n with the shared flag; returns the kernel's count when it is non-negative, else OSError with the kernel's errno |
| `FutexWords.FutexWord.LoadAcquire` | src/fastipc/_primitives/_primitives.c:161-165 | returns the word |
| `FutexWords.FutexWord.StoreRelease` | src/fastipc/_primitives/_primitives.c:166-173 | the word becomes the stored value |
| `Atomics.CompareExchange` | src/fastipc/_primitives/_primitives.c:295-297 | strong CAS succeeds exactly when the word equals `expected`; then the word is `desired`, otherwise unchanged; the observed value is the old word |
| `Atomics.StaleCasNeverSucceeds` | src/fastipc/_primitives/_primitives.c:295-302 | repeating a CAS whose `expected` is stale any number of times never changes the word |
| `Atomics.WeakCompareExchange` | src/fastipc/_primitives/_primitives.c:540 | a weak CAS writes only `desired` and only over `expected`; a failed one leaves the word alone; without a spurious failure it is the strong CAS |
| `Atomics.AtomicU32.Init` | src/fastipc/_primitives/_primitives.c:216-246 | ValueError exactly when the buffer is shorter than 4 bytes or not 4-byte aligned; the RuntimeError branch is unreachable |
| `Atomics.AtomicU32.Load` | src/fastipc/_primitives/_primitives.c:254-259 | returns the word |
| `Atomics.AtomicU32.Store` | src/fastipc/_primitives/_primitives.c:261-275 | a value above 0xFFFFFFFF is an OverflowError with the word unchanged; otherwise the word becomes the value |
| `Atomics.AtomicU32.Cas` | src/fastipc/_primitives/_primitives.c:277-303 | OverflowError with the word unchanged exactly when either argument exceeds 0xFFFFFFFF; otherwise True exactly when the word equalled `expected`, with the word updated as a strong CAS |
| `Atomics.AtomicU64.Init` | src/fastipc/_primitives/_primitives.c:336-366 | ValueError exactly when the buffer is shorter than 8 bytes or not 8-byte aligned |
| `Atomics.AtomicU64.Load` | src/fastipc/_primitives/_primitives.c:374-379 | returns the word |
| `Atomics.AtomicU64.Store` | src/fastipc/_primitives/_primitives.c:381-388 | the word becomes the value |
| `Atomics.AtomicU64.Cas` | src/fastipc/_primitives/_primitives.c:390-405 | True exactly when the word equalled `expected`; the word updated as a strong CAS |
| `Atomics.StoreThenLoad` | src/fastipc/_primitives/_primitives.c:254-275 | a store followed by a load returns the stored value, at 32 and 64 bits |
| `Mutexes.FutexMutex.Init` | src/fastipc/_primitives/_primitives.c:439-461 | ValueError exactly for a short or misaligned buffer; the word is not touched |
| `Mutexes.FutexMutex.TryAcquire` | src/fastipc/_primitives/_primitives.c:488-497 | succeeds exactly when the word was 0, leaving it 1; otherwise the word is unchanged; the effect is one `CasLock` step of `Next`, granting the lock exactly when it succeeds |
| `Mutexes.FutexMutex.Release` | src/fastipc/_primitives/_primitives.c:469-485 | the word becomes 0; one wake of one waiter is issued exactly when the word was 2; from 0 or 1 nothing is woken |
| `Mutexes.FutexMutex.Exit` | src/fastipc/_primitives/_primitives.c:565-568 | behaves as release |
| `Mutexes.FutexMutex.SlowPath` | src/fastipc/_primitives/_primitives.c:550-561 | exchanges the word to 2 until an exchange finds 0; the lock is taken exactly when the deciding exchange is an `ExchangeLock` step of `Next` that grants it; the number of futex waits is the index of the first 0 seen; the lock is taken exactly when a 0 is seen; the word is left at 2; every futex wait is on the value 2, with no timeout and the shared flag |
| `Mutexes.SlowPathTakesIffUnlockSeen` | src/fastipc/_primitives/_primitives.c:509-519 | the slow path takes the lock exactly when the first exchange or a post-wake exchange finds 0 |
| `Mutexes.SlowPathFirstNotUnlocked` | src/fastipc/_primitives/_primitives.c:509-519 | when the first exchange finds the lock held, the waits are one more than the index of the first 0 found after a wake |
| `Mutexes.FutexMutex.Acquire` | src/fastipc/_primitives/_primitives.c:499-521 | returns True exactly when the word was 0 at the fast path, 0 at the first exchange, or 0 after some wake; word 1 after the fast path with no wait; word 2 after the slow path, which takes the lock without waiting when the first exchange finds 0 and otherwise waits once more than the index of the first 0 after a wake; every futex wait is on 2 with no timeout |
| `Mutexes.FutexMutex.Enter` | src/fastipc/_primitives/_primitives.c:523-564 | returns the mutex itself; at most 16 spin rounds; the fast path and the spin leave the word 1 and are taken exactly when the word was 0 or a spin round loads 0 and its compare-exchange does not fail (spuriously or through another party's write after the load); otherwise the slow path decides from the word at its first exchange and after each wake, and leaves 2; every futex wait is on 2 with no timeout |
| `Mutexes.GrantOnlyFromUnlocked` | src/fastipc/_primitives/_primitives.c:504-513 | a step grants the lock only when the word was 0 |
| `Mutexes.MutualExclusion` | src/fastipc/_primitives/_primitives.c:469-564 | under any interleaving of CAS 0->1, exchange to 2 and release steps, where each release is made by the holder or on an unlocked mutex, at most one thread holds the lock, the word stays in {0,1,2}, and it is 0 exactly when nobody holds the lock |
| `Mutexes.WordStaysInStates` | src/fastipc/_primitives/_primitives.c:469-564 | a word starting in {0,1,2} stays in {0,1,2} under any sequence of mutex steps |
| `Mutexes.TryAcquireScenario` | src/fastipc/_primitives/_primitives.c:469-497 | on a zeroed word: A's try_acquire True, B's False, A releases with no wake, B's try_acquire True |
| `Semaphores.FutexSemaphore.Init` | src/fastipc/_primitives/_primitives.c:604-645 | ValueError for a short or misaligned buffer, OverflowError for a negative or >0xFFFFFFFF initial, neither writing the word; with no initial (or None) the word is untouched; otherwise it becomes the initial count |
| `Semaphores.FutexSemaphore.Post` | src/fastipc/_primitives/_primitives.c:653-671 | count becomes (count + n) mod 2^32, an `Apply` step of `Posted(n)`; a wake for `(int)n` waiters is issued exactly when the count was 0 |
| `Semaphores.FutexSemaphore.Post1` | src/fastipc/_primitives/_primitives.c:673-686 | post with n = 1 |
| `Semaphores.FutexSemaphore.Value` | src/fastipc/_primitives/_primitives.c:748-752 | returns the count |
| `Semaphores.FutexSemaphore.Spin` | src/fastipc/_primitives/_primitives.c:707-719 | claims a token exactly when some round loads a positive count and its compare-exchange does not fail (spuriously or through another party's write after the load); a claim leaves one less than the count observed, which was positive (an `Apply` step of `TryTake`), so the count never underflows |
| `Semaphores.FutexSemaphore.Wait` | src/fastipc/_primitives/_primitives.c:688-730 | the result follows the spin-then-sleep loop; every pass before the last claimed nothing, and every sleep before the last did not time out; a True result comes from the first claiming round of the last pass, and leaves the count one below the positive count that round loaded; a blocking False comes from a last sleep that timed out; non-blocking waits never sleep, and with spin <= 0 they return False leaving the count as it was; every sleep is a futex wait on 0 with the converted timeout |
| `Semaphores.ClaimAtFirstPassScenario` | src/fastipc/_primitives/_primitives.c:707-716 | a blocking wait whose first pass loads 5 and claims returns True there and leaves 4, even though its second pass could also claim |
| `Semaphores.NonBlockingDecidedByFirstPass` | src/fastipc/_primitives/_primitives.c:720-721 | a non-blocking wait returns True exactly when its one spin claims a token, False otherwise |
| `Semaphores.NoSpinNeverClaims` | src/fastipc/_primitives/_primitives.c:707 | with no spin rounds a non-blocking wait returns False |
| `Semaphores.BlockingFalseOnlyOnTimeout` | src/fastipc/_primitives/_primitives.c:722-729 | a blocking wait returns False only after a futex wait that reported ETIMEDOUT |
| `Semaphores.TrueNeedsToken` | src/fastipc/_primitives/_primitives.c:709-716 | a wait returns True only when some spin round found a positive count |
| `Semaphores.ClaimsNeverExceedTokens` | src/fastipc/_primitives/_primitives.c:660-713 | under any interleaving of posts and claims, wrapping posts included, count + claimed never exceeds initial + posted, so claims never exceed tokens |
| `Semaphores.TokenConservation` | src/fastipc/_primitives/_primitives.c:660-713 | while the count does not wrap, count + claimed = initial + posted under any interleaving of posts and claims, and claims equal tokens once the count is 0 |
| `Semaphores.PostWrapsAtWidth` | src/fastipc/_primitives/_primitives.c:660 | posting to a count of 0xFFFFFFFF wraps around |

## Left out

- The futex system call and the kernel's wait queues. A wait is an oracle reply that never writes the word. A wake is recorded as the request issued (`WakeCall`); only `FutexWord.wake` looks at its reply. Wake counts are advisory, and "no lost wakeup" is a liveness property of real interleavings.
- Memory ordering (acquire, release, acq_rel) and true concurrency. Other threads are modelled as environment values at the points listed above, and as arbitrary interleavings in `Mutexes.Run` and `Semaphores.Replay`.
- Blocking forever. Each blocking call is given a finite environment trace and reports `Unfinished` when the trace ends before the call returns. The model does not state bounded wake latency.
- CPython glue: argument parsing, buffer pinning and reference counts, `repr`, the type tables, `dealloc`, `PyInit__primitives`. Arguments are taken at the C type they are parsed into, so the parser's own conversions ('k', 'K' and 'I' mask out-of-range integers) and its TypeErrors are not modelled. Neither are the keyword defaults: every argument is passed explicitly (the source's defaults are shared True, timeout_ns -1, wake and post n 1, blocking True, spin 16).
- The compile-time lock-free assertions (lines 31-32) and `CPU_RELAX`.
- `FutexSemaphore_wait_fast` (lines 733-746), which is unused and loops forever.
- A 32-bit and a 64-bit view of the same bytes: `Buffer32` and `Buffer64` are separate words.
- The futex waits inside the mutex slow path: their replies are ignored by the source and are not modelled.
- Mutexes.MutualExclusion: a release by a thread that does not hold a held lock is not a step of `Next`. `release` does not check ownership, so such a release lets a second thread in; mutual exclusion holds only for callers that release what they hold.
- Semaphores.FutexSemaphore.Wait: when the result is not True, the model does not state that the call itself left the count alone. Environment writes at spin rounds land in the same word, so only "the only write of the call is the claim" is modelled, in `Spin`'s body and its True case.
- src/fastipc/guarded_shared_memory.py, src/fastipc/named_mutex.py, src/fastipc/named_semaphore.py and setup.py: shared-memory setup, PID files, process probes and forwarding wrappers, all I/O or float conversion.
