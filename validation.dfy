/**
 * Buffer validation done when a primitive is constructed: the buffer must be
 * long enough for the word and naturally aligned for it.
 */
module Validation {

  /**
   * `check_aligned`: 1 when the buffer holds at least `size` bytes and its
   * address is a multiple of `align`, 0 otherwise. It never returns a negative
   * value, so the "not lock-free" branch its callers test for is dead.
   */
  function CheckAligned(address: nat, length: int, size: nat, align: nat): (r: int)
    requires align > 0
    ensures r == 1 <==> length >= size && address % align == 0
    ensures r == 0 <==> length < size || address % align != 0
    ensures r >= 0
  {
    if length < size then 0
    else if address % align != 0 then 0
    else 1
  }

  /**
   * The check written inline in the FutexWord, Mutex and Semaphore
   * constructors: a buffer of at least 4 bytes at a 4-byte aligned address.
   */
  predicate Fits32(address: nat, length: int)
  {
    !(length < 4 || address % 4 != 0)
  }

  /** The inline check and `check_aligned(buf, len, 4, 4)` accept the same buffers. */
  lemma InlineCheckAgrees(address: nat, length: int)
    ensures Fits32(address, length) <==> CheckAligned(address, length, 4, 4) == 1
  {
  }
}
