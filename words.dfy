/**
 * Machine words, the caller-owned memory a primitive is built over, and the
 * result shapes shared by every primitive.
 */
module Words {

  const U32_MAX: int := 0xFFFF_FFFF
  const U64_MAX: int := 0xFFFF_FFFF_FFFF_FFFF

  /** C `uint32_t` and `uint64_t` */
  type u32 = x: int | 0 <= x <= 0xFFFF_FFFF
  type u64 = x: int | 0 <= x <= 0xFFFF_FFFF_FFFF_FFFF
  /** C `int` and `long long` on the LP64 Linux targets the module is built for */
  type i32 = x: int | -0x8000_0000 <= x < 0x8000_0000
  type i64 = x: int | -0x8000_0000_0000_0000 <= x < 0x8000_0000_0000_0000

  /** Unsigned 32-bit addition, which wraps around modulo 2^32. */
  function Wrap32(x: int): (r: u32)
    ensures 0 <= x <= U32_MAX ==> r == x
    ensures U32_MAX < x <= 2 * U32_MAX + 1 ==> r == x - (U32_MAX + 1)
  {
    x % (U32_MAX + 1)
  }

  /** The C conversion `(int)n` of an `unsigned int` (two's complement, as GCC defines it). */
  function ToCInt(n: u32): (r: i32)
    ensures r % (U32_MAX + 1) == n
    ensures n < 0x8000_0000 <==> r >= 0
  {
    if n < 0x8000_0000 then n else n - (U32_MAX + 1)
  }

  /**
   * A caller-owned buffer whose first four bytes are read as one native-endian
   * `uint32_t`. Every primitive built over it borrows it; several primitives
   * may share one buffer.
   */
  class Buffer32 {
    const address: nat
    const length: nat
    var word: u32

    constructor (address: nat, length: nat, word: u32)
      ensures this.address == address && this.length == length && this.word == word
    {
      this.address := address;
      this.length := length;
      this.word := word;
    }
  }

  /** A caller-owned buffer whose first eight bytes are read as one `uint64_t`. */
  class Buffer64 {
    const address: nat
    const length: nat
    var word: u64

    constructor (address: nat, length: nat, word: u64)
      ensures this.address == address && this.length == length && this.word == word
    {
      this.address := address;
      this.length := length;
      this.word := word;
    }
  }

  /** The Python exceptions the primitives raise. */
  datatype Error = ValueError | RuntimeError | OverflowError | OSError(errno: int)

  datatype Result<+T> = Ok(value: T) | Err(error: Error)

  /**
   * The outcome of a call that may block: either it returned a value, or the
   * environment trace it was given ended while it was still spinning or asleep.
   */
  datatype Call<+T> = Returned(value: T) | Unfinished

  /**
   * One round of a spin loop as the environment shapes it: the word as other
   * parties left it when this thread loads it, and whether the weak
   * compare-exchange that may follow that load fails. It fails either
   * spuriously, as a weak compare-exchange may, or because another party
   * changed the word between the load and the compare-exchange; such a
   * change shows in the word only through the next round's load.
   */
  datatype SpinStep = SpinStep(seen: u32, casFails: bool)

  /** The index of the first element of `s` satisfying `p`, or `|s|` if none does. */
  function FirstWhere<T>(s: seq<T>, p: T -> bool): (r: nat)
    ensures r <= |s|
    ensures forall i :: 0 <= i < r ==> !p(s[i])
    ensures r < |s| ==> p(s[r])
  {
    if s == [] then 0
    else if p(s[0]) then 0
    else 1 + FirstWhere(s[1..], p)
  }
}
