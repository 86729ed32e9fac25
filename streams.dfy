/** Shared vocabulary of the hardware models: fixed-width unsigned integers
    with explicit wrap-around, powers of two, and the FIFO channel that an
    `hls::stream` is (read from the front, written at the back). */
module Streams {

  const U32: int := 0x1_0000_0000

  /** `uint32_t` and `unsigned int`. */
  type u32 = x: int | 0 <= x < U32

  /** `uint8_t` and `ap_uint<8>`. */
  type byte = x: int | 0 <= x < 256

  /** Reduction modulo 2^32: what C++ unsigned arithmetic does to an
      out-of-range result. */
  function Wrap32(x: int): (r: u32)
    ensures 0 <= x < U32 ==> r == x
  {
    x % 0x1_0000_0000
  }

  /** `x++` on a `uint32_t`. */
  function Inc32(x: u32): (r: u32)
    ensures r == Wrap32(x + 1)
  {
    if x == U32 - 1 then 0 else x + 1
  }

  /** `x - 1` on a `uint32_t`. */
  function Dec32(x: u32): (r: u32)
    ensures r == Wrap32(x - 1)
  {
    if x == 0 then U32 - 1 else x - 1
  }

  /** A `uint32_t` counter started at 0 and incremented `n` times. */
  function Count32(n: nat): u32
  {
    if n == 0 then 0 else Inc32(Count32(n - 1))
  }

  /** The counter holds the true count modulo 2^32. */
  lemma {:induction false} Count32IsWrap(n: nat)
    ensures Count32(n) == Wrap32(n)
  {
    if n > 0 {
      Count32IsWrap(n - 1);
      Wrap32Add(n - 1, 1);
    }
  }

  lemma CountMinusOne(k: nat)
    ensures Dec32(Count32(k + 1)) == Wrap32(k)
  {
    Count32IsWrap(k);
    Wrap32Add(k, 1);
    Wrap32Add(k + 1, -1);
  }

  function Pow2(k: nat): (r: nat)
    ensures r >= 1
  {
    if k == 0 then 1 else 2 * Pow2(k - 1)
  }

  /** Adding after a reduction modulo 2^32 reduces to the same value as
      adding first: a 32-bit counter stays congruent to the true count. */
  lemma Wrap32Add(x: int, d: int)
    ensures Wrap32(Wrap32(x) + d) == Wrap32(x + d)
  {
    var q := x / 0x1_0000_0000;
    assert x == q * 0x1_0000_0000 + Wrap32(x);
  }

  /** Integer division is determined by the bracketing multiples. */
  lemma DivUnique(x: int, b: int, q: int)
    requires b > 0 && q * b <= x < q * b + b
    ensures x / b == q && x % b == x - q * b
  {
    var p, r := x / b, x % b;
    assert x == p * b + r && 0 <= r < b;
    if p < q {
      MulMono(p + 1, q, b);
      assert false;
    } else if p > q {
      MulMono(q + 1, p, b);
      assert false;
    }
  }

  /** The quotient and its neighbour bracket the dividend. */
  lemma DivBounds(x: nat, b: nat)
    requires b >= 1
    ensures (x / b) * b <= x < (x / b + 1) * b
    ensures x / b <= x
  {
    var q, r := x / b, x % b;
    assert x == q * b + r;
    MulMono(q, q, b);
    MulMono(1, b, q);
  }

  /** Adding the divisor adds one to the quotient. */
  lemma DivShift(x: nat, b: nat)
    requires b >= 1
    ensures (x + b) / b == x / b + 1
  {
    DivBounds(x, b);
    MulMono(x / b + 1, x / b + 1, b);
    DivUnique(x + b, b, x / b + 1);
  }

  /** Dividing a positive number by at least two makes it smaller. */
  lemma DivShrinks(x: nat, b: nat)
    requires x >= 1 && b >= 2
    ensures x / b < x
  {
    var q := x / b;
    DivBounds(x, b);
    if q >= x {
      MulMono(2, b, q);
      assert false;
    }
  }

  lemma MulMono(a: int, c: int, b: int)
    requires a <= c && b >= 0
    ensures a * b <= c * b
    ensures (a + 1) * b == a * b + b
  {
    assert c * b == a * b + (c - a) * b;
  }

  /** An `hls::stream<T>`: a FIFO whose `read()` removes the front element
      and whose `write()` (or `<<`) appends at the back. A read on an empty
      stream blocks in hardware, so `Read` requires an element to be there. */
  class Fifo<T> {
    var items: seq<T>

    constructor (init: seq<T>)
      ensures items == init
    {
      items := init;
    }

    method Read() returns (x: T)
      requires items != []
      modifies this
      ensures x == old(items)[0]
      ensures items == old(items)[1..]
    {
      x := items[0];
      items := items[1..];
    }

    method Write(x: T)
      modifies this
      ensures items == old(items) + [x]
    {
      items := items + [x];
    }
  }
}
