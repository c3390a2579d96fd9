/** Go's fixed-width integers. Dafny's `int` is unbounded, so every place where
    the Go program converts between integer types or negates an `int` goes
    through the functions here, which make the two's-complement behaviour of
    the target platform explicit. */
module GoInt {

  const Two32: nat := 0x1_0000_0000
  const Two64: nat := 0x1_0000_0000_0000_0000

  /** A value of Go's `uint32` (the result type of crc32.ChecksumIEEE). */
  type Uint32 = x: int | 0 <= x < Two32

  /** The width of Go's `int` and `uint`, fixed by the platform the program is
      built for. */
  datatype Width = W32 | W64 {

    /** 2^bits: the number of distinct values of `int` (and of `uint`). */
    function Modulus(): (m: nat)
      ensures m == Two32 || m == Two64
    {
      if W32? then Two32 else Two64
    }

    /** math.MinInt for this width. */
    function MinInt(): (r: int)
      ensures r < 0 && r * -2 == Modulus()
    {
      -(Modulus() / 2)
    }

    /** math.MaxInt for this width. */
    function MaxInt(): (r: nat)
      ensures r == -MinInt() - 1
    {
      Modulus() / 2 - 1
    }

    /** math.MaxUint for this width. */
    function MaxUint(): (r: nat)
      ensures r + 1 == Modulus()
    {
      Modulus() - 1
    }
  }

  /** Whether `x` is representable as an `int` of width `w`. */
  predicate InIntRange(w: Width, x: int) {
    w.MinInt() <= x <= w.MaxInt()
  }

  /** Go's conversion `int(x)` of an integer of any type to an `int` of width
      `w`: the low bits are kept and read in two's complement. */
  function ToInt(w: Width, x: int): (r: int)
    ensures InIntRange(w, r)
    ensures w.W32? ==> (r - x) % 0x1_0000_0000 == 0
    ensures w.W64? ==> (r - x) % 0x1_0000_0000_0000_0000 == 0
    ensures InIntRange(w, x) ==> r == x
    ensures w.MaxInt() < x <= w.MaxUint() ==> r == x - w.Modulus()
  {
    match w
    case W32 => (x + 0x8000_0000) % 0x1_0000_0000 - 0x8000_0000
    case W64 => (x + 0x8000_0000_0000_0000) % 0x1_0000_0000_0000_0000 - 0x8000_0000_0000_0000
  }

  /** A `uint` result of width `w`: the exact value reduced modulo 2^bits,
      as Go's unsigned arithmetic wraps. */
  function ToUint(w: Width, x: int): (r: nat)
    ensures r <= w.MaxUint()
    ensures w.W32? ==> (r - x) % 0x1_0000_0000 == 0
    ensures w.W64? ==> (r - x) % 0x1_0000_0000_0000_0000 == 0
    ensures 0 <= x <= w.MaxUint() ==> r == x
  {
    match w
    case W32 => x % 0x1_0000_0000
    case W64 => x % 0x1_0000_0000_0000_0000
  }

  /** Go's unary minus on an `int` of width `w`: the negation of math.MinInt
      overflows back to math.MinInt, every other value is negated exactly. */
  function Negate(w: Width, v: int): (r: int)
    requires InIntRange(w, v)
    ensures InIntRange(w, r)
    ensures v == w.MinInt() ==> r == v
    ensures v != w.MinInt() ==> r == -v
  {
    ToInt(w, -v)
  }
}
