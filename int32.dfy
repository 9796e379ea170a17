/** C#'s 32-bit `int` as the framework's code evaluates it: in an unchecked context,
    so that sums and differences wrap around, and `1 << n` masks its shift count. */
module Int32 {

  const MinInt32: int := -0x8000_0000
  const MaxInt32: int := 0x7fff_ffff
  const Modulus: int := 0x1_0000_0000

  newtype int32 = x: int | -0x8000_0000 <= x < 0x8000_0000

  /** Two to the power `n`. */
  function Pow2(n: nat): (r: nat)
    ensures r >= 1
    ensures n > 0 ==> r % 2 == 0
  {
    if n == 0 then 1 else 2 * Pow2(n - 1)
  }

  lemma {:induction false} Pow2Add(a: nat, b: nat)
    ensures Pow2(a + b) == Pow2(a) * Pow2(b)
  {
    if a > 0 {
      Pow2Add(a - 1, b);
      calc {
        Pow2(a + b);
        2 * Pow2(a - 1 + b);
        2 * (Pow2(a - 1) * Pow2(b));
        (2 * Pow2(a - 1)) * Pow2(b);
      }
    }
  }

  lemma {:induction false} Pow2Strict(m: nat, n: nat)
    requires m < n
    ensures Pow2(m) < Pow2(n)
  {
    if m + 1 < n {
      Pow2Strict(m, n - 1);
    }
  }

  /** 2^31 is one more than the largest int32. */
  lemma Pow2ThirtyOne()
    ensures Pow2(31) == 0x8000_0000
  {
    assert Pow2(1) == 2 && Pow2(2) == 4;
    Pow2Add(2, 2);
    Pow2Add(4, 4);
    Pow2Add(8, 8);
    Pow2Add(16, 8);
    Pow2Add(24, 4);
    Pow2Add(28, 2);
    Pow2Add(30, 1);
  }

  /** The int32 that C# stores for the mathematical integer `x` when it wraps. */
  function Wrap32(x: int): (r: int32)
    ensures (r as int - x) % Modulus == 0
    ensures MinInt32 <= x <= MaxInt32 ==> r as int == x
  {
    ((x - MinInt32) % Modulus + MinInt32) as int32
  }

  /** C#'s `1 << count` on an int: only the low five bits of the count are used,
      and a shift by 31 lands on the sign bit. */
  function ShiftLeftOne(count: int): (r: int32)
    ensures count % 32 < 31 ==> r as int == Pow2(count % 32)
    ensures count % 32 == 31 ==> r as int == MinInt32
    ensures 0 <= count <= 30 ==> r as int == Pow2(count)
  {
    var k := count % 32;
    Pow2ThirtyOne();
    if k < 31 then
      Pow2Strict(k, 31);
      Wrap32(Pow2(k))
    else
      Wrap32(Pow2(k))
  }
}
