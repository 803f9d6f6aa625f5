/** src/base/bits.h, on 64-bit sizes and 32-bit words. */
module Bits {
  const TWO_64: nat := 0x1_0000_0000_0000_0000

  /** (size + alignment - 1) & ~(alignment - 1) in size_t: the wrapped sum with its low bits cleared. */
  function Align(size: nat, alignment: nat): nat
    requires alignment > 0
  {
    var sum := (size + alignment - 1) % TWO_64;
    sum - sum % alignment
  }

  lemma {:induction false} RemainderIsLowBits(x: bv64)
    ensures x % 4 == x & 3 && x % 64 == x & 63 && x % 4096 == x & 4095
  {
  }

  /** For the alignments in use, and-ing with the mask is what Align does: it takes the remainder off. */
  lemma {:induction false} MaskTakesRemainderOff(x: bv64)
    ensures (x & 0xFFFF_FFFF_FFFF_FFFC) + x % 4 == x
    ensures (x & 0xFFFF_FFFF_FFFF_FFC0) + x % 64 == x
    ensures (x & 0xFFFF_FFFF_FFFF_F000) + x % 4096 == x
  {
    RemainderIsLowBits(x);
  }

  lemma {:induction false} MultipleModulo(q: int, a: int)
    requires a > 0
    ensures (q * a) % a == 0
  {
    var k := (q * a) / a;
    assert (q - k) * a == (q * a) % a;
    assert q - k >= 1 ==> (q - k) * a >= a;
    assert q - k <= -1 ==> (q - k) * a <= -a;
  }

  lemma {:induction false} RoundDown(x: int, a: int)
    requires a > 0
    ensures x - x % a == x / a * a && (x - x % a) % a == 0
  {
    MultipleModulo(x / a, a);
  }

  lemma {:induction false} MultipleBelow(x: nat, a: nat)
    requires a > 0
    ensures x / a * a <= x < x / a * a + a
    ensures x / a >= 0 && (x >= a ==> x / a >= 1)
  {
    RoundDown(x, a);
  }

  /** Unless it wraps around, Align gives the least multiple that is not below size. */
  lemma {:induction false} AlignIsLeastMultiple(size: nat, alignment: nat)
    requires alignment > 0 && size + alignment <= TWO_64
    ensures Align(size, alignment) % alignment == 0
    ensures size <= Align(size, alignment) < size + alignment
  {
    RoundDown(size + alignment - 1, alignment);
  }

  function Pow2(k: nat): (p: nat)
    ensures p >= 1
  {
    if k == 0 then 1 else 2 * Pow2(k - 1)
  }

  lemma {:induction false} Pow2Add(j: nat, k: nat)
    ensures Pow2(j + k) == Pow2(j) * Pow2(k)
  {
    if k > 0 {
      Pow2Add(j, k - 1);
      assert Pow2(j) * (2 * Pow2(k - 1)) == 2 * (Pow2(j) * Pow2(k - 1));
    }
  }

  lemma {:induction false} ScaleDown(x: nat, p: nat, value: nat, q: nat)
    requires x * p <= value < x * p + p
    ensures x * (q * p) <= value * q && (value + 1) * q <= (x + 1) * (q * p)
  {
    assert x * (q * p) == (x * p) * q;
    assert (x + 1) * (q * p) == (x * p + p) * q;
    MultiplyKeepsOrder(x * p, value, q);
    MultiplyKeepsOrder(value + 1, x * p + p, q);
  }

  lemma {:induction false} MultiplyKeepsOrder(x: int, y: int, q: nat)
    requires x <= y
    ensures x * q <= y * q
  {
    assert (y - x) * q >= 0;
  }

  lemma {:induction false} ShiftStep(n: nat, value: nat, x: nat, p: nat, q: nat)
    requires x * p <= value < x * p + p && value * q <= n < (value + 1) * q
    ensures x * (q * p) <= n < (x + 1) * (q * p)
  {
    ScaleDown(x, p, value, q);
  }

  lemma {:induction false} Pow2Of32()
    ensures Pow2(Pow2(5)) == 0x1_0000_0000
  {
    assert Pow2(5) == 32 && Pow2(16) == 0x1_0000;
    Pow2Add(16, 16);
  }

  lemma {:induction false} HighHalf(value: nat, x: nat, p: nat)
    requires x * p <= value < x * p + p && value < p * p
    ensures x < p && (x == 0 <==> value < p)
  {
    if x >= p { MultiplyKeepsOrder(p, x, p); }
    if x >= 1 { MultiplyKeepsOrder(1, x, p); }
  }

  /** The search has found the bits above log; value is what remains above them, below 2^(2^i). */
  predicate Searching(n: nat, value: nat, log: nat, i: nat) {
    1 <= value < Pow2(Pow2(i)) && value * Pow2(log) <= n < (value + 1) * Pow2(log)
  }

  /** x is value shifted right by 2^i. */
  lemma {:induction false} SearchStep(n: nat, value: nat, x: nat, log: nat, i: nat)
    requires Searching(n, value, log, i + 1)
    requires x * Pow2(Pow2(i)) <= value < x * Pow2(Pow2(i)) + Pow2(Pow2(i))
    ensures if x != 0 then Searching(n, x, log + Pow2(i), i) else Searching(n, value, log, i)
  {
    var p, q := Pow2(Pow2(i)), Pow2(log);
    assert value < p * p by { Pow2Add(Pow2(i), Pow2(i)); }
    HighHalf(value, x, p);
    ShiftStep(n, value, x, p, q);
    assert Pow2(log + Pow2(i)) == q * p by { Pow2Add(log, Pow2(i)); }
  }

  /** value >> shift. */
  method ShiftRight(value: nat, shift: nat) returns (x: nat)
    ensures x * Pow2(shift) <= value < x * Pow2(shift) + Pow2(shift)
  {
    var p := Pow2(shift);
    MultipleBelow(value, p);
    x := value / p;
  }

  /** Log2Floor: the i with 2^i <= n < 2^(i+1), and -1 for 0. */
  method Log2Floor(n: nat) returns (log: int)
    requires n < 0x1_0000_0000
    ensures n == 0 ==> log == -1
    ensures n > 0 ==> log >= 0 && Pow2(log) <= n < Pow2(log + 1)
  {
    if n == 0 {
      return -1;
    }
    log := 0;
    var value, i := n, 4;
    Pow2Of32();
    while i >= 0
      invariant -1 <= i <= 4 && 0 <= log && 0 <= value
      invariant Searching(n, value, log, i + 1)
    {
      var shift := Pow2(i);
      var x := ShiftRight(value, shift);
      SearchStep(n, value, x, log, i);
      if x != 0 {
        value := x;
        log := log + shift;
      }
      i := i - 1;
    }
    assert value == 1;
  }

  /** Log2Ceiling: the i with 2^(i-1) < n <= 2^i, and -1 for 0. */
  method Log2Ceiling(n: nat) returns (log: int)
    requires n < 0x1_0000_0000
    ensures n == 0 ==> log == -1
    ensures n > 0 ==> log >= 0 && n <= Pow2(log) && (log > 0 ==> Pow2(log - 1) < n)
  {
    if n == 0 {
      return -1;
    }
    var floor := Log2Floor(n - 1);
    return 1 + floor;
  }
}
