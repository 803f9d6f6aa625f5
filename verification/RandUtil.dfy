/** RandGenerator and RandInt of src/base/rand_util.cc; the words of RandUint64 are an input. */
module RandUtil {
  import opened Bits

  const UINT64_MAX: nat := 0xFFFF_FFFF_FFFF_FFFF

  /** How many whole ranges fit below the largest word. */
  function Fold(range: nat): (k: nat)
    requires 1 <= range <= UINT64_MAX
    ensures k >= 1
  {
    MultipleBelow(UINT64_MAX, range);
    UINT64_MAX / range
  }

  function MaxAcceptableValue(range: nat): nat
    requires 1 <= range <= UINT64_MAX
  {
    MultiplyKeepsOrder(1, Fold(range), range);
    Fold(range) * range - 1
  }

  /** Fold is the largest number of ranges that stay below 2^64, so as few words as possible are thrown away. */
  lemma {:induction false} FoldIsLargest(range: nat, k: nat)
    requires 1 <= range <= UINT64_MAX
    ensures k * range <= UINT64_MAX <==> k <= Fold(range)
  {
    MultipleBelow(UINT64_MAX, range);
    if k <= Fold(range) {
      MultiplyKeepsOrder(k, Fold(range), range);
    } else {
      MultiplyKeepsOrder(Fold(range) + 1, k, range);
    }
  }

  predicate Accepted(range: nat, value: nat)
    requires 1 <= range <= UINT64_MAX
  {
    value <= MaxAcceptableValue(range)
  }

  /**
    The words in which the loop draws are draw(0), draw(1), and so on; some draw has to be accepted for it to end. It
    takes the first one, and returns its residue.
  */
  method RandGenerator(range: nat, draw: nat -> nat, ghost some: nat) returns (result: nat, used: nat)
    requires 1 <= range <= UINT64_MAX
    requires Accepted(range, draw(some))
    ensures 1 <= used <= some + 1 && Accepted(range, draw(used - 1)) && result == draw(used - 1) % range < range
    ensures forall i :: 0 <= i < used - 1 ==> !Accepted(range, draw(i))
  {
    var maxAcceptableValue := MaxAcceptableValue(range);
    var value := draw(0);
    used := 1;
    while value > maxAcceptableValue
      invariant 1 <= used <= some + 1 && value == draw(used - 1)
      invariant forall i :: 0 <= i < used - 1 ==> !Accepted(range, draw(i))
      decreases some + 1 - used
    {
      value := draw(used);
      used := used + 1;
    }
    result := value % range;
  }

  // ---------------------------------------------------------------- every result is as likely as any other

  /** The words below n ranges that leave this residue. */
  function Preimages(range: nat, residue: nat, n: nat): set<nat>
    requires range >= 1
  {
    set v: nat | v < n * range && v % range == residue
  }

  lemma {:induction false} ResidueIn(range: nat, residue: nat, n: nat, v: nat)
    requires residue < range && n * range <= v < n * range + range
    ensures v % range == residue <==> v == n * range + residue
  {
    var q := v / range;
    RoundDown(v, range);
    assert q == n by {
      if q > n { MultiplyKeepsOrder(n + 1, q, range); }
      if q < n { MultiplyKeepsOrder(q + 1, n, range); }
    }
  }

  lemma {:induction false} PreimageCount(range: nat, residue: nat, n: nat)
    requires residue < range
    ensures |Preimages(range, residue, n)| == n
    decreases n
  {
    if n == 0 {
      assert Preimages(range, residue, 0) == {};
    } else {
      var fewer, v := Preimages(range, residue, n - 1), (n - 1) * range + residue;
      assert n * range == (n - 1) * range + range;
      PreimageCount(range, residue, n - 1);
      assert Preimages(range, residue, n) == fewer + {v} by {
        forall w: nat ensures w in Preimages(range, residue, n) <==> w in fewer + {v} {
          if (n - 1) * range <= w < n * range { ResidueIn(range, residue, n - 1, w); }
          ResidueIn(range, residue, n - 1, v);
        }
      }
      assert v !in fewer;
    }
  }

  /** The accepted words are those below a multiple of the range, and at least half of all words. */
  lemma {:induction false} AcceptedWords(range: nat, value: nat)
    requires 1 <= range <= UINT64_MAX
    ensures Accepted(range, value) <==> value < Fold(range) * range
    ensures 0x8000_0000_0000_0000 <= Fold(range) * range <= UINT64_MAX
  {
    MultipleBelow(UINT64_MAX, range);
    MultiplyKeepsOrder(1, Fold(range), range);
  }

  /** The accepted words that give this result. */
  function Giving(range: nat, result: nat): set<nat>
    requires 1 <= range <= UINT64_MAX
  {
    set v: nat | v <= MaxAcceptableValue(range) && v % range == result
  }

  /** Each result in the range comes from exactly Fold(range) accepted words, and no word is accepted in vain. */
  lemma {:induction false} Uniform(range: nat, result: nat)
    requires 1 <= range <= UINT64_MAX
    ensures |Giving(range, result)| == if result < range then Fold(range) else 0
  {
    var k := Fold(range);
    if result < range {
      PreimageCount(range, result, k);
      forall v: nat ensures v in Giving(range, result) <==> v in Preimages(range, result, k) {
        AcceptedWords(range, v);
      }
      assert Giving(range, result) == Preimages(range, result, k);
    } else {
      assert Giving(range, result) == {};
    }
  }

  // ---------------------------------------------------------------- RandInt

  const INT_MIN: int := -0x8000_0000
  const INT_MAX: int := 0x7FFF_FFFF

  /** The conversion of an int to uint64_t. */
  function ToUint64(x: int): (r: nat)
    requires INT_MIN <= x <= INT_MAX
    ensures r < TWO_64 && (r - x) % TWO_64 == 0
  {
    if x < 0 then x + TWO_64 else x
  }

  /** static_cast<uint64_t>(max) - min + 1, in 64 bits. */
  function RangeOf(min: int, max: int): nat
    requires INT_MIN <= min <= INT_MAX && INT_MIN <= max <= INT_MAX
  {
    (ToUint64(max) - ToUint64(min) + 1) % TWO_64
  }

  lemma {:induction false} RangeIsLength(min: int, max: int)
    requires INT_MIN <= min <= max <= INT_MAX
    ensures RangeOf(min, max) == max - min + 1 <= 0x1_0000_0000
  {
  }

  method RandInt(min: int, max: int, draw: nat -> nat, ghost some: nat) returns (result: int, used: nat)
    requires INT_MIN <= min <= max <= INT_MAX
    requires Accepted(max - min + 1, draw(some))
    ensures min <= result <= max
    ensures 1 <= used <= some + 1 && Accepted(max - min + 1, draw(used - 1))
    ensures forall i :: 0 <= i < used - 1 ==> !Accepted(max - min + 1, draw(i))
    ensures draw(used - 1) in Giving(max - min + 1, result - min)
  {
    RangeIsLength(min, max);
    var range := RangeOf(min, max);
    var r;
    r, used := RandGenerator(range, draw, some);
    result := min + r;
  }

  /** Every number from min to max is the result of exactly as many accepted words as any other. */
  lemma {:induction false} RandIntUniform(min: int, max: int, x: int)
    requires INT_MIN <= min <= x <= max <= INT_MAX
    ensures |set v: nat | v <= MaxAcceptableValue(RangeOf(min, max)) && min + v % RangeOf(min, max) == x|
      == Fold(max - min + 1)
  {
    RangeIsLength(min, max);
    var range := max - min + 1;
    Uniform(range, x - min);
    assert Giving(range, x - min)
      == set v: nat | v <= MaxAcceptableValue(RangeOf(min, max)) && min + v % RangeOf(min, max) == x;
  }
}
