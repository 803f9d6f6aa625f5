/**
  src/base/md5.cc: the streaming interface, against sections 3.1 to 3.5 of RFC 1321.

  The context is proved for machines of either byte order: on a big-endian one byteReverse really moves bytes.
*/
module Md5 {
  import Bits
  import opened Md5Transform

  type Byte = bv8

  const TWO_32: nat := 0x1_0000_0000
  const TWO_64: nat := 0x1_0000_0000_0000_0000

  // ---------------------------------------------------------------- words and bytes

  /** A word from four bytes, low-order byte first. */
  function Little(b: seq<Byte>): Word
    requires |b| == 4
  {
    (b[0] as Word) | ((b[1] as Word) << 8) | ((b[2] as Word) << 16) | ((b[3] as Word) << 24)
  }

  function LittleBytes(w: Word): (b: seq<Byte>)
    ensures |b| == 4
  {
    [(w & 0xFF) as Byte, ((w >> 8) & 0xFF) as Byte, ((w >> 16) & 0xFF) as Byte, ((w >> 24) & 0xFF) as Byte]
  }

  /** How this machine stores a word. */
  function NativeBytes(big: bool, w: Word): (b: seq<Byte>)
    ensures |b| == 4
  {
    var b := LittleBytes(w);
    if big then [b[3], b[2], b[1], b[0]] else b
  }

  function NativeWord(big: bool, b: seq<Byte>): Word
    requires |b| == 4
  {
    if big then Little([b[3], b[2], b[1], b[0]]) else Little(b)
  }

  lemma {:induction false} LittleRoundTrip(w: Word)
    ensures Little(LittleBytes(w)) == w
  {
  }

  lemma {:induction false} BytesRoundTrip(b: seq<Byte>)
    requires |b| == 4
    ensures LittleBytes(Little(b)) == b
  {
  }

  lemma {:induction false} NativeRoundTrip(big: bool, w: Word)
    ensures NativeWord(big, NativeBytes(big, w)) == w
  {
    LittleRoundTrip(w);
    var b := LittleBytes(w);
    assert [b[0], b[1], b[2], b[3]] == b;
  }

  /** Reversing the stored bytes of a word, on either machine, leaves the word low-order byte first. */
  lemma {:induction false} ReversedIsLittle(big: bool, w: Word)
    ensures NativeBytes(big, Little(NativeBytes(big, w))) == LittleBytes(w)
  {
    var b := LittleBytes(w);
    if big {
      BytesRoundTrip([b[3], b[2], b[1], b[0]]);
    } else {
      LittleRoundTrip(w);
    }
  }

  function Words(bytes: seq<Byte>): (block: Block)
    requires |bytes| == 64
  {
    seq(16, i requires 0 <= i < 16 => Little(bytes[4 * i..4 * i + 4]))
  }

  function NativeWords(big: bool, bytes: seq<Byte>): (block: Block)
    requires |bytes| == 64
  {
    seq(16, i requires 0 <= i < 16 => NativeWord(big, bytes[4 * i..4 * i + 4]))
  }

  // ---------------------------------------------------------------- RFC 1321

  const INIT: Registers<Word> := Registers(0x67452301, 0xefcdab89, 0x98badcfe, 0x10325476)

  /** The compression of one block; everything about streaming holds for any such function. */
  type Transform = (Registers<Word>, Block) -> Registers<Word>

  function Compress(transform: Transform, r: Registers<Word>, bytes: seq<Byte>): Registers<Word>
    requires |bytes| == 64
  {
    transform(r, Words(bytes))
  }

  /** Section 3.4: the registers after all blocks of a message. */
  function Fold(transform: Transform, r: Registers<Word>, message: seq<Byte>): Registers<Word>
    requires |message| % 64 == 0
  {
    if message == [] then r
    else
      var n := |message| - 64;
      Compress(transform, Fold(transform, r, message[..n]), message[n..])
  }

  function Zeros(n: nat): (z: seq<Byte>)
    ensures |z| == n
  {
    seq(n, _ => 0)
  }

  /** Words as bytes, each low-order byte first. */
  function Encode(words: seq<Word>): (b: seq<Byte>)
    ensures |b| == 4 * |words|
  {
    if words == [] then [] else Encode(words[..|words| - 1]) + LittleBytes(words[|words| - 1])
  }

  /** A word with one more binary digit. */
  function Append(w: Word, digit: nat): Word {
    if digit == 1 then (w << 1) | 1 else (w << 1) | 0
  }

  /** The word with this value, from its binary digits; see WordIsNumber. */
  function WordOf(n: nat): Word {
    if n == 0 then 0 else Append(WordOf(n / 2), n % 2)
  }

  /** Section 3.2: the bit count mod 2^64 as two words, low-order word first. */
  function LengthWords(n: nat): (w: seq<Word>)
    ensures |w| == 2
  {
    var bits := (8 * n) % TWO_64;
    [WordOf(bits % TWO_32), WordOf(bits / TWO_32)]
  }

  /** How many zero bytes follow the 0x80 so that the length ends a block. */
  function ZeroCount(n: nat): (z: nat)
    ensures z < 64 && (n + 1 + z + 8) % 64 == 0
  {
    (119 - n % 64) % 64
  }

  /** Sections 3.1 and 3.2. */
  function Padded(message: seq<Byte>): (p: seq<Byte>)
    ensures |p| % 64 == 0
  {
    message + [0x80] + Zeros(ZeroCount(|message|)) + Encode(LengthWords(|message|))
  }

  /** Section 3.5: A, B, C, D, low-order byte first. */
  function OutputBytes(r: Registers<Word>): seq<Byte> {
    Encode([r.a, r.b, r.c, r.d])
  }

  function Digest(transform: Transform, message: seq<Byte>): seq<Byte> {
    OutputBytes(Fold(transform, INIT, Padded(message)))
  }

  /** MD5 as RFC 1321 defines it. */
  function RfcDigest(message: seq<Byte>): seq<Byte> {
    Digest(RfcCompress, message)
  }

  // ---------------------------------------------------------------- the length words are the length

  function Bit(w: Word): (b: nat)
    ensures b <= 1
  {
    if w & 1 == 1 then 1 else 0
  }

  /** The number in the lowest bits of a word. */
  function NumberOf(w: Word, bits: nat): nat {
    if bits == 0 then 0 else Bit(w) + 2 * NumberOf(w >> 1, bits - 1)
  }

  /** No other than the lowest bits are set. */
  predicate Low(w: Word, bits: nat) {
    if bits == 0 then w == 0 else Low(w >> 1, bits - 1)
  }

  lemma {:induction false} LowGrows(w: Word, bits: nat, more: nat)
    requires Low(w, bits) && bits <= more
    ensures Low(w, more)
    decreases more
  {
    if bits > 0 {
      LowGrows(w >> 1, bits - 1, more - 1);
    } else if more > 0 {
      assert (0 as Word) >> 1 == 0;
      LowGrows(w >> 1, 0, more - 1);
    }
  }

  lemma {:induction false} LowTwo(w: Word, bits: nat)
    requires Low(w, bits + 2)
    ensures Low(w >> 2, bits)
  {
    assert Low(w >> 1, bits + 1);
    assert (w >> 1) >> 1 == w >> 2;
  }

  lemma {:induction false} LowFour(w: Word, bits: nat)
    requires Low(w, bits + 4)
    ensures Low(w >> 4, bits)
  {
    LowTwo(w, bits + 2);
    LowTwo(w >> 2, bits);
    assert (w >> 2) >> 2 == w >> 4;
  }

  lemma {:induction false} LowEight(w: Word, bits: nat)
    requires Low(w, bits + 8)
    ensures Low(w >> 8, bits)
  {
    LowFour(w, bits + 4);
    LowFour(w >> 4, bits);
    assert (w >> 4) >> 4 == w >> 8;
  }

  lemma {:induction false} LowSixteen(w: Word, bits: nat)
    requires Low(w, bits + 16)
    ensures Low(w >> 16, bits)
  {
    LowEight(w, bits + 8);
    LowEight(w >> 8, bits);
    assert (w >> 8) >> 8 == w >> 16;
  }

  lemma {:induction false} LowTwentyFour(w: Word, bits: nat)
    requires Low(w, bits + 24)
    ensures Low(w >> 24, bits)
  {
    LowSixteen(w, bits + 8);
    LowEight(w >> 16, bits);
    assert (w >> 16) >> 8 == w >> 24;
  }

  lemma {:induction false} LowTwentyEight(w: Word, bits: nat)
    requires Low(w, bits + 28)
    ensures Low(w >> 28, bits)
  {
    LowTwentyFour(w, bits + 4);
    LowFour(w >> 24, bits);
    assert (w >> 24) >> 4 == w >> 28;
  }

  lemma {:induction false} TopBitIsFree(w: Word)
    requires Low(w, 31)
    ensures w >> 31 == 0
  {
    LowTwentyEight(w, 3);
    assert Low(((w >> 28) >> 1) >> 1, 1);
    assert Low((((w >> 28) >> 1) >> 1) >> 1, 0);
    ThreeMore(w);
  }

  lemma {:induction false} ThreeMore(w: Word)
    ensures (((w >> 28) >> 1) >> 1) >> 1 == w >> 31
  {
  }

  lemma {:induction false} OneAppended(w: Word)
    requires w >> 31 == 0
    ensures ((w << 1) | 1) >> 1 == w && ((w << 1) | 1) & 1 == 1
  {
  }

  lemma {:induction false} NoughtAppended(w: Word)
    requires w >> 31 == 0
    ensures ((w << 1) | 0) >> 1 == w && ((w << 1) | 0) & 1 == 0
  {
  }

  lemma {:induction false} ZeroIsNought(bits: nat)
    ensures Low(0, bits) && NumberOf(0, bits) == 0
  {
    if bits > 0 {
      assert (0 as Word) >> 1 == 0;
      ZeroIsNought(bits - 1);
    }
  }

  lemma {:induction false} AppendPeels(w: Word, digit: nat)
    requires w >> 31 == 0 && digit <= 1
    ensures Append(w, digit) >> 1 == w && Bit(Append(w, digit)) == digit
  {
    if digit == 1 { OneAppended(w); } else { NoughtAppended(w); }
  }

  lemma {:induction false} Peeled(u: Word, w: Word, bits: nat)
    requires u >> 1 == w && bits > 0
    ensures Low(u, bits) == Low(w, bits - 1) && NumberOf(u, bits) == Bit(u) + 2 * NumberOf(w, bits - 1)
  {
  }

  lemma {:induction false} NextDigit(w: Word, digit: nat, bits: nat)
    requires 1 <= bits <= 32 && Low(w, bits - 1) && digit <= 1
    ensures Low(Append(w, digit), bits)
    ensures NumberOf(Append(w, digit), bits) == digit + 2 * NumberOf(w, bits - 1)
  {
    LowGrows(w, bits - 1, 31);
    TopBitIsFree(w);
    AppendPeels(w, digit);
    Peeled(Append(w, digit), w, bits);
  }

  /** WordOf(n) is the word whose binary digits are those of n. */
  lemma {:induction false} WordIsNumber(n: nat, bits: nat)
    requires n < Bits.Pow2(bits) && bits <= 32
    ensures Low(WordOf(n), bits) && NumberOf(WordOf(n), bits) == n
    decreases bits
  {
    if n == 0 {
      ZeroIsNought(bits);
    } else {
      WordIsNumber(n / 2, bits - 1);
      NextDigit(WordOf(n / 2), n % 2, bits);
    }
  }

  /** The two length words, low-order first, are 8 times the length mod 2^64. */
  lemma {:induction false} LengthWordsAreLength(n: nat)
    ensures NumberOf(LengthWords(n)[0], 32) + TWO_32 * NumberOf(LengthWords(n)[1], 32) == (8 * n) % TWO_64
  {
    var bits := (8 * n) % TWO_64;
    assert Bits.Pow2(32) == TWO_32 by { Bits.Pow2Of32(); assert Bits.Pow2(5) == 32; }
    WordIsNumber(bits % TWO_32, 32);
    WordIsNumber(bits / TWO_32, 32);
  }

  lemma {:induction false} FoldBlock(transform: Transform, r: Registers<Word>, done: seq<Byte>, block: seq<Byte>)
    requires |done| % 64 == 0 && |block| == 64
    ensures Fold(transform, r, done + block) == Compress(transform, Fold(transform, r, done), block)
  {
    var n := |done + block| - 64;
    assert (done + block)[..n] == done && (done + block)[n..] == block;
  }

  // ---------------------------------------------------------------- memory

  /** memcpy(to + at, data + from, n). */
  method Copy(to: array<Byte>, at: nat, data: seq<Byte>, from: nat, n: nat)
    requires at + n <= to.Length && from + n <= |data|
    modifies to
    ensures to[..] == old(to[..at]) + data[from..from + n] + old(to[at + n..])
  {
    var i := 0;
    while i < n
      invariant i <= n
      invariant forall j :: 0 <= j < to.Length ==>
        to[j] == if at <= j < at + i then data[from + j - at] else old(to[j])
    {
      to[at + i] := data[from + i];
      i := i + 1;
    }
  }

  /** memset(to + at, 0, n). */
  method Clear(to: array<Byte>, at: nat, n: nat)
    requires at + n <= to.Length
    modifies to
    ensures to[..] == old(to[..at]) + Zeros(n) + old(to[at + n..])
  {
    Copy(to, at, Zeros(n), 0, n);
    assert Zeros(n)[0..0 + n] == Zeros(n);
  }

  /** The four bytes of longword i. */
  function Quad(bytes: seq<Byte>, i: nat): (q: seq<Byte>)
    requires 4 * i + 4 <= |bytes|
    ensures |q| == 4
  {
    bytes[4 * i..4 * i + 4]
  }

  /** Stores one longword. */
  method Store(buf: array<Byte>, p: nat, stored: seq<Byte>)
    requires 4 * p + 4 <= buf.Length && |stored| == 4
    modifies buf
    ensures Quad(buf[..], p) == stored
    ensures forall j :: 0 <= j < buf.Length && !(4 * p <= j < 4 * p + 4) ==> buf[j] == old(buf[j])
  {
    buf[4 * p], buf[4 * p + 1], buf[4 * p + 2], buf[4 * p + 3] := stored[0], stored[1], stored[2], stored[3];
  }

  /** byteReverse: every longword read low-order byte first and stored the machine's way. */
  method ByteReverse(big: bool, buf: array<Byte>, longs: nat)
    requires 0 < longs && 4 * longs <= buf.Length
    modifies buf
    ensures forall i :: 0 <= i < longs ==> Quad(buf[..], i) == NativeBytes(big, Little(old(Quad(buf[..], i))))
    ensures forall j :: 4 * longs <= j < buf.Length ==> buf[j] == old(buf[j])
  {
    var p := 0;
    while p < longs
      invariant p <= longs
      invariant forall i :: 0 <= i < p ==> Quad(buf[..], i) == NativeBytes(big, Little(old(Quad(buf[..], i))))
      invariant forall j :: 4 * p <= j < buf.Length ==> buf[j] == old(buf[j])
    {
      ghost var before := buf[..];
      assert Quad(before, p) == old(Quad(buf[..], p));
      var temp := Little(Quad(buf[..], p));
      Store(buf, p, NativeBytes(big, temp));
      forall i | 0 <= i < p ensures Quad(buf[..], i) == Quad(before, i) {
      }
      p := p + 1;
    }
  }

  // ---------------------------------------------------------------- the bit counter

  /** MD5Update's carry arithmetic on the two 32-bit halves. */
  function CountUp(bits0: nat, bits1: nat, len: nat): (nat, nat) {
    var low := (bits0 + ((len % TWO_32) * 8) % TWO_32) % TWO_32;
    var carried := if low < bits0 then (bits1 + 1) % TWO_32 else bits1;
    (low, (carried + (len / 0x2000_0000) % TWO_32) % TWO_32)
  }

  predicate Counts(bits0: nat, bits1: nat, n: nat) {
    bits0 < TWO_32 && bits1 < TWO_32 && bits1 * TWO_32 + bits0 == (8 * n) % TWO_64
  }

  lemma {:induction false} Quotient(x: int, m: int, q: int, r: int)
    requires m > 0 && x == q * m + r && 0 <= r < m
    ensures x / m == q && x % m == r
  {
    var k := q - x / m;
    assert k * m == x % m - r;
    assert k >= 1 ==> k * m >= m;
    assert k <= -1 ==> k * m <= -m;
  }

  lemma {:induction false} LowBits(len: nat)
    ensures ((len % TWO_32) * 8) % TWO_32 == 8 * (len % 0x2000_0000)
  {
    var q, d := len / 0x2000_0000, len % 0x2000_0000;
    Quotient(len, TWO_32, q / 8, (q % 8) * 0x2000_0000 + d);
    Quotient((len % TWO_32) * 8, TWO_32, q % 8, 8 * d);
  }

  /** The two halves count 8 times the length mod 2^64, whatever lengths come in. */
  lemma {:induction false} CountUpIsAddition(bits0: nat, bits1: nat, n: nat, len: nat)
    requires Counts(bits0, bits1, n)
    ensures Counts(CountUp(bits0, bits1, len).0, CountUp(bits0, bits1, len).1, n + len)
  {
    var q, d := len / 0x2000_0000, len % 0x2000_0000;
    LowBits(len);
    var c := if bits0 + 8 * d >= TWO_32 then 1 else 0;
    Quotient(bits0 + 8 * d, TWO_32, c, bits0 + 8 * d - c * TWO_32);
    var h := bits1 + c;
    var ch := if h == TWO_32 then 1 else 0;
    Quotient(h, TWO_32, ch, h - ch * TWO_32);
    var (low, high) := CountUp(bits0, bits1, len);
    assert low == bits0 + 8 * d - c * TWO_32;
    var top := h - ch * TWO_32 + q % TWO_32;
    assert high == top % TWO_32;
    Quotient(8 * (n + len), TWO_64, (8 * n) / TWO_64 + ch + q / TWO_32 + top / TWO_32, high * TWO_32 + low);
  }

  lemma {:induction false} CountBytes(bits0: nat, bits1: nat, n: nat)
    requires Counts(bits0, bits1, n)
    ensures (bits0 / 8) % 64 == n % 64
  {
    var m := (8 * n) / TWO_64;
    var k := n - 0x2000_0000 * bits1 - 0x2000_0000_0000_0000 * m;
    assert bits0 == 8 * k;
    Quotient(bits0, 8, k, 0);
    Quotient(n, 64, k / 64 + 0x80_0000 * bits1 + 0x80_0000_0000_0000 * m, k % 64);
  }

  // ---------------------------------------------------------------- the context

  /** What byteReverse of the first `longs` longwords leaves in a 64-byte buffer. */
  ghost predicate Reversed(big: bool, before: seq<Byte>, after: seq<Byte>, longs: nat)
    requires |before| == 64 && |after| == 64 && longs <= 16
  {
    forall i :: 0 <= i < longs ==> Quad(after, i) == NativeBytes(big, Little(Quad(before, i)))
  }

  /** Reading the reversed buffer the machine's way gives the words of the RFC. */
  lemma {:induction false} ReversedWords(big: bool, before: seq<Byte>, after: seq<Byte>)
    requires |before| == 64 && |after| == 64 && Reversed(big, before, after, 16)
    ensures NativeWords(big, after) == Words(before)
  {
    forall i | 0 <= i < 16 ensures NativeWords(big, after)[i] == Words(before)[i] {
      assert Quad(after, i) == after[4 * i..4 * i + 4] && Quad(before, i) == before[4 * i..4 * i + 4];
      NativeRoundTrip(big, Little(Quad(before, i)));
    }
  }

  /** The last block: 14 longwords reversed, two stored the machine's way. */
  lemma {:induction false} LastWords(big: bool, before: seq<Byte>, after: seq<Byte>, low: Word, high: Word)
    requires |before| == 64 && |after| == 64 && Reversed(big, before, after, 14)
    requires Quad(after, 14) == NativeBytes(big, low) && Quad(after, 15) == NativeBytes(big, high)
    ensures NativeWords(big, after) == Words(before[..56] + LittleBytes(low) + LittleBytes(high))
  {
    var full := before[..56] + LittleBytes(low) + LittleBytes(high);
    forall i | 0 <= i < 16 ensures NativeWords(big, after)[i] == Words(full)[i] {
      assert Quad(after, i) == after[4 * i..4 * i + 4];
      if i < 14 {
        assert full[4 * i..4 * i + 4] == Quad(before, i);
        NativeRoundTrip(big, Little(Quad(before, i)));
      } else {
        var w := if i == 14 then low else high;
        assert full[4 * i..4 * i + 4] == LittleBytes(w);
        NativeRoundTrip(big, w);
        LittleRoundTrip(w);
      }
    }
  }

  lemma {:induction false} LengthIsCounters(bits0: nat, bits1: nat, n: nat)
    requires Counts(bits0, bits1, n)
    ensures LengthWords(n) == [WordOf(bits0), WordOf(bits1)]
  {
    Quotient((8 * n) % TWO_64, TWO_32, bits1, bits0);
  }

  lemma {:induction false} EncodeTwo(v: Word, w: Word)
    ensures Encode([v, w]) == LittleBytes(v) + LittleBytes(w)
  {
    var two := [v, w];
    assert two[..1] == [v] && two[..1][..0] == [];
    assert Encode(two[..1]) == Encode([]) + LittleBytes(v);
  }

  lemma {:induction false} EncodeFour(a: Word, b: Word, c: Word, d: Word)
    ensures Encode([a, b, c, d]) == LittleBytes(a) + LittleBytes(b) + LittleBytes(c) + LittleBytes(d)
  {
    EncodeTwo(a, b);
    assert [a, b, c, d][..3] == [a, b, c] && [a, b, c][..2] == [a, b];
    assert Encode([a, b, c]) == Encode([a, b]) + LittleBytes(c);
  }

  method StoreWords(a: seq<Byte>, b: seq<Byte>, c: seq<Byte>, d: seq<Byte>) returns (view: array<Byte>)
    requires |a| == |b| == |c| == |d| == 4
    ensures fresh(view) && view.Length == 16
    ensures Quad(view[..], 0) == a && Quad(view[..], 1) == b && Quad(view[..], 2) == c && Quad(view[..], 3) == d
  {
    view := new Byte[16];
    Store(view, 0, a);
    Store(view, 1, b);
    Store(view, 2, c);
    Store(view, 3, d);
  }

  lemma {:induction false} OutputIsLittle(big: bool, r: Registers<Word>, stored: seq<Byte>, digest: seq<Byte>)
    requires |stored| == |digest| == 16
    requires Quad(stored, 0) == NativeBytes(big, r.a) && Quad(stored, 1) == NativeBytes(big, r.b)
    requires Quad(stored, 2) == NativeBytes(big, r.c) && Quad(stored, 3) == NativeBytes(big, r.d)
    requires forall i :: 0 <= i < 4 ==> Quad(digest, i) == NativeBytes(big, Little(Quad(stored, i)))
    ensures digest == OutputBytes(r)
  {
    ReversedIsLittle(big, r.a);
    ReversedIsLittle(big, r.b);
    ReversedIsLittle(big, r.c);
    ReversedIsLittle(big, r.d);
    assert digest == Quad(digest, 0) + Quad(digest, 1) + Quad(digest, 2) + Quad(digest, 3);
    EncodeFour(r.a, r.b, r.c, r.d);
  }

  lemma {:induction false} TakeBlock(done: seq<Byte>, data: seq<Byte>, at: nat)
    requires at + 64 <= |data|
    ensures done + data[at..at + 64] + data[at + 64..] == done + data[at..]
  {
    assert data[at..] == data[at..at + 64] + data[at + 64..];
  }

  lemma {:induction false} ZeroCases(n: nat)
    ensures ZeroCount(n) == if n % 64 < 56 then 55 - n % 64 else 119 - n % 64
  {
  }

  lemma {:induction false} RestOf(done: seq<Byte>, rest: seq<Byte>, message: seq<Byte>)
    requires |done| % 64 == 0 && |rest| < 64 && message == done + rest
    ensures done <= message && |message| % 64 == |rest|
  {
  }

  lemma {:induction false} PaddedSplit(done: seq<Byte>, start: seq<Byte>, message: seq<Byte>)
    requires done + start == message + [0x80] + Zeros(ZeroCount(|message|))
    ensures done + (start + Encode(LengthWords(|message|))) == Padded(message)
  {
  }

  class Context {
    const transform: Transform  // what MD5Transform does to buf
    const bigEndian: bool  // of the machine
    const buf: array<Word>
    const input: array<Byte>
    var bits0: nat
    var bits1: nat
    ghost var done: seq<Byte>     // the full blocks that were folded into buf
    ghost var message: seq<Byte>  // everything that was passed to Update

    function State(): Registers<Word>
      requires buf.Length == 4
      reads buf
    {
      Registers(buf[0], buf[1], buf[2], buf[3])
    }

    ghost predicate Valid()
      reads this, buf, input
    {
      && buf.Length == 4 && input.Length == 64
      && Counts(bits0, bits1, |message|)
      && |done| % 64 == 0
      && State() == Fold(transform, INIT, done)
      && done <= message
      && message == done + input[..|message| % 64]
    }

    /** MD5Init. */
    constructor (transform: Transform, bigEndian: bool)
      ensures Valid() && fresh(buf) && fresh(input) && message == [] && this.transform == transform
    {
      this.transform, this.bigEndian := transform, bigEndian;
      buf := new Word[4] [INIT.a, INIT.b, INIT.c, INIT.d];
      input := new Byte[64];
      bits0, bits1, done, message := 0, 0, [], [];
    }

    /** MD5Transform(ctx->buf, ctx->in). */
    method TransformBuffer()
      requires buf.Length == 4 && input.Length == 64
      modifies buf
      ensures State() == transform(old(State()), NativeWords(bigEndian, input[..]))
    {
      var r := transform(State(), NativeWords(bigEndian, input[..]));
      buf[0], buf[1], buf[2], buf[3] := r.a, r.b, r.c, r.d;
    }

    /** byteReverse(ctx->in, 16) and MD5Transform. */
    method TransformInput()
      requires buf.Length == 4 && input.Length == 64
      modifies buf, input
      ensures State() == Compress(transform, old(State()), old(input[..]))
    {
      ghost var before := input[..];
      ByteReverse(bigEndian, input, 16);
      ReversedWords(bigEndian, before, input[..]);
      TransformBuffer();
    }

    /** buf is the fold over the full blocks so far. */
    ghost predicate Folded()
      reads this, buf
    {
      buf.Length == 4 && |done| % 64 == 0 && State() == Fold(transform, INIT, done)
    }

    /** Folds the full input buffer into buf. */
    method Absorb()
      requires input.Length == 64 && Folded()
      modifies this`done, buf, input
      ensures Folded() && done == old(done) + old(input[..])
    {
      ghost var block := input[..];
      FoldBlock(transform, INIT, done, block);
      TransformInput();
      done := done + block;
    }

    /** The bit counter, with its carry from low to high. */
    method Count(len: nat, ghost n: nat)
      requires Counts(bits0, bits1, n)
      modifies this`bits0, this`bits1
      ensures Counts(bits0, bits1, n + len)
    {
      CountUpIsAddition(bits0, bits1, n, len);
      var t := bits0;
      bits0 := (t + ((len % TWO_32) * 8) % TWO_32) % TWO_32;
      if bits0 < t {
        bits1 := (bits1 + 1) % TWO_32;
      }
      bits1 := (bits1 + (len / 0x2000_0000) % TWO_32) % TWO_32;
    }

    /** Tops up a buffer that already holds t bytes and folds it. */
    method FillFirst(data: seq<Byte>, t: nat)
      requires input.Length == 64 && Folded() && 0 < t < 64 && |data| >= 64 - t
      modifies this`done, buf, input
      ensures Folded() && done == old(done) + old(input[..t]) + data[..64 - t]
    {
      Copy(input, t, data, 0, 64 - t);
      ghost var block := old(input[..t]) + data[..64 - t];
      assert input[..] == block;
      Absorb();
      assert old(done) + block == old(done) + old(input[..t]) + data[..64 - t];
    }

    method FillOne(data: seq<Byte>, at: nat)
      requires input.Length == 64 && Folded() && at + 64 <= |data|
      modifies this`done, buf, input
      ensures Folded() && done == old(done) + data[at..at + 64]
    {
      Copy(input, 0, data, at, 64);
      assert input[..] == data[at..at + 64];
      Absorb();
    }

    /** Folds every full block of data[from..]. */
    method FoldBlocks(data: seq<Byte>, from: nat) returns (at: nat)
      requires input.Length == 64 && Folded() && from <= |data|
      modifies this`done, buf, input
      ensures Folded() && |data| - at == (|data| - from) % 64
      ensures done + data[at..] == old(done) + data[from..]
    {
      at := from;
      var len := |data| - from;
      ghost var whole := done + data[from..];
      while len >= 64
        invariant from <= at && 0 <= len && at + len == |data|
        invariant len % 64 == (|data| - from) % 64
        invariant Folded() && done + data[at..] == whole
        decreases len
      {
        TakeBlock(done, data, at);
        FillOne(data, at);
        at, len := at + 64, len - 64;
      }
    }

    /** And keeps what is left. */
    method FillBlocks(data: seq<Byte>, from: nat)
      requires input.Length == 64 && Folded() && from <= |data|
      modifies this`done, buf, input
      ensures Folded()
      ensures done + input[..(|data| - from) % 64] == old(done) + data[from..]
    {
      var at := FoldBlocks(data, from);
      Keep(data, at);
    }

    method Keep(data: seq<Byte>, at: nat)
      requires input.Length == 64 && at <= |data| < at + 64
      modifies input
      ensures input[..|data| - at] == data[at..]
    {
      Copy(input, 0, data, at, |data| - at);
    }

    method FillBoth(data: seq<Byte>, t: nat)
      requires input.Length == 64 && Folded() && 0 < t < 64 && |data| >= 64 - t
      modifies this`done, buf, input
      ensures Folded()
      ensures done + input[..(t + |data|) % 64] == old(done) + old(input[..t]) + data
    {
      ghost var held := done + input[..t];
      assert (t + |data|) % 64 == (|data| - (64 - t)) % 64;
      FillFirst(data, t);
      FillBlocks(data, 64 - t);
      assert held + data == held + data[..64 - t] + data[64 - t..];
    }

    /** An empty buffer. */
    method FillAll(data: seq<Byte>, t: nat)
      requires input.Length == 64 && Folded() && t == 0
      modifies this`done, buf, input
      ensures Folded()
      ensures done + input[..(t + |data|) % 64] == old(done) + old(input[..t]) + data
    {
      FillBlocks(data, 0);
      assert data[0..] == data;
    }

    /** A short piece behind the t bytes in the buffer. */
    method FillPart(data: seq<Byte>, t: nat)
      requires input.Length == 64 && Folded() && t + |data| < 64
      modifies this`done, buf, input
      ensures Folded()
      ensures done + input[..(t + |data|) % 64] == old(done) + old(input[..t]) + data
    {
      Copy(input, t, data, 0, |data|);
      assert (t + |data|) % 64 == t + |data|;
      assert input[..t + |data|] == old(input[..t]) + data;
    }

    /** The rest of MD5Update, with t bytes in the buffer. */
    method Refill(data: seq<Byte>, t: nat)
      requires input.Length == 64 && Folded() && t < 64
      modifies this`done, buf, input
      ensures Folded()
      ensures done + input[..(t + |data|) % 64] == old(done) + old(input[..t]) + data
    {
      if t == 0 {
        FillAll(data, t);
      } else if |data| < 64 - t {
        FillPart(data, t);
      } else {
        FillBoth(data, t);
      }
    }

    /** MD5Update: for every way of cutting a message, the context stands for what came so far. */
    method Update(data: seq<Byte>)
      requires Valid()
      modifies this, buf, input
      ensures Valid() && message == old(message) + data
    {
      CountBytes(bits0, bits1, |message|);
      var t := (bits0 / 8) % 64;
      Count(|data|, |message|);
      Refill(data, t);
      message := message + data;
      RestOf(done, input[..(t + |data|) % 64], message);
    }

    /** The 0x80 and the zeros, up to the place of the length: one block more if they do not fit. */
    method Pad(ghost n: nat)
      requires Folded() && input.Length == 64 && Counts(bits0, bits1, n)
      modifies this`done, buf, input
      ensures Folded()
      ensures done + input[..56] == old(done) + old(input[..n % 64]) + [0x80] + Zeros(ZeroCount(n))
    {
      CountBytes(bits0, bits1, n);
      var count := (bits0 / 8) % 64;
      input[count] := 0x80;
      assert input[..count + 1] == old(input[..count]) + [0x80];
      var left := 63 - count;
      ZeroCases(n);
      if left < 8 {
        PadTwice(count + 1);
        assert Zeros(ZeroCount(n)) == Zeros(left) + Zeros(56);
      } else {
        PadOnce(count + 1);
      }
    }

    method PadOnce(used: nat)
      requires input.Length == 64 && used <= 56
      modifies input
      ensures input[..56] == old(input[..used]) + Zeros(56 - used)
    {
      Clear(input, used, 56 - used);
    }

    /** Two lots of padding. */
    method PadTwice(used: nat)
      requires Folded() && input.Length == 64 && used <= 64
      modifies this`done, buf, input
      ensures Folded()
      ensures done + input[..56] == old(done) + old(input[..used]) + Zeros(64 - used) + Zeros(56)
    {
      Clear(input, used, 64 - used);
      assert input[..] == old(input[..used]) + Zeros(64 - used);
      Absorb();
      Clear(input, 0, 56);
      assert input[..56] == Zeros(56);
    }

    /** MD5Final: the digest of RFC 1321; the context is wiped. */
    method Final() returns (digest: seq<Byte>)
      requires Valid()
      modifies this, buf, input
      ensures digest == Digest(transform, old(message)) && Wiped()
    {
      Pad(|message|);
      ghost var last := input[..56] + Encode(LengthWords(|message|));
      FoldBlock(transform, INIT, done, last);
      PaddedSplit(done, input[..56], message);
      LastBlock(|message|);
      digest := Output();
      Wipe();
    }

    /** byteReverse(ctx->in, 14), the two counters, and the last MD5Transform. */
    method LastBlock(ghost n: nat)
      requires buf.Length == 4 && input.Length == 64 && Counts(bits0, bits1, n)
      modifies buf, input
      ensures State() == Compress(transform, old(State()), old(input[..56]) + Encode(LengthWords(n)))
    {
      AppendLength(WordOf(bits0), WordOf(bits1));
      LengthIsCounters(bits0, bits1, n);
      TransformBuffer();
    }

    method AppendLength(low: Word, high: Word)
      requires input.Length == 64
      modifies input
      ensures NativeWords(bigEndian, input[..]) == Words(old(input[..56]) + Encode([low, high]))
    {
      ghost var before := input[..];
      ByteReverse(bigEndian, input, 14);
      StoreLast(NativeBytes(bigEndian, low), NativeBytes(bigEndian, high));
      LastWords(bigEndian, before, input[..], low, high);
      EncodeTwo(low, high);
      assert before[..56] + LittleBytes(low) + LittleBytes(high) == before[..56] + Encode([low, high]);
    }

    method StoreLast(low: seq<Byte>, high: seq<Byte>)
      requires input.Length == 64 && |low| == |high| == 4
      modifies input
      ensures forall i :: 0 <= i < 14 ==> Quad(input[..], i) == old(Quad(input[..], i))
      ensures Quad(input[..], 14) == low && Quad(input[..], 15) == high
    {
      Store(input, 14, low);
      Store(input, 15, high);
    }

    /** byteReverse(ctx->buf, 4) and the copy into the digest. */
    method Output() returns (digest: seq<Byte>)
      requires buf.Length == 4
      ensures digest == OutputBytes(State())
    {
      var view := StoreWords(NativeBytes(bigEndian, buf[0]), NativeBytes(bigEndian, buf[1]),
                             NativeBytes(bigEndian, buf[2]), NativeBytes(bigEndian, buf[3]));
      ghost var stored := view[..];
      ByteReverse(bigEndian, view, 4);
      digest := view[..];
      OutputIsLittle(bigEndian, State(), stored, digest);
    }

    /** memset(ctx, 0, sizeof(*ctx)). */
    /** Nothing is left of the message: not in the registers, the counters or the buffer. */
    ghost predicate Wiped()
      reads this, buf, input
    {
      && bits0 == 0 && bits1 == 0 && input[..] == Zeros(64)
      && buf.Length == 4 && State() == Registers(0, 0, 0, 0)
    }

    method Wipe()
      requires buf.Length == 4 && input.Length == 64
      modifies this, buf, input
      ensures Wiped()
    {
      buf[0], buf[1], buf[2], buf[3] := 0, 0, 0, 0;
      bits0, bits1 := 0, 0;
      Clear(input, 0, 64);
    }

    constructor Copied(other: Context)
      requires other.Valid()
      ensures Valid() && fresh(buf) && fresh(input) && message == other.message && transform == other.transform
    {
      this.transform, this.bigEndian := other.transform, other.bigEndian;
      buf := new Word[4] [other.buf[0], other.buf[1], other.buf[2], other.buf[3]];
      input := new Byte[64];
      bits0, bits1, done, message := other.bits0, other.bits1, other.done, other.message;
      new;
      Copy(input, 0, other.input[..], 0, 64);
      assert input[..] == other.input[..];
    }

    /** MD5IntermediateFinal: the digest so far; this context, and so every later result, is untouched. */
    method IntermediateFinal() returns (digest: seq<Byte>)
      requires Valid()
      ensures digest == Digest(transform, message)
    {
      var copy := new Context.Copied(this);
      digest := copy.Final();
    }
  }

  function Concat(chunks: seq<seq<Byte>>): seq<Byte> {
    if chunks == [] then [] else Concat(chunks[..|chunks| - 1]) + chunks[|chunks| - 1]
  }

  /** Init, Update on every chunk, Final; and an IntermediateFinal before every chunk. */
  method DigestOfChunks(transform: Transform, bigEndian: bool, chunks: seq<seq<Byte>>)
    returns (digest: seq<Byte>, sofar: seq<seq<Byte>>)
    ensures digest == Digest(transform, Concat(chunks))
    ensures |sofar| == |chunks|
    ensures forall i :: 0 <= i < |chunks| ==> sofar[i] == Digest(transform, Concat(chunks[..i]))
  {
    var context := new Context(transform, bigEndian);
    sofar := [];
    var i := 0;
    while i < |chunks|
      invariant i <= |chunks| && |sofar| == i
      invariant context.Valid() && context.message == Concat(chunks[..i]) && context.transform == transform
      invariant fresh(context) && fresh(context.buf) && fresh(context.input)
      invariant forall j :: 0 <= j < i ==> sofar[j] == Digest(transform, Concat(chunks[..j]))
    {
      var now := context.IntermediateFinal();
      sofar := sofar + [now];
      context.Update(chunks[i]);
      assert chunks[..i + 1][..i] == chunks[..i];
      i := i + 1;
    }
    assert chunks[..i] == chunks;
    digest := context.Final();
  }

  lemma {:induction false} SameFold(f: Transform, g: Transform, r: Registers<Word>, message: seq<Byte>)
    requires |message| % 64 == 0 && forall q, block :: f(q, block) == g(q, block)
    ensures Fold(f, r, message) == Fold(g, r, message)
    decreases |message|
  {
    if message != [] { SameFold(f, g, r, message[..|message| - 64]); }
  }

  lemma {:induction false} SameDigest(f: Transform, g: Transform, message: seq<Byte>)
    requires forall q, block :: f(q, block) == g(q, block)
    ensures Digest(f, message) == Digest(g, message)
  {
    SameFold(f, g, INIT, Padded(message));
  }

  lemma {:induction false} CodeDigestIsRfc(message: seq<Byte>)
    ensures Digest(CodeCompress, message) == RfcDigest(message)
  {
    forall q: Registers<Word>, block: Block ensures CodeCompress(q, block) == RfcCompress(q, block) {
      TransformIsRfc(q, block);
    }
    SameDigest(CodeCompress, RfcCompress, message);
  }

  /**
    With the code's own transform: the digest of RFC 1321 on the concatenation, for every message, every way of
    cutting it and either byte order; digests taken on the way are those of the prefixes.
  */
  method MD5OfChunks(bigEndian: bool, chunks: seq<seq<Byte>>) returns (digest: seq<Byte>, sofar: seq<seq<Byte>>)
    ensures digest == RfcDigest(Concat(chunks))
    ensures |sofar| == |chunks| && forall i :: 0 <= i < |chunks| ==> sofar[i] == RfcDigest(Concat(chunks[..i]))
  {
    digest, sofar := DigestOfChunks(CodeCompress, bigEndian, chunks);
    CodeDigestIsRfc(Concat(chunks));
    forall i | 0 <= i < |chunks| ensures sofar[i] == RfcDigest(Concat(chunks[..i])) {
      CodeDigestIsRfc(Concat(chunks[..i]));
    }
  }
}
