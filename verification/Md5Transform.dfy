/**
  The compression function of src/base/md5.cc (lines 50-147) against section 3.4 of RFC 1321.

  The 64 unrolled statements are proved to follow the RFC's schedule (which register, which word, which constant,
  which rotation) for ANY meaning of the single step; then the step macro is proved equal to one operation
  of the RFC.
*/
module Md5Transform {
  type Word = bv32
  type Amount = s: bv6 | s < 32

  datatype Registers<W> = Registers(a: W, b: W, c: W, d: W)

  datatype Auxiliary = F1 | F2 | F3 | F4

  /** One step: auxiliary function, the register to change, the other three, word, constant, rotation. */
  type Step<!W> = (Auxiliary, W, W, W, W, W, Word, Amount) -> W

  type Block = s: seq<Word> | |s| == 16 witness seq(16, _ => 0)

  // ---------------------------------------------------------------- section 3.4 of RFC 1321

  function RfcAuxiliary(f: Auxiliary, x: Word, y: Word, z: Word): Word {
    match f
    case F1 => (x & y) | (!x & z)
    case F2 => (x & z) | (y & !z)
    case F3 => x ^ y ^ z
    case F4 => y ^ (x | !z)
  }

  /** The circular shift <<<, in the form both texts use; RotateIsRotation relates it to the bits. */
  function Rotate(w: Word, s: Amount): Word {
    (w << s) | (w >> (32 - s))
  }

  /** a = b + ((a + f(b, c, d) + X[k] + T[i]) <<< s). */
  function RfcOperation(f: Auxiliary, a: Word, b: Word, c: Word, d: Word, xk: Word, ti: Word, s: Amount): Word {
    RfcCombine(a, RfcAuxiliary(f, b, c, d), xk, ti, b, s)
  }

  function RfcCombine(a: Word, v: Word, xk: Word, ti: Word, b: Word, s: Amount): Word {
    b + Rotate(a + v + xk + ti, s)
  }

  /** The shift amounts of the four rounds. */
  function Shift(i: nat): Amount {
    if i < 16 then (match i % 4 case 0 => 7 case 1 => 12 case 2 => 17 case _ => 22)
    else if i < 32 then (match i % 4 case 0 => 5 case 1 => 9 case 2 => 14 case _ => 20)
    else if i < 48 then (match i % 4 case 0 => 4 case 1 => 11 case 2 => 16 case _ => 23)
    else (match i % 4 case 0 => 6 case 1 => 10 case 2 => 15 case _ => 21)
  }

  /** Which word of the block operation i takes. */
  function Index(i: nat): (k: nat)
    ensures k < 16
  {
    if i < 16 then i
    else if i < 32 then (5 * i + 1) % 16
    else if i < 48 then (3 * i + 5) % 16
    else (7 * i) % 16
  }

  function RoundOf(i: nat): Auxiliary {
    if i < 16 then F1 else if i < 32 then F2 else if i < 48 then F3 else F4
  }

  /** T[i + 1] of the RFC, by rounds. */
  function Sine(i: nat): Word {
    if i < 16 then SineInRound1(i)
    else if i < 32 then SineInRound2(i)
    else if i < 48 then SineInRound3(i)
    else SineInRound4(i)
  }

  function SineInRound1(i: nat): Word {
    match i
    case 0 => 0xd76aa478
    case 1 => 0xe8c7b756
    case 2 => 0x242070db
    case 3 => 0xc1bdceee
    case 4 => 0xf57c0faf
    case 5 => 0x4787c62a
    case 6 => 0xa8304613
    case 7 => 0xfd469501
    case 8 => 0x698098d8
    case 9 => 0x8b44f7af
    case 10 => 0xffff5bb1
    case 11 => 0x895cd7be
    case 12 => 0x6b901122
    case 13 => 0xfd987193
    case 14 => 0xa679438e
    case _ => 0x49b40821
  }

  function SineInRound2(i: nat): Word {
    match i
    case 16 => 0xf61e2562
    case 17 => 0xc040b340
    case 18 => 0x265e5a51
    case 19 => 0xe9b6c7aa
    case 20 => 0xd62f105d
    case 21 => 0x02441453
    case 22 => 0xd8a1e681
    case 23 => 0xe7d3fbc8
    case 24 => 0x21e1cde6
    case 25 => 0xc33707d6
    case 26 => 0xf4d50d87
    case 27 => 0x455a14ed
    case 28 => 0xa9e3e905
    case 29 => 0xfcefa3f8
    case 30 => 0x676f02d9
    case _ => 0x8d2a4c8a
  }

  function SineInRound3(i: nat): Word {
    match i
    case 32 => 0xfffa3942
    case 33 => 0x8771f681
    case 34 => 0x6d9d6122
    case 35 => 0xfde5380c
    case 36 => 0xa4beea44
    case 37 => 0x4bdecfa9
    case 38 => 0xf6bb4b60
    case 39 => 0xbebfbc70
    case 40 => 0x289b7ec6
    case 41 => 0xeaa127fa
    case 42 => 0xd4ef3085
    case 43 => 0x04881d05
    case 44 => 0xd9d4d039
    case 45 => 0xe6db99e5
    case 46 => 0x1fa27cf8
    case _ => 0xc4ac5665
  }

  function SineInRound4(i: nat): Word {
    match i
    case 48 => 0xf4292244
    case 49 => 0x432aff97
    case 50 => 0xab9423a7
    case 51 => 0xfc93a039
    case 52 => 0x655b59c3
    case 53 => 0x8f0ccc92
    case 54 => 0xffeff47d
    case 55 => 0x85845dd1
    case 56 => 0x6fa87e4f
    case 57 => 0xfe2ce6e0
    case 58 => 0xa3014314
    case 59 => 0x4e0811a1
    case 60 => 0xf7537e82
    case 61 => 0xbd3af235
    case 62 => 0x2ad7d2bb
    case _ => 0xeb86d391
  }

  /** Operation i of [ABCD k s i], with the registers in the order ABCD, DABC, CDAB, BCDA. */
  function Operate<W>(step: Step<W>, block: seq<W>, r: Registers<W>, i: nat): Registers<W>
    requires |block| == 16
  {
    var (f, xk, ti, s) := (RoundOf(i), block[Index(i)], Sine(i), Shift(i));
    match i % 4
    case 0 => r.(a := step(f, r.a, r.b, r.c, r.d, xk, ti, s))
    case 1 => r.(d := step(f, r.d, r.a, r.b, r.c, xk, ti, s))
    case 2 => r.(c := step(f, r.c, r.d, r.a, r.b, xk, ti, s))
    case _ => r.(b := step(f, r.b, r.c, r.d, r.a, xk, ti, s))
  }

  /** A schedule says what operation i does to the registers. */
  type Schedule<!W> = (Registers<W>, nat) -> Registers<W>

  function RfcSchedule<W>(step: Step<W>, block: seq<W>): Schedule<W>
    requires |block| == 16
  {
    (r: Registers<W>, i: nat) => Operate(step, block, r, i)
  }

  /** The registers after the first n operations of a schedule. */
  function Rounds<W>(schedule: Schedule<W>, r: Registers<W>, n: nat): Registers<W> {
    if n == 0 then r else schedule(Rounds(schedule, r, n - 1), n - 1)
  }

  function Sum(r: Registers<Word>, q: Registers<Word>): Registers<Word> {
    Registers(r.a + q.a, r.b + q.b, r.c + q.c, r.d + q.d)
  }

  /** One block of the RFC: save the registers, run four rounds of one operation per word, add the saved values. */
  function RfcCompress(r: Registers<Word>, block: Block): Registers<Word> {
    Sum(r, Rounds(RfcSchedule(RfcOperation, block), r, 4 * |block|))
  }

  // ---------------------------------------------------------------- the macros

  function CodeF1(x: Word, y: Word, z: Word): Word { z ^ (x & (y ^ z)) }

  function CodeAuxiliary(f: Auxiliary, x: Word, y: Word, z: Word): Word {
    match f
    case F1 => CodeF1(x, y, z)
    case F2 => CodeF1(z, x, y)
    case F3 => x ^ y ^ z
    case F4 => y ^ (x | !z)
  }

  /** MD5STEP(f, w, x, y, z, word + constant, s): w += f(x, y, z) + data, w = w << s | w >> (32 - s), w += x. */
  function CodeStep(f: Auxiliary, w: Word, x: Word, y: Word, z: Word, word: Word, constant: Word, s: Amount): Word {
    CodeCombine(w, CodeAuxiliary(f, x, y, z), word + constant, x, s)
  }

  function CodeCombine(w: Word, v: Word, data: Word, x: Word, s: Amount): Word {
    var w1 := w + (v + data);
    var w2 := Rotate(w1, s);
    w2 + x
  }

  // ---------------------------------------------------------------- one step

  lemma {:induction false} SelectAgrees(x: Word, y: Word, z: Word)
    ensures CodeF1(x, y, z) == (x & y) | (!x & z)
  {
  }

  lemma {:induction false} SwappedSelectAgrees(x: Word, y: Word, z: Word)
    ensures CodeF1(z, x, y) == (x & z) | (y & !z)
  {
  }

  lemma {:induction false} AuxiliaryAgrees(f: Auxiliary, x: Word, y: Word, z: Word)
    ensures CodeAuxiliary(f, x, y, z) == RfcAuxiliary(f, x, y, z)
  {
    SelectAgrees(x, y, z);
    SwappedSelectAgrees(x, y, z);
  }

  lemma {:induction false} CombineAgrees(w: Word, v: Word, xk: Word, ti: Word, x: Word, s: Amount)
    ensures CodeCombine(w, v, xk + ti, x, s) == RfcCombine(w, v, xk, ti, x, s)
  {
  }

  /** One use of the macro is one operation of the RFC. */
  lemma {:induction false} StepAgrees(f: Auxiliary, w: Word, x: Word, y: Word, z: Word, xk: Word, ti: Word, s: Amount)
    ensures CodeStep(f, w, x, y, z, xk, ti, s) == RfcOperation(f, w, x, y, z, xk, ti, s)
  {
    AuxiliaryAgrees(f, x, y, z);
    CombineAgrees(w, RfcAuxiliary(f, x, y, z), xk, ti, x, s);
  }

  /** For every amount the rounds use, Rotate is the rotation of the 32 bits. */
  lemma {:induction false} RotateIsRotation(w: Word)
    ensures Rotate(w, 7) == w.RotateLeft(7) && Rotate(w, 12) == w.RotateLeft(12)
    ensures Rotate(w, 17) == w.RotateLeft(17) && Rotate(w, 22) == w.RotateLeft(22)
    ensures Rotate(w, 5) == w.RotateLeft(5) && Rotate(w, 9) == w.RotateLeft(9)
    ensures Rotate(w, 14) == w.RotateLeft(14) && Rotate(w, 20) == w.RotateLeft(20)
    ensures Rotate(w, 4) == w.RotateLeft(4) && Rotate(w, 11) == w.RotateLeft(11)
    ensures Rotate(w, 16) == w.RotateLeft(16) && Rotate(w, 23) == w.RotateLeft(23)
    ensures Rotate(w, 6) == w.RotateLeft(6) && Rotate(w, 10) == w.RotateLeft(10)
    ensures Rotate(w, 15) == w.RotateLeft(15) && Rotate(w, 21) == w.RotateLeft(21)
  {
  }

  // ---------------------------------------------------------------- the schedule, for any step

  function Four<W>(schedule: Schedule<W>, r: Registers<W>, i: nat): Registers<W> {
    schedule(schedule(schedule(schedule(r, i), i + 1), i + 2), i + 3)
  }

  function Sixteen<W>(schedule: Schedule<W>, r: Registers<W>, i: nat): Registers<W> {
    Four(schedule, Four(schedule, Four(schedule, Four(schedule, r, i), i + 4), i + 8), i + 12)
  }

  lemma {:induction false} FourAreRounds<W>(schedule: Schedule<W>, r: Registers<W>, i: nat)
    ensures Four(schedule, Rounds(schedule, r, i), i) == Rounds(schedule, r, i + 4)
  {
    assert Rounds(schedule, r, i + 2) == schedule(schedule(Rounds(schedule, r, i), i), i + 1);
  }

  lemma {:induction false} SixteenAreRounds<W>(schedule: Schedule<W>, r: Registers<W>, i: nat)
    ensures Sixteen(schedule, Rounds(schedule, r, i), i) == Rounds(schedule, r, i + 16)
  {
    FourAreRounds(schedule, r, i);
    FourAreRounds(schedule, r, i + 4);
    FourAreRounds(schedule, r, i + 8);
    FourAreRounds(schedule, r, i + 12);
  }

  lemma {:induction false} SameRounds<W>(f: Schedule<W>, g: Schedule<W>, r: Registers<W>, n: nat)
    requires forall q, i :: f(q, i) == g(q, i)
    ensures Rounds(f, r, n) == Rounds(g, r, n)
  {
    if n > 0 { SameRounds(f, g, r, n - 1); }
  }

  lemma {:induction false} SameSchedule<W>(step: Step<W>, op: Step<W>, block: seq<W>)
    requires |block| == 16
    requires forall f, w, x, y, z, xk, ti, s :: step(f, w, x, y, z, xk, ti, s) == op(f, w, x, y, z, xk, ti, s)
    ensures forall q, i :: RfcSchedule(step, block)(q, i) == RfcSchedule(op, block)(q, i)
  {
  }

  // The 64 statements of MD5Transform, for any meaning of MD5STEP, by rounds of 16.

  method FirstRound<W>(step: Step<W>, block: seq<W>, a0: W, b0: W, c0: W, d0: W) returns (a: W, b: W, c: W, d: W)
    requires |block| == 16
    ensures Registers(a, b, c, d) == Sixteen(RfcSchedule(step, block), Registers(a0, b0, c0, d0), 0)
  {
    ghost var schedule := RfcSchedule(step, block);
    ghost var r := Registers(a0, b0, c0, d0);
    a, b, c, d := a0, b0, c0, d0;
    a := step(F1, a, b, c, d, block[0], 0xd76aa478, 7);
    d := step(F1, d, a, b, c, block[1], 0xe8c7b756, 12);
    c := step(F1, c, d, a, b, block[2], 0x242070db, 17);
    b := step(F1, b, c, d, a, block[3], 0xc1bdceee, 22);
    r := Four(schedule, r, 0);
    assert r == Registers(a, b, c, d);
    a := step(F1, a, b, c, d, block[4], 0xf57c0faf, 7);
    d := step(F1, d, a, b, c, block[5], 0x4787c62a, 12);
    c := step(F1, c, d, a, b, block[6], 0xa8304613, 17);
    b := step(F1, b, c, d, a, block[7], 0xfd469501, 22);
    r := Four(schedule, r, 4);
    assert r == Registers(a, b, c, d);
    a := step(F1, a, b, c, d, block[8], 0x698098d8, 7);
    d := step(F1, d, a, b, c, block[9], 0x8b44f7af, 12);
    c := step(F1, c, d, a, b, block[10], 0xffff5bb1, 17);
    b := step(F1, b, c, d, a, block[11], 0x895cd7be, 22);
    r := Four(schedule, r, 8);
    assert r == Registers(a, b, c, d);
    a := step(F1, a, b, c, d, block[12], 0x6b901122, 7);
    d := step(F1, d, a, b, c, block[13], 0xfd987193, 12);
    c := step(F1, c, d, a, b, block[14], 0xa679438e, 17);
    b := step(F1, b, c, d, a, block[15], 0x49b40821, 22);
    r := Four(schedule, r, 12);
    assert r == Registers(a, b, c, d);
  }

  method SecondRound<W>(step: Step<W>, block: seq<W>, a0: W, b0: W, c0: W, d0: W) returns (a: W, b: W, c: W, d: W)
    requires |block| == 16
    ensures Registers(a, b, c, d) == Sixteen(RfcSchedule(step, block), Registers(a0, b0, c0, d0), 16)
  {
    ghost var schedule := RfcSchedule(step, block);
    ghost var r := Registers(a0, b0, c0, d0);
    a, b, c, d := a0, b0, c0, d0;
    a := step(F2, a, b, c, d, block[1], 0xf61e2562, 5);
    d := step(F2, d, a, b, c, block[6], 0xc040b340, 9);
    c := step(F2, c, d, a, b, block[11], 0x265e5a51, 14);
    b := step(F2, b, c, d, a, block[0], 0xe9b6c7aa, 20);
    r := Four(schedule, r, 16);
    assert r == Registers(a, b, c, d);
    a := step(F2, a, b, c, d, block[5], 0xd62f105d, 5);
    d := step(F2, d, a, b, c, block[10], 0x02441453, 9);
    c := step(F2, c, d, a, b, block[15], 0xd8a1e681, 14);
    b := step(F2, b, c, d, a, block[4], 0xe7d3fbc8, 20);
    r := Four(schedule, r, 20);
    assert r == Registers(a, b, c, d);
    a := step(F2, a, b, c, d, block[9], 0x21e1cde6, 5);
    d := step(F2, d, a, b, c, block[14], 0xc33707d6, 9);
    c := step(F2, c, d, a, b, block[3], 0xf4d50d87, 14);
    b := step(F2, b, c, d, a, block[8], 0x455a14ed, 20);
    r := Four(schedule, r, 24);
    assert r == Registers(a, b, c, d);
    a := step(F2, a, b, c, d, block[13], 0xa9e3e905, 5);
    d := step(F2, d, a, b, c, block[2], 0xfcefa3f8, 9);
    c := step(F2, c, d, a, b, block[7], 0x676f02d9, 14);
    b := step(F2, b, c, d, a, block[12], 0x8d2a4c8a, 20);
    r := Four(schedule, r, 28);
    assert r == Registers(a, b, c, d);
  }

  method ThirdRound<W>(step: Step<W>, block: seq<W>, a0: W, b0: W, c0: W, d0: W) returns (a: W, b: W, c: W, d: W)
    requires |block| == 16
    ensures Registers(a, b, c, d) == Sixteen(RfcSchedule(step, block), Registers(a0, b0, c0, d0), 32)
  {
    ghost var schedule := RfcSchedule(step, block);
    ghost var r := Registers(a0, b0, c0, d0);
    a, b, c, d := a0, b0, c0, d0;
    a := step(F3, a, b, c, d, block[5], 0xfffa3942, 4);
    d := step(F3, d, a, b, c, block[8], 0x8771f681, 11);
    c := step(F3, c, d, a, b, block[11], 0x6d9d6122, 16);
    b := step(F3, b, c, d, a, block[14], 0xfde5380c, 23);
    r := Four(schedule, r, 32);
    assert r == Registers(a, b, c, d);
    a := step(F3, a, b, c, d, block[1], 0xa4beea44, 4);
    d := step(F3, d, a, b, c, block[4], 0x4bdecfa9, 11);
    c := step(F3, c, d, a, b, block[7], 0xf6bb4b60, 16);
    b := step(F3, b, c, d, a, block[10], 0xbebfbc70, 23);
    r := Four(schedule, r, 36);
    assert r == Registers(a, b, c, d);
    a := step(F3, a, b, c, d, block[13], 0x289b7ec6, 4);
    d := step(F3, d, a, b, c, block[0], 0xeaa127fa, 11);
    c := step(F3, c, d, a, b, block[3], 0xd4ef3085, 16);
    b := step(F3, b, c, d, a, block[6], 0x04881d05, 23);
    r := Four(schedule, r, 40);
    assert r == Registers(a, b, c, d);
    a := step(F3, a, b, c, d, block[9], 0xd9d4d039, 4);
    d := step(F3, d, a, b, c, block[12], 0xe6db99e5, 11);
    c := step(F3, c, d, a, b, block[15], 0x1fa27cf8, 16);
    b := step(F3, b, c, d, a, block[2], 0xc4ac5665, 23);
    r := Four(schedule, r, 44);
    assert r == Registers(a, b, c, d);
  }

  method FourthRound<W>(step: Step<W>, block: seq<W>, a0: W, b0: W, c0: W, d0: W) returns (a: W, b: W, c: W, d: W)
    requires |block| == 16
    ensures Registers(a, b, c, d) == Sixteen(RfcSchedule(step, block), Registers(a0, b0, c0, d0), 48)
  {
    ghost var schedule := RfcSchedule(step, block);
    ghost var r := Registers(a0, b0, c0, d0);
    a, b, c, d := a0, b0, c0, d0;
    a := step(F4, a, b, c, d, block[0], 0xf4292244, 6);
    d := step(F4, d, a, b, c, block[7], 0x432aff97, 10);
    c := step(F4, c, d, a, b, block[14], 0xab9423a7, 15);
    b := step(F4, b, c, d, a, block[5], 0xfc93a039, 21);
    r := Four(schedule, r, 48);
    assert r == Registers(a, b, c, d);
    a := step(F4, a, b, c, d, block[12], 0x655b59c3, 6);
    d := step(F4, d, a, b, c, block[3], 0x8f0ccc92, 10);
    c := step(F4, c, d, a, b, block[10], 0xffeff47d, 15);
    b := step(F4, b, c, d, a, block[1], 0x85845dd1, 21);
    r := Four(schedule, r, 52);
    assert r == Registers(a, b, c, d);
    a := step(F4, a, b, c, d, block[8], 0x6fa87e4f, 6);
    d := step(F4, d, a, b, c, block[15], 0xfe2ce6e0, 10);
    c := step(F4, c, d, a, b, block[6], 0xa3014314, 15);
    b := step(F4, b, c, d, a, block[13], 0x4e0811a1, 21);
    r := Four(schedule, r, 56);
    assert r == Registers(a, b, c, d);
    a := step(F4, a, b, c, d, block[4], 0xf7537e82, 6);
    d := step(F4, d, a, b, c, block[11], 0xbd3af235, 10);
    c := step(F4, c, d, a, b, block[2], 0x2ad7d2bb, 15);
    b := step(F4, b, c, d, a, block[9], 0xeb86d391, 21);
    r := Four(schedule, r, 60);
    assert r == Registers(a, b, c, d);
  }

  method FirstHalf<W>(step: Step<W>, block: seq<W>, a0: W, b0: W, c0: W, d0: W, ghost start: Registers<W>)
    returns (a: W, b: W, c: W, d: W)
    requires |block| == 16
    requires Registers(a0, b0, c0, d0) == Rounds(RfcSchedule(step, block), start, 0 * |block|)
    ensures Registers(a, b, c, d) == Rounds(RfcSchedule(step, block), start, 2 * |block|)
  {
    a, b, c, d := FirstRound(step, block, a0, b0, c0, d0);
    SixteenAreRounds(RfcSchedule(step, block), start, 0 * |block|);
    assert Registers(a, b, c, d) == Rounds(RfcSchedule(step, block), start, 1 * |block|);
    a, b, c, d := SecondRound(step, block, a, b, c, d);
    SixteenAreRounds(RfcSchedule(step, block), start, 1 * |block|);
  }

  method SecondHalf<W>(step: Step<W>, block: seq<W>, a0: W, b0: W, c0: W, d0: W, ghost start: Registers<W>)
    returns (a: W, b: W, c: W, d: W)
    requires |block| == 16
    requires Registers(a0, b0, c0, d0) == Rounds(RfcSchedule(step, block), start, 2 * |block|)
    ensures Registers(a, b, c, d) == Rounds(RfcSchedule(step, block), start, 4 * |block|)
  {
    a, b, c, d := ThirdRound(step, block, a0, b0, c0, d0);
    SixteenAreRounds(RfcSchedule(step, block), start, 2 * |block|);
    assert Registers(a, b, c, d) == Rounds(RfcSchedule(step, block), start, 3 * |block|);
    a, b, c, d := FourthRound(step, block, a, b, c, d);
    SixteenAreRounds(RfcSchedule(step, block), start, 3 * |block|);
  }

  method Unrolled<W>(step: Step<W>, block: seq<W>, a0: W, b0: W, c0: W, d0: W) returns (a: W, b: W, c: W, d: W)
    requires |block| == 16
    ensures Registers(a, b, c, d) == Rounds(RfcSchedule(step, block), Registers(a0, b0, c0, d0), 4 * |block|)
  {
    ghost var start := Registers(a0, b0, c0, d0);
    a, b, c, d := FirstHalf(step, block, a0, b0, c0, d0, start);
    a, b, c, d := SecondHalf(step, block, a, b, c, d, start);
  }

  /** What MD5Transform does to the state. */
  function CodeCompress(r: Registers<Word>, block: Block): Registers<Word> {
    Sum(r, Rounds(RfcSchedule(CodeStep, block), r, 4 * |block|))
  }

  method AddTo(buf: array<Word>, a: Word, b: Word, c: Word, d: Word)
    requires buf.Length == 4
    modifies buf
    ensures Registers(buf[0], buf[1], buf[2], buf[3])
      == Sum(old(Registers(buf[0], buf[1], buf[2], buf[3])), Registers(a, b, c, d))
  {
    var sum := Sum(Registers(buf[0], buf[1], buf[2], buf[3]), Registers(a, b, c, d));
    buf[0], buf[1], buf[2], buf[3] := sum.a, sum.b, sum.c, sum.d;
  }

  method MD5Transform(buf: array<Word>, block: Block)
    requires buf.Length == 4
    modifies buf
    ensures Registers(buf[0], buf[1], buf[2], buf[3])
      == CodeCompress(old(Registers(buf[0], buf[1], buf[2], buf[3])), block)
  {
    var a, b, c, d := Unrolled(CodeStep, block, buf[0], buf[1], buf[2], buf[3]);
    AddTo(buf, a, b, c, d);
  }

  /** MD5Transform is the compression of RFC 1321, for every state and every block. */
  lemma {:induction false} TransformIsRfc(r: Registers<Word>, block: Block)
    ensures CodeCompress(r, block) == RfcCompress(r, block)
  {
    forall f, w, x, y, z, xk, ti, s
      ensures CodeStep(f, w, x, y, z, xk, ti, s) == RfcOperation(f, w, x, y, z, xk, ti, s)
    {
      StepAgrees(f, w, x, y, z, xk, ti, s);
    }
    SameSchedule(CodeStep, RfcOperation, block);
    SameRounds(RfcSchedule(CodeStep, block), RfcSchedule(RfcOperation, block), r, 4 * |block|);
  }
}
