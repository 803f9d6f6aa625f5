/**
  The digest of "a" from appendix A.5 of RFC 1321, by its 64 operations, and the initial registers of section 3.3 as
  the bytes that the section lists. They pin the constants, the padding and the byte order that the general results
  take from the definitions.
*/
module Md5Vectors {
  import opened Md5Transform
  import opened Md5

  /** Section 3.3 gives the registers with the low-order byte first. */
  lemma {:induction false} InitialRegisters()
    ensures OutputBytes(INIT) == [
      0x01, 0x23, 0x45, 0x67, 0x89, 0xab, 0xcd, 0xef, 0xfe, 0xdc, 0xba, 0x98, 0x76, 0x54, 0x32, 0x10]
  {
    FourEncoded(INIT.a, INIT.b, INIT.c, INIT.d);
  }

  lemma {:induction false} FourEncoded(a: Word, b: Word, c: Word, d: Word)
    ensures Encode([a, b, c, d]) == LittleBytes(a) + LittleBytes(b) + LittleBytes(c) + LittleBytes(d)
  {
    TwoEncoded(a, b);
    assert [a, b, c, d][..3] == [a, b, c] && [a, b, c][..2] == [a, b];
  }

  lemma {:induction false} TwoEncoded(a: Word, b: Word)
    ensures Encode([a, b]) == LittleBytes(a) + LittleBytes(b)
  {
    assert [a, b][..1] == [a] && [a][..0] == [];
    assert Encode([]) == [] && Encode([a]) == [] + LittleBytes(a);
  }

  // ---------------------------------------------------------------- the padded message

  const MESSAGE: seq<Byte> := [0x61]  // "a"

  lemma {:induction false} LengthOfOne()
    ensures Encode(LengthWords(1)) == [8, 0, 0, 0, 0, 0, 0, 0]
  {
    assert WordOf(1) == 1 by { assert WordOf(0) == 0; }
    assert WordOf(2) == 2 && WordOf(4) == 4;
    assert WordOf(8) == 8;
    assert LengthWords(1) == [8, 0];
    TwoEncoded(8, 0);
  }

  /** One byte, the mark, 54 zeros, and the length of 8 bits. */
  lemma {:induction false} PaddedMessage()
    ensures Padded(MESSAGE) == [0x61, 0x80] + Zeros(54) + [8, 0, 0, 0, 0, 0, 0, 0]
  {
    LengthOfOne();
    assert ZeroCount(1) == 54;
  }

  lemma {:induction false} LittleOfFour(b: seq<Byte>)
    requires |b| == 4
    ensures b == [0x61, 0x80, 0, 0] ==> Little(b) == 0x8061
    ensures b == [8, 0, 0, 0] ==> Little(b) == 8
    ensures b == [0, 0, 0, 0] ==> Little(b) == 0
  {
  }

  /** The one block that the message is padded to. */
  predicate IsBlock(block: seq<Word>) {
    |block| == 16 && block[0] == 0x8061 && block[14] == 8 && forall k :: 1 <= k < 16 && k != 14 ==> block[k] == 0
  }

  lemma {:induction false} WordOfMessage(p: seq<Byte>, k: nat)
    requires p == [0x61, 0x80] + Zeros(54) + [8, 0, 0, 0, 0, 0, 0, 0] && k < 16
    ensures Little(p[4 * k..4 * k + 4]) == if k == 0 then 0x8061 else if k == 14 then 8 else 0
  {
    var b := p[4 * k..4 * k + 4];
    assert b == [p[4 * k], p[4 * k + 1], p[4 * k + 2], p[4 * k + 3]];
    LittleOfFour(b);
  }

  lemma {:induction false} BlockOfMessage()
    ensures |Padded(MESSAGE)| == 64 && IsBlock(Words(Padded(MESSAGE)))
  {
    PaddedMessage();
    var p := Padded(MESSAGE);
    forall k | 0 <= k < 16 ensures Words(p)[k] == if k == 0 then 0x8061 else if k == 14 then 8 else 0 {
      WordOfMessage(p, k);
    }
  }

  // ---------------------------------------------------------------- the 64 operations

  lemma {:induction false} Operations0To3(block: seq<Word>)
    requires |block| == 16 && block[0] == 0x00008061 && block[1] == 0 && block[2] == 0 && block[3] == 0
    ensures Four(RfcSchedule(RfcOperation, block), Registers(0x67452301, 0xefcdab89, 0x98badcfe, 0x10325476), 0)
      == Registers(0xa56017f4, 0x607d9686, 0xe65857a7, 0xf2d58361)
  {
    assert Sine(0) == 0xd76aa478 && Sine(1) == 0xe8c7b756;
    assert Sine(2) == 0x242070db && Sine(3) == 0xc1bdceee;
    assert Operate(RfcOperation, block, Registers(0x67452301, 0xefcdab89, 0x98badcfe, 0x10325476), 0)
      == Registers(0xa56017f4, 0xefcdab89, 0x98badcfe, 0x10325476);
    assert Operate(RfcOperation, block, Registers(0xa56017f4, 0xefcdab89, 0x98badcfe, 0x10325476), 1)
      == Registers(0xa56017f4, 0xefcdab89, 0x98badcfe, 0xf2d58361);
    assert Operate(RfcOperation, block, Registers(0xa56017f4, 0xefcdab89, 0x98badcfe, 0xf2d58361), 2)
      == Registers(0xa56017f4, 0xefcdab89, 0xe65857a7, 0xf2d58361);
    assert Operate(RfcOperation, block, Registers(0xa56017f4, 0xefcdab89, 0xe65857a7, 0xf2d58361), 3)
      == Registers(0xa56017f4, 0x607d9686, 0xe65857a7, 0xf2d58361);
  }

  lemma {:induction false} Operations4To7(block: seq<Word>)
    requires |block| == 16 && block[4] == 0 && block[5] == 0 && block[6] == 0 && block[7] == 0
    ensures Four(RfcSchedule(RfcOperation, block), Registers(0xa56017f4, 0x607d9686, 0xe65857a7, 0xf2d58361), 4)
      == Registers(0x3a9d5bcc, 0xa8af6da5, 0xd31ddc83, 0xe0a07db7)
  {
    assert Sine(4) == 0xf57c0faf && Sine(5) == 0x4787c62a;
    assert Sine(6) == 0xa8304613 && Sine(7) == 0xfd469501;
    assert Operate(RfcOperation, block, Registers(0xa56017f4, 0x607d9686, 0xe65857a7, 0xf2d58361), 4)
      == Registers(0x3a9d5bcc, 0x607d9686, 0xe65857a7, 0xf2d58361);
    assert Operate(RfcOperation, block, Registers(0x3a9d5bcc, 0x607d9686, 0xe65857a7, 0xf2d58361), 5)
      == Registers(0x3a9d5bcc, 0x607d9686, 0xe65857a7, 0xe0a07db7);
    assert Operate(RfcOperation, block, Registers(0x3a9d5bcc, 0x607d9686, 0xe65857a7, 0xe0a07db7), 6)
      == Registers(0x3a9d5bcc, 0x607d9686, 0xd31ddc83, 0xe0a07db7);
    assert Operate(RfcOperation, block, Registers(0x3a9d5bcc, 0x607d9686, 0xd31ddc83, 0xe0a07db7), 7)
      == Registers(0x3a9d5bcc, 0xa8af6da5, 0xd31ddc83, 0xe0a07db7);
  }

  lemma {:induction false} Operations8To11(block: seq<Word>)
    requires |block| == 16 && block[8] == 0 && block[9] == 0 && block[10] == 0 && block[11] == 0
    ensures Four(RfcSchedule(RfcOperation, block), Registers(0x3a9d5bcc, 0xa8af6da5, 0xd31ddc83, 0xe0a07db7), 8)
      == Registers(0xbe580957, 0x68493d6a, 0xf5fdd933, 0xf386bea6)
  {
    assert Sine(8) == 0x698098d8 && Sine(9) == 0x8b44f7af;
    assert Sine(10) == 0xffff5bb1 && Sine(11) == 0x895cd7be;
    assert Operate(RfcOperation, block, Registers(0x3a9d5bcc, 0xa8af6da5, 0xd31ddc83, 0xe0a07db7), 8)
      == Registers(0xbe580957, 0xa8af6da5, 0xd31ddc83, 0xe0a07db7);
    assert Operate(RfcOperation, block, Registers(0xbe580957, 0xa8af6da5, 0xd31ddc83, 0xe0a07db7), 9)
      == Registers(0xbe580957, 0xa8af6da5, 0xd31ddc83, 0xf386bea6);
    assert Operate(RfcOperation, block, Registers(0xbe580957, 0xa8af6da5, 0xd31ddc83, 0xf386bea6), 10)
      == Registers(0xbe580957, 0xa8af6da5, 0xf5fdd933, 0xf386bea6);
    assert Operate(RfcOperation, block, Registers(0xbe580957, 0xa8af6da5, 0xf5fdd933, 0xf386bea6), 11)
      == Registers(0xbe580957, 0x68493d6a, 0xf5fdd933, 0xf386bea6);
  }

  lemma {:induction false} Operations12To15(block: seq<Word>)
    requires |block| == 16 && block[12] == 0 && block[13] == 0 && block[14] == 0x00000008 && block[15] == 0
    ensures Four(RfcSchedule(RfcOperation, block), Registers(0xbe580957, 0x68493d6a, 0xf5fdd933, 0xf386bea6), 12)
      == Registers(0x44244cf8, 0xf01e3ce2, 0x6360a45f, 0xd0fe9b27)
  {
    assert Sine(12) == 0x6b901122 && Sine(13) == 0xfd987193;
    assert Sine(14) == 0xa679438e && Sine(15) == 0x49b40821;
    assert Operate(RfcOperation, block, Registers(0xbe580957, 0x68493d6a, 0xf5fdd933, 0xf386bea6), 12)
      == Registers(0x44244cf8, 0x68493d6a, 0xf5fdd933, 0xf386bea6);
    assert Operate(RfcOperation, block, Registers(0x44244cf8, 0x68493d6a, 0xf5fdd933, 0xf386bea6), 13)
      == Registers(0x44244cf8, 0x68493d6a, 0xf5fdd933, 0xd0fe9b27);
    assert Operate(RfcOperation, block, Registers(0x44244cf8, 0x68493d6a, 0xf5fdd933, 0xd0fe9b27), 14)
      == Registers(0x44244cf8, 0x68493d6a, 0x6360a45f, 0xd0fe9b27);
    assert Operate(RfcOperation, block, Registers(0x44244cf8, 0x68493d6a, 0x6360a45f, 0xd0fe9b27), 15)
      == Registers(0x44244cf8, 0xf01e3ce2, 0x6360a45f, 0xd0fe9b27);
  }

  lemma {:induction false} Operations16To19(block: seq<Word>)
    requires |block| == 16 && block[1] == 0 && block[6] == 0 && block[11] == 0 && block[0] == 0x00008061
    ensures Four(RfcSchedule(RfcOperation, block), Registers(0x44244cf8, 0xf01e3ce2, 0x6360a45f, 0xd0fe9b27), 16)
      == Registers(0x9c341767, 0x8d25cc66, 0xe39ffd23, 0x970ab3a9)
  {
    assert Sine(16) == 0xf61e2562 && Sine(17) == 0xc040b340;
    assert Sine(18) == 0x265e5a51 && Sine(19) == 0xe9b6c7aa;
    assert Operate(RfcOperation, block, Registers(0x44244cf8, 0xf01e3ce2, 0x6360a45f, 0xd0fe9b27), 16)
      == Registers(0x9c341767, 0xf01e3ce2, 0x6360a45f, 0xd0fe9b27);
    assert Operate(RfcOperation, block, Registers(0x9c341767, 0xf01e3ce2, 0x6360a45f, 0xd0fe9b27), 17)
      == Registers(0x9c341767, 0xf01e3ce2, 0x6360a45f, 0x970ab3a9);
    assert Operate(RfcOperation, block, Registers(0x9c341767, 0xf01e3ce2, 0x6360a45f, 0x970ab3a9), 18)
      == Registers(0x9c341767, 0xf01e3ce2, 0xe39ffd23, 0x970ab3a9);
    assert Operate(RfcOperation, block, Registers(0x9c341767, 0xf01e3ce2, 0xe39ffd23, 0x970ab3a9), 19)
      == Registers(0x9c341767, 0x8d25cc66, 0xe39ffd23, 0x970ab3a9);
  }

  lemma {:induction false} Operations20To23(block: seq<Word>)
    requires |block| == 16 && block[5] == 0 && block[10] == 0 && block[15] == 0 && block[4] == 0
    ensures Four(RfcSchedule(RfcOperation, block), Registers(0x9c341767, 0x8d25cc66, 0xe39ffd23, 0x970ab3a9), 20)
      == Registers(0x8c444930, 0x373beab0, 0x2dacb8a3, 0x7267097a)
  {
    assert Sine(20) == 0xd62f105d && Sine(21) == 0x02441453;
    assert Sine(22) == 0xd8a1e681 && Sine(23) == 0xe7d3fbc8;
    assert Operate(RfcOperation, block, Registers(0x9c341767, 0x8d25cc66, 0xe39ffd23, 0x970ab3a9), 20)
      == Registers(0x8c444930, 0x8d25cc66, 0xe39ffd23, 0x970ab3a9);
    assert Operate(RfcOperation, block, Registers(0x8c444930, 0x8d25cc66, 0xe39ffd23, 0x970ab3a9), 21)
      == Registers(0x8c444930, 0x8d25cc66, 0xe39ffd23, 0x7267097a);
    assert Operate(RfcOperation, block, Registers(0x8c444930, 0x8d25cc66, 0xe39ffd23, 0x7267097a), 22)
      == Registers(0x8c444930, 0x8d25cc66, 0x2dacb8a3, 0x7267097a);
    assert Operate(RfcOperation, block, Registers(0x8c444930, 0x8d25cc66, 0x2dacb8a3, 0x7267097a), 23)
      == Registers(0x8c444930, 0x373beab0, 0x2dacb8a3, 0x7267097a);
  }

  lemma {:induction false} Operations24To27(block: seq<Word>)
    requires |block| == 16 && block[9] == 0 && block[14] == 0x00000008 && block[3] == 0 && block[8] == 0
    ensures Four(RfcSchedule(RfcOperation, block), Registers(0x8c444930, 0x373beab0, 0x2dacb8a3, 0x7267097a), 24)
      == Registers(0xf175e3ad, 0xc8f891b4, 0x87b7f475, 0x9d5df67e)
  {
    assert Sine(24) == 0x21e1cde6 && Sine(25) == 0xc33707d6;
    assert Sine(26) == 0xf4d50d87 && Sine(27) == 0x455a14ed;
    assert Operate(RfcOperation, block, Registers(0x8c444930, 0x373beab0, 0x2dacb8a3, 0x7267097a), 24)
      == Registers(0xf175e3ad, 0x373beab0, 0x2dacb8a3, 0x7267097a);
    assert Operate(RfcOperation, block, Registers(0xf175e3ad, 0x373beab0, 0x2dacb8a3, 0x7267097a), 25)
      == Registers(0xf175e3ad, 0x373beab0, 0x2dacb8a3, 0x9d5df67e);
    assert Operate(RfcOperation, block, Registers(0xf175e3ad, 0x373beab0, 0x2dacb8a3, 0x9d5df67e), 26)
      == Registers(0xf175e3ad, 0x373beab0, 0x87b7f475, 0x9d5df67e);
    assert Operate(RfcOperation, block, Registers(0xf175e3ad, 0x373beab0, 0x87b7f475, 0x9d5df67e), 27)
      == Registers(0xf175e3ad, 0xc8f891b4, 0x87b7f475, 0x9d5df67e);
  }

  lemma {:induction false} Operations28To31(block: seq<Word>)
    requires |block| == 16 && block[13] == 0 && block[2] == 0 && block[7] == 0 && block[12] == 0
    ensures Four(RfcSchedule(RfcOperation, block), Registers(0xf175e3ad, 0xc8f891b4, 0x87b7f475, 0x9d5df67e), 28)
      == Registers(0x93842e98, 0x3745961f, 0x94a2ebee, 0xc7043b64)
  {
    assert Sine(28) == 0xa9e3e905 && Sine(29) == 0xfcefa3f8;
    assert Sine(30) == 0x676f02d9 && Sine(31) == 0x8d2a4c8a;
    assert Operate(RfcOperation, block, Registers(0xf175e3ad, 0xc8f891b4, 0x87b7f475, 0x9d5df67e), 28)
      == Registers(0x93842e98, 0xc8f891b4, 0x87b7f475, 0x9d5df67e);
    assert Operate(RfcOperation, block, Registers(0x93842e98, 0xc8f891b4, 0x87b7f475, 0x9d5df67e), 29)
      == Registers(0x93842e98, 0xc8f891b4, 0x87b7f475, 0xc7043b64);
    assert Operate(RfcOperation, block, Registers(0x93842e98, 0xc8f891b4, 0x87b7f475, 0xc7043b64), 30)
      == Registers(0x93842e98, 0xc8f891b4, 0x94a2ebee, 0xc7043b64);
    assert Operate(RfcOperation, block, Registers(0x93842e98, 0xc8f891b4, 0x94a2ebee, 0xc7043b64), 31)
      == Registers(0x93842e98, 0x3745961f, 0x94a2ebee, 0xc7043b64);
  }

  lemma {:induction false} Operations32To35(block: seq<Word>)
    requires |block| == 16 && block[5] == 0 && block[8] == 0 && block[11] == 0 && block[14] == 0x00000008
    ensures Four(RfcSchedule(RfcOperation, block), Registers(0x93842e98, 0x3745961f, 0x94a2ebee, 0xc7043b64), 32)
      == Registers(0xbd607d1e, 0xdaf7f308, 0xbf8b4f98, 0xa6f72085)
  {
    assert Sine(32) == 0xfffa3942 && Sine(33) == 0x8771f681;
    assert Sine(34) == 0x6d9d6122 && Sine(35) == 0xfde5380c;
    assert Operate(RfcOperation, block, Registers(0x93842e98, 0x3745961f, 0x94a2ebee, 0xc7043b64), 32)
      == Registers(0xbd607d1e, 0x3745961f, 0x94a2ebee, 0xc7043b64);
    assert Operate(RfcOperation, block, Registers(0xbd607d1e, 0x3745961f, 0x94a2ebee, 0xc7043b64), 33)
      == Registers(0xbd607d1e, 0x3745961f, 0x94a2ebee, 0xa6f72085);
    assert Operate(RfcOperation, block, Registers(0xbd607d1e, 0x3745961f, 0x94a2ebee, 0xa6f72085), 34)
      == Registers(0xbd607d1e, 0x3745961f, 0xbf8b4f98, 0xa6f72085);
    assert Operate(RfcOperation, block, Registers(0xbd607d1e, 0x3745961f, 0xbf8b4f98, 0xa6f72085), 35)
      == Registers(0xbd607d1e, 0xdaf7f308, 0xbf8b4f98, 0xa6f72085);
  }

  lemma {:induction false} Operations36To39(block: seq<Word>)
    requires |block| == 16 && block[1] == 0 && block[4] == 0 && block[7] == 0 && block[10] == 0
    ensures Four(RfcSchedule(RfcOperation, block), Registers(0xbd607d1e, 0xdaf7f308, 0xbf8b4f98, 0xa6f72085), 36)
      == Registers(0x35a82a7a, 0xcf7e60db, 0x5abe099c, 0x89e0ec97)
  {
    assert Sine(36) == 0xa4beea44 && Sine(37) == 0x4bdecfa9;
    assert Sine(38) == 0xf6bb4b60 && Sine(39) == 0xbebfbc70;
    assert Operate(RfcOperation, block, Registers(0xbd607d1e, 0xdaf7f308, 0xbf8b4f98, 0xa6f72085), 36)
      == Registers(0x35a82a7a, 0xdaf7f308, 0xbf8b4f98, 0xa6f72085);
    assert Operate(RfcOperation, block, Registers(0x35a82a7a, 0xdaf7f308, 0xbf8b4f98, 0xa6f72085), 37)
      == Registers(0x35a82a7a, 0xdaf7f308, 0xbf8b4f98, 0x89e0ec97);
    assert Operate(RfcOperation, block, Registers(0x35a82a7a, 0xdaf7f308, 0xbf8b4f98, 0x89e0ec97), 38)
      == Registers(0x35a82a7a, 0xdaf7f308, 0x5abe099c, 0x89e0ec97);
    assert Operate(RfcOperation, block, Registers(0x35a82a7a, 0xdaf7f308, 0x5abe099c, 0x89e0ec97), 39)
      == Registers(0x35a82a7a, 0xcf7e60db, 0x5abe099c, 0x89e0ec97);
  }

  lemma {:induction false} Operations40To43(block: seq<Word>)
    requires |block| == 16 && block[13] == 0 && block[0] == 0x00008061 && block[3] == 0 && block[6] == 0
    ensures Four(RfcSchedule(RfcOperation, block), Registers(0x35a82a7a, 0xcf7e60db, 0x5abe099c, 0x89e0ec97), 40)
      == Registers(0x75c151e2, 0xcc6f5e9e, 0x0c0e6ac4, 0x942e0c86)
  {
    assert Sine(40) == 0x289b7ec6 && Sine(41) == 0xeaa127fa;
    assert Sine(42) == 0xd4ef3085 && Sine(43) == 0x04881d05;
    assert Operate(RfcOperation, block, Registers(0x35a82a7a, 0xcf7e60db, 0x5abe099c, 0x89e0ec97), 40)
      == Registers(0x75c151e2, 0xcf7e60db, 0x5abe099c, 0x89e0ec97);
    assert Operate(RfcOperation, block, Registers(0x75c151e2, 0xcf7e60db, 0x5abe099c, 0x89e0ec97), 41)
      == Registers(0x75c151e2, 0xcf7e60db, 0x5abe099c, 0x942e0c86);
    assert Operate(RfcOperation, block, Registers(0x75c151e2, 0xcf7e60db, 0x5abe099c, 0x942e0c86), 42)
      == Registers(0x75c151e2, 0xcf7e60db, 0x0c0e6ac4, 0x942e0c86);
    assert Operate(RfcOperation, block, Registers(0x75c151e2, 0xcf7e60db, 0x0c0e6ac4, 0x942e0c86), 43)
      == Registers(0x75c151e2, 0xcc6f5e9e, 0x0c0e6ac4, 0x942e0c86);
  }

  lemma {:induction false} Operations44To47(block: seq<Word>)
    requires |block| == 16 && block[9] == 0 && block[12] == 0 && block[15] == 0 && block[2] == 0
    ensures Four(RfcSchedule(RfcOperation, block), Registers(0x75c151e2, 0xcc6f5e9e, 0x0c0e6ac4, 0x942e0c86), 44)
      == Registers(0x0ac50e18, 0x918f93bb, 0x8a4a6356, 0x79ca7845)
  {
    assert Sine(44) == 0xd9d4d039 && Sine(45) == 0xe6db99e5;
    assert Sine(46) == 0x1fa27cf8 && Sine(47) == 0xc4ac5665;
    assert Operate(RfcOperation, block, Registers(0x75c151e2, 0xcc6f5e9e, 0x0c0e6ac4, 0x942e0c86), 44)
      == Registers(0x0ac50e18, 0xcc6f5e9e, 0x0c0e6ac4, 0x942e0c86);
    assert Operate(RfcOperation, block, Registers(0x0ac50e18, 0xcc6f5e9e, 0x0c0e6ac4, 0x942e0c86), 45)
      == Registers(0x0ac50e18, 0xcc6f5e9e, 0x0c0e6ac4, 0x79ca7845);
    assert Operate(RfcOperation, block, Registers(0x0ac50e18, 0xcc6f5e9e, 0x0c0e6ac4, 0x79ca7845), 46)
      == Registers(0x0ac50e18, 0xcc6f5e9e, 0x8a4a6356, 0x79ca7845);
    assert Operate(RfcOperation, block, Registers(0x0ac50e18, 0xcc6f5e9e, 0x8a4a6356, 0x79ca7845), 47)
      == Registers(0x0ac50e18, 0x918f93bb, 0x8a4a6356, 0x79ca7845);
  }

  lemma {:induction false} Operations48To51(block: seq<Word>)
    requires |block| == 16 && block[0] == 0x00008061 && block[7] == 0 && block[14] == 0x00000008 && block[5] == 0
    ensures Four(RfcSchedule(RfcOperation, block), Registers(0x0ac50e18, 0x918f93bb, 0x8a4a6356, 0x79ca7845), 48)
      == Registers(0xcab8fe42, 0x1ee405eb, 0x36269c3f, 0x6a4daeee)
  {
    assert Sine(48) == 0xf4292244 && Sine(49) == 0x432aff97;
    assert Sine(50) == 0xab9423a7 && Sine(51) == 0xfc93a039;
    assert Operate(RfcOperation, block, Registers(0x0ac50e18, 0x918f93bb, 0x8a4a6356, 0x79ca7845), 48)
      == Registers(0xcab8fe42, 0x918f93bb, 0x8a4a6356, 0x79ca7845);
    assert Operate(RfcOperation, block, Registers(0xcab8fe42, 0x918f93bb, 0x8a4a6356, 0x79ca7845), 49)
      == Registers(0xcab8fe42, 0x918f93bb, 0x8a4a6356, 0x6a4daeee);
    assert Operate(RfcOperation, block, Registers(0xcab8fe42, 0x918f93bb, 0x8a4a6356, 0x6a4daeee), 50)
      == Registers(0xcab8fe42, 0x918f93bb, 0x36269c3f, 0x6a4daeee);
    assert Operate(RfcOperation, block, Registers(0xcab8fe42, 0x918f93bb, 0x36269c3f, 0x6a4daeee), 51)
      == Registers(0xcab8fe42, 0x1ee405eb, 0x36269c3f, 0x6a4daeee);
  }

  lemma {:induction false} Operations52To55(block: seq<Word>)
    requires |block| == 16 && block[12] == 0 && block[3] == 0 && block[10] == 0 && block[1] == 0
    ensures Four(RfcSchedule(RfcOperation, block), Registers(0xcab8fe42, 0x1ee405eb, 0x36269c3f, 0x6a4daeee), 52)
      == Registers(0x982c7861, 0x893501c0, 0x71fc7709, 0x6812a362)
  {
    assert Sine(52) == 0x655b59c3 && Sine(53) == 0x8f0ccc92;
    assert Sine(54) == 0xffeff47d && Sine(55) == 0x85845dd1;
    assert Operate(RfcOperation, block, Registers(0xcab8fe42, 0x1ee405eb, 0x36269c3f, 0x6a4daeee), 52)
      == Registers(0x982c7861, 0x1ee405eb, 0x36269c3f, 0x6a4daeee);
    assert Operate(RfcOperation, block, Registers(0x982c7861, 0x1ee405eb, 0x36269c3f, 0x6a4daeee), 53)
      == Registers(0x982c7861, 0x1ee405eb, 0x36269c3f, 0x6812a362);
    assert Operate(RfcOperation, block, Registers(0x982c7861, 0x1ee405eb, 0x36269c3f, 0x6812a362), 54)
      == Registers(0x982c7861, 0x1ee405eb, 0x71fc7709, 0x6812a362);
    assert Operate(RfcOperation, block, Registers(0x982c7861, 0x1ee405eb, 0x71fc7709, 0x6812a362), 55)
      == Registers(0x982c7861, 0x893501c0, 0x71fc7709, 0x6812a362);
  }

  lemma {:induction false} Operations56To59(block: seq<Word>)
    requires |block| == 16 && block[8] == 0 && block[15] == 0 && block[6] == 0 && block[13] == 0
    ensures Four(RfcSchedule(RfcOperation, block), Registers(0x982c7861, 0x893501c0, 0x71fc7709, 0x6812a362), 56)
      == Registers(0xfebd62fd, 0xaa4d8ae3, 0x53e33526, 0x28936a74)
  {
    assert Sine(56) == 0x6fa87e4f && Sine(57) == 0xfe2ce6e0;
    assert Sine(58) == 0xa3014314 && Sine(59) == 0x4e0811a1;
    assert Operate(RfcOperation, block, Registers(0x982c7861, 0x893501c0, 0x71fc7709, 0x6812a362), 56)
      == Registers(0xfebd62fd, 0x893501c0, 0x71fc7709, 0x6812a362);
    assert Operate(RfcOperation, block, Registers(0xfebd62fd, 0x893501c0, 0x71fc7709, 0x6812a362), 57)
      == Registers(0xfebd62fd, 0x893501c0, 0x71fc7709, 0x28936a74);
    assert Operate(RfcOperation, block, Registers(0xfebd62fd, 0x893501c0, 0x71fc7709, 0x28936a74), 58)
      == Registers(0xfebd62fd, 0x893501c0, 0x53e33526, 0x28936a74);
    assert Operate(RfcOperation, block, Registers(0xfebd62fd, 0x893501c0, 0x53e33526, 0x28936a74), 59)
      == Registers(0xfebd62fd, 0xaa4d8ae3, 0x53e33526, 0x28936a74);
  }

  lemma {:induction false} Operations60To63(block: seq<Word>)
    requires |block| == 16 && block[4] == 0 && block[11] == 0 && block[2] == 0 && block[9] == 0
    ensures Four(RfcSchedule(RfcOperation, block), Registers(0xfebd62fd, 0xaa4d8ae3, 0x53e33526, 0x28936a74), 60)
      == Registers(0x52309e0b, 0xb8e94637, 0x49dee633, 0x50f422f3)
  {
    assert Sine(60) == 0xf7537e82 && Sine(61) == 0xbd3af235;
    assert Sine(62) == 0x2ad7d2bb && Sine(63) == 0xeb86d391;
    assert Operate(RfcOperation, block, Registers(0xfebd62fd, 0xaa4d8ae3, 0x53e33526, 0x28936a74), 60)
      == Registers(0x52309e0b, 0xaa4d8ae3, 0x53e33526, 0x28936a74);
    assert Operate(RfcOperation, block, Registers(0x52309e0b, 0xaa4d8ae3, 0x53e33526, 0x28936a74), 61)
      == Registers(0x52309e0b, 0xaa4d8ae3, 0x53e33526, 0x50f422f3);
    assert Operate(RfcOperation, block, Registers(0x52309e0b, 0xaa4d8ae3, 0x53e33526, 0x50f422f3), 62)
      == Registers(0x52309e0b, 0xaa4d8ae3, 0x49dee633, 0x50f422f3);
    assert Operate(RfcOperation, block, Registers(0x52309e0b, 0xaa4d8ae3, 0x49dee633, 0x50f422f3), 63)
      == Registers(0x52309e0b, 0xb8e94637, 0x49dee633, 0x50f422f3);
  }

  lemma {:induction false} Round1(block: seq<Word>)
    requires IsBlock(block)
    ensures Sixteen(RfcSchedule(RfcOperation, block), Registers(0x67452301, 0xefcdab89, 0x98badcfe, 0x10325476), 0)
      == Registers(0x44244cf8, 0xf01e3ce2, 0x6360a45f, 0xd0fe9b27)
  {
    Operations0To3(block);
    Operations4To7(block);
    Operations8To11(block);
    Operations12To15(block);
  }

  lemma {:induction false} Round2(block: seq<Word>)
    requires IsBlock(block)
    ensures Sixteen(RfcSchedule(RfcOperation, block), Registers(0x44244cf8, 0xf01e3ce2, 0x6360a45f, 0xd0fe9b27), 16)
      == Registers(0x93842e98, 0x3745961f, 0x94a2ebee, 0xc7043b64)
  {
    Operations16To19(block);
    Operations20To23(block);
    Operations24To27(block);
    Operations28To31(block);
  }

  lemma {:induction false} Round3(block: seq<Word>)
    requires IsBlock(block)
    ensures Sixteen(RfcSchedule(RfcOperation, block), Registers(0x93842e98, 0x3745961f, 0x94a2ebee, 0xc7043b64), 32)
      == Registers(0x0ac50e18, 0x918f93bb, 0x8a4a6356, 0x79ca7845)
  {
    Operations32To35(block);
    Operations36To39(block);
    Operations40To43(block);
    Operations44To47(block);
  }

  lemma {:induction false} Round4(block: seq<Word>)
    requires IsBlock(block)
    ensures Sixteen(RfcSchedule(RfcOperation, block), Registers(0x0ac50e18, 0x918f93bb, 0x8a4a6356, 0x79ca7845), 48)
      == Registers(0x52309e0b, 0xb8e94637, 0x49dee633, 0x50f422f3)
  {
    Operations48To51(block);
    Operations52To55(block);
    Operations56To59(block);
    Operations60To63(block);
  }

  lemma {:induction false} SixteensAreRounds<W>(schedule: Schedule<W>, r: Registers<W>)
    ensures Sixteen(schedule, Sixteen(schedule, Sixteen(schedule, Sixteen(schedule, r, 0), 16), 32), 48)
      == Rounds(schedule, r, 64)
  {
    assert Rounds(schedule, r, 0) == r;
    SixteenAreRounds(schedule, r, 0);
    SixteenAreRounds(schedule, r, 16);
    SixteenAreRounds(schedule, r, 32);
    SixteenAreRounds(schedule, r, 48);
  }

  lemma {:induction false} Compressed(block: Block)
    requires IsBlock(block)
    ensures RfcCompress(INIT, block) == Registers(0xb975c10c, 0xa8b6f1c0, 0xe299c331, 0x61267769)
  {
    Round1(block);
    Round2(block);
    Round3(block);
    Round4(block);
    SixteensAreRounds(RfcSchedule(RfcOperation, block), INIT);
  }

  // ---------------------------------------------------------------- the digest

  lemma {:induction false} OneBlock(transform: Transform, message: seq<Byte>)
    requires |message| == 64
    ensures Fold(transform, INIT, message) == transform(INIT, Words(message))
  {
    assert message[..0] == [] && message[0..] == message;
  }

  lemma {:induction false} OutputOfMessage()
    ensures OutputBytes(Registers(0xb975c10c, 0xa8b6f1c0, 0xe299c331, 0x61267769)) == [
      0x0c, 0xc1, 0x75, 0xb9, 0xc0, 0xf1, 0xb6, 0xa8, 0x31, 0xc3, 0x99, 0xe2, 0x69, 0x77, 0x26, 0x61]
  {
    FourEncoded(0xb975c10c, 0xa8b6f1c0, 0xe299c331, 0x61267769);
  }

  /** MD5 ("a") = 0cc175b9c0f1b6a831c399e269772661. */
  lemma {:induction false} DigestOfA()
    ensures RfcDigest([0x61]) == [
      0x0c, 0xc1, 0x75, 0xb9, 0xc0, 0xf1, 0xb6, 0xa8, 0x31, 0xc3, 0x99, 0xe2, 0x69, 0x77, 0x26, 0x61]
  {
    BlockOfMessage();
    OneBlock(RfcCompress, Padded(MESSAGE));
    Compressed(Words(Padded(MESSAGE)));
    OutputOfMessage();
  }
}
