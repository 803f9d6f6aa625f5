/**
  The byte format of src/base/pickle.h and src/base/pickle.cc on a 64-bit little-endian machine: what each typed
  write appends, what each typed read returns and where it leaves the iterator, and how pickles in a row are found.
*/
module PickleFormat {
  import opened Options
  import opened Bits

  type Byte = x: int | 0 <= x < 256

  const INT_MAX: int := 0x7FFF_FFFF
  const TWO_32: nat := 0x1_0000_0000

  // ---------------------------------------------------------------- numbers as bytes

  function Pow256(k: nat): (p: nat)
    ensures p >= 1
  {
    if k == 0 then 1 else 256 * Pow256(k - 1)
  }

  /** The k bytes of n, low-order byte first. */
  function Digits(n: nat, k: nat): (b: seq<Byte>)
    ensures |b| == k
  {
    if k == 0 then [] else [n % 256] + Digits(n / 256, k - 1)
  }

  function Number(b: seq<Byte>): nat {
    if b == [] then 0 else b[0] + 256 * Number(b[1..])
  }

  lemma {:induction false} NumberOfDigits(n: nat, k: nat)
    requires n < Pow256(k)
    ensures Number(Digits(n, k)) == n
  {
    if k > 0 {
      NumberOfDigits(n / 256, k - 1);
      assert Digits(n, k)[1..] == Digits(n / 256, k - 1);
    }
  }

  lemma {:induction false} NumberBelow(b: seq<Byte>)
    ensures Number(b) < Pow256(|b|)
  {
    if b != [] { NumberBelow(b[1..]); }
  }

  /** The two's complement pattern of x in k bytes, and back. */
  function Unsigned(x: int, k: nat): nat {
    var p: int := Pow256(k);
    if x >= 0 then x else if x + p >= 0 then x + p else 0
  }

  function Signed(n: int, k: nat): int {
    var p: int := Pow256(k);
    if 2 * n >= p then n - p else n
  }

  predicate SignedFits(x: int, k: nat) {
    var p: int := Pow256(k);
    -p <= 2 * x < p
  }

  /** The bytes of a string of 16-bit characters, and back. */
  function UnitBytes(s: seq<nat>): (b: seq<Byte>)
    ensures |b| == 2 * |s|
  {
    if s == [] then [] else Digits(s[0], 2) + UnitBytes(s[1..])
  }

  function Units(b: seq<Byte>): seq<nat> {
    if |b| < 2 then [] else [Number(b[..2])] + Units(b[2..])
  }

  lemma {:induction false} UnitsRoundTrip(s: seq<nat>)
    requires forall i :: 0 <= i < |s| ==> s[i] < Pow256(2)
    ensures Units(UnitBytes(s)) == s
  {
    if s != [] {
      var b := UnitBytes(s);
      var first, rest := Digits(s[0], 2), UnitBytes(s[1..]);
      assert b == first + rest && b[..2] == first && b[2..] == rest;
      NumberOfDigits(s[0], 2);
      UnitsRoundTrip(s[1..]);
    }
  }

  // ---------------------------------------------------------------- typed values

  /** One typed write; floats by their bit pattern. */
  datatype Field =
    | Bool(b: bool)
    | Int(i: int)
    | Long(i: int)
    | UInt16(n: nat)
    | UInt32(n: nat)
    | Int64(i: int)
    | UInt64(n: nat)
    | Float(n: nat)
    | Double(n: nat)
    | Str(s: seq<Byte>)
    | Str16(u: seq<nat>)
    | Data(s: seq<Byte>)
    | Raw(s: seq<Byte>)

  /** The value is one of its C++ type, and its byte count is below 2^31. */
  predicate Fits(f: Field) {
    match f
    case Bool(_) => true
    case Int(i) => SignedFits(i, 4)
    case Long(i) => SignedFits(i, 8)
    case UInt16(n) => n < Pow256(2)
    case UInt32(n) => n < Pow256(4)
    case Int64(i) => SignedFits(i, 8)
    case UInt64(n) => n < Pow256(8)
    case Float(n) => n < Pow256(4)
    case Double(n) => n < Pow256(8)
    case Str(s) => |s| <= INT_MAX
    case Str16(u) => 2 * |u| <= INT_MAX && forall i :: 0 <= i < |u| ==> u[i] < Pow256(2)
    case Data(s) => |s| <= INT_MAX
    case Raw(s) => |s| <= INT_MAX
  }

  /** The blocks a write hands to WriteBytesCommon, in order. */
  function Pieces(f: Field): seq<seq<Byte>> {
    match f
    case Bool(b) => [Digits(if b then 1 else 0, 4)]
    case Int(i) => [Digits(Unsigned(i, 4), 4)]
    case Long(i) => [Digits(Unsigned(i, 8), 8)]
    case UInt16(n) => [Digits(n, 2)]
    case UInt32(n) => [Digits(n, 4)]
    case Int64(i) => [Digits(Unsigned(i, 8), 8)]
    case UInt64(n) => [Digits(n, 8)]
    case Float(n) => [Digits(n, 4)]
    case Double(n) => [Digits(n, 8)]
    case Str(s) => [Digits(|s|, 4), s]
    case Str16(u) => [Digits(|u|, 4), UnitBytes(u)]
    case Data(s) => [Digits(|s|, 4), s]
    case Raw(s) => [s]
  }

  function Zeros(n: nat): (z: seq<Byte>)
    ensures |z| == n
  {
    seq(n, _ => 0)
  }

  /** The padding of n bytes to a multiple of four. */
  function Pad(n: nat): (z: nat)
    ensures z < 4 && (n + z) % 4 == 0
  {
    (4 - n % 4) % 4
  }

  /** What the code computes with bits::Align is n plus its padding. */
  lemma {:induction false} AlignAddsPad(n: nat)
    requires n <= 0x1_0000_0000
    ensures Align(n, 4) == n + Pad(n)
  {
  }

  /** A block with its padding. */
  function Padded(piece: seq<Byte>): (p: seq<Byte>)
    ensures |p| % 4 == 0
  {
    piece + Zeros(Pad(|piece|))
  }

  function Layout(pieces: seq<seq<Byte>>): (p: seq<Byte>)
    ensures |p| % 4 == 0
  {
    if pieces == [] then [] else Layout(pieces[..|pieces| - 1]) + Padded(pieces[|pieces| - 1])
  }

  /** What a write appends to the payload. */
  function Encoded(f: Field): (p: seq<Byte>)
    ensures |p| % 4 == 0
  {
    Layout(Pieces(f))
  }

  /** The results of f on the elements, one after the other. */
  function Concat<A, B>(f: A -> seq<B>, xs: seq<A>): seq<B> {
    if xs == [] then [] else Concat(f, xs[..|xs| - 1]) + f(xs[|xs| - 1])
  }

  lemma {:induction false} ConcatFirst<A, B>(f: A -> seq<B>, xs: seq<A>)
    requires xs != []
    ensures Concat(f, xs) == f(xs[0]) + Concat(f, xs[1..])
  {
    var n := |xs| - 1;
    if n == 0 {
      assert xs[..n] == [] && xs[1..] == [];
    } else {
      var first, rest := f(xs[0]), xs[1..];
      calc {
        Concat(f, xs);
      ==
        Concat(f, xs[..n]) + f(xs[n]);
      == { ConcatFirst(f, xs[..n]); assert xs[..n][1..] == rest[..n - 1]; }
        (first + Concat(f, rest[..n - 1])) + f(xs[n]);
      ==
        first + (Concat(f, rest[..n - 1]) + f(rest[n - 1]));
      ==
        first + Concat(f, rest);
      }
    }
  }

  /** What a sequence of writes appends to the payload. */
  function EncodedAll(fs: seq<Field>): seq<Byte> {
    Concat(Encoded, fs)
  }

  // ---------------------------------------------------------------- the reader

  datatype Kind =
    | KBool | KInt | KLong | KUInt16 | KUInt32 | KInt64 | KUInt64 | KFloat | KDouble
    | KStr | KStr16 | KData | KRaw(length: int)

  function KindOf(f: Field): Kind {
    match f
    case Bool(_) => KBool
    case Int(_) => KInt
    case Long(_) => KLong
    case UInt16(_) => KUInt16
    case UInt32(_) => KUInt32
    case Int64(_) => KInt64
    case UInt64(_) => KUInt64
    case Float(_) => KFloat
    case Double(_) => KDouble
    case Str(_) => KStr
    case Str16(_) => KStr16
    case Data(_) => KData
    case Raw(s) => KRaw(|s|)
  }

  /** PickleIterator::Advance; the aligned size is at most 2^31 bytes, see AlignAddsPad. */
  function Advance(end: nat, index: nat, size: nat): (next: nat)
    requires index <= end
    ensures next <= end
  {
    if end - index < size + Pad(size) then end else index + size + Pad(size)
  }

  /** GetReadPointerAndAdvance(num_bytes): the bytes, and the index afterwards. */
  function Take(payload: seq<Byte>, index: nat, n: int): (r: (Option<seq<Byte>>, nat))
    requires index <= |payload|
    ensures r.1 <= |payload|
    ensures r.0.Some? ==> |r.0.value| == n
  {
    if n < 0 || |payload| - index < n then (None, |payload|)
    else (Some(payload[index..index + n]), Advance(|payload|, index, n))
  }

  predicate Int32(n: int) {
    -INT_MAX - 1 <= n <= INT_MAX
  }

  /** GetReadPointerAndAdvance(num_elements, 2). */
  function TakeUnits(payload: seq<Byte>, index: nat, n: int): (r: (Option<seq<Byte>>, nat))
    requires index <= |payload|
    ensures r.1 <= |payload|
  {
    if !Int32(2 * n) then (None, index) else Take(payload, index, 2 * n)
  }

  function ReadInt(payload: seq<Byte>, index: nat): (r: (Option<int>, nat))
    requires index <= |payload|
    ensures r.1 <= |payload|
  {
    var (b, next) := Take(payload, index, 4);
    (if b.Some? then Some(Signed(Number(b.value), 4)) else None, next)
  }

  /** A number of k bytes. */
  function ReadNumber(payload: seq<Byte>, index: nat, k: nat, make: nat -> Field): (r: (Option<Field>, nat))
    requires index <= |payload|
    ensures r.1 <= |payload|
  {
    var (b, next) := Take(payload, index, k);
    (if b.Some? then Some(make(Number(b.value))) else None, next)
  }

  /** A block whose length was written before it. */
  function ReadBlock(payload: seq<Byte>, index: nat, make: seq<Byte> -> Field): (r: (Option<Field>, nat))
    requires index <= |payload|
    ensures r.1 <= |payload|
  {
    var (len, start) := ReadInt(payload, index);
    if len.None? then (None, start)
    else
      var (b, next) := Take(payload, start, len.value);
      (if b.Some? then Some(make(b.value)) else None, next)
  }

  function ReadUnits(payload: seq<Byte>, index: nat): (r: (Option<Field>, nat))
    requires index <= |payload|
    ensures r.1 <= |payload|
  {
    var (len, start) := ReadInt(payload, index);
    if len.None? then (None, start)
    else
      var (b, next) := TakeUnits(payload, start, len.value);
      (if b.Some? then Some(Str16(Units(b.value))) else None, next)
  }

  /** What each ReadX returns (None is false) and where it leaves read_index_. */
  function ReadField(payload: seq<Byte>, index: nat, kind: Kind): (r: (Option<Field>, nat))
    requires index <= |payload|
    ensures r.1 <= |payload|
  {
    match kind
    case KBool => ReadNumber(payload, index, 1, (n: nat) => Bool(n != 0))
    case KInt => ReadNumber(payload, index, 4, (n: nat) => Int(Signed(n, 4)))
    case KLong => ReadNumber(payload, index, 8, (n: nat) => Long(Signed(n, 8)))
    case KUInt16 => ReadNumber(payload, index, 2, (n: nat) => UInt16(n))
    case KUInt32 => ReadNumber(payload, index, 4, (n: nat) => UInt32(n))
    case KInt64 => ReadNumber(payload, index, 8, (n: nat) => Int64(Signed(n, 8)))
    case KUInt64 => ReadNumber(payload, index, 8, (n: nat) => UInt64(n))
    case KFloat => ReadNumber(payload, index, 4, (n: nat) => Float(n))
    case KDouble => ReadNumber(payload, index, 8, (n: nat) => Double(n))
    case KStr => ReadBlock(payload, index, (b: seq<Byte>) => Str(b))
    case KStr16 => ReadUnits(payload, index)
    case KData => ReadBlock(payload, index, (b: seq<Byte>) => Data(b))
    case KRaw(n) =>
      var (b, next) := Take(payload, index, n);
      (if b.Some? then Some(Raw(b.value)) else None, next)
  }

  /** One read: from an index, of a kind; None is a failure. */
  type Reader<!K, !V> = (nat, K) -> (Option<V>, nat)

  /** Reads the kinds in order; None as soon as one read fails. */
  function ReadEach<K, V>(read: Reader<K, V>, index: nat, kinds: seq<K>): (Option<seq<V>>, nat)
    decreases |kinds|
  {
    if kinds == [] then (Some([]), index)
    else
      var (f, next) := read(index, kinds[0]);
      if f.None? then (None, next)
      else
        var (fs, end) := ReadEach(read, next, kinds[1..]);
        (if fs.Some? then Some([f.value] + fs.value) else None, end)
  }

  function FieldReader(payload: seq<Byte>): Reader<Kind, Field> {
    (index: nat, kind: Kind) => if index <= |payload| then ReadField(payload, index, kind) else (None, index)
  }

  function ReadAll(payload: seq<Byte>, index: nat, kinds: seq<Kind>): (Option<seq<Field>>, nat) {
    ReadEach(FieldReader(payload), index, kinds)
  }

  // ---------------------------------------------------------------- reading undoes writing

  /** A padded block is read back whole, and the index lands behind the padding. */
  lemma {:induction false} TakePadded(pre: seq<Byte>, piece: seq<Byte>, post: seq<Byte>)
    ensures Take(pre + Padded(piece) + post, |pre|, |piece|) == (Some(piece), |pre| + |Padded(piece)|)
  {
    var payload := pre + Padded(piece) + post;
    assert payload[|pre|..|pre| + |piece|] == piece;
  }

  lemma {:induction false} SignedRoundTrip(x: int, k: nat)
    requires SignedFits(x, k)
    ensures 0 <= Unsigned(x, k) < Pow256(k) && Signed(Unsigned(x, k), k) == x
    ensures Number(Digits(Unsigned(x, k), k)) == Unsigned(x, k)
  {
    NumberOfDigits(Unsigned(x, k), k);
  }

  lemma {:induction false} LayoutOne(p: seq<Byte>)
    ensures Layout([p]) == Padded(p)
  {
    assert [p][..0] == [];
    assert Layout([p][..0]) == [];
  }

  lemma {:induction false} LayoutTwo(p: seq<Byte>, q: seq<Byte>)
    ensures Layout([p, q]) == Padded(p) + Padded(q)
  {
    LayoutOne(p);
    assert [p, q][..1] == [p];
  }

  lemma {:induction false} DigitsComeBack(b: seq<Byte>, pre: seq<Byte>, post: seq<Byte>, make: nat -> Field)
    ensures ReadNumber(pre + Padded(b) + post, |pre|, |b|, make) == (Some(make(Number(b))), |pre| + |Padded(b)|)
  {
    TakePadded(pre, b, post);
  }

  lemma {:induction false} NumberComesBack(
      f: Field, pre: seq<Byte>, post: seq<Byte>, n: nat, k: nat, make: nat -> Field)
    requires Pieces(f) == [Digits(n, k)] && n < Pow256(k) && make(n) == f
    ensures ReadNumber(pre + Encoded(f) + post, |pre|, k, make) == (Some(f), |pre| + |Encoded(f)|)
  {
    var b := Digits(n, k);
    LayoutOne(b);
    DigitsComeBack(b, pre, post, make);
    NumberOfDigits(n, k);
  }

  lemma {:induction false} BoolComesBack(b: bool, pre: seq<Byte>, post: seq<Byte>)
    ensures ReadField(pre + Encoded(Bool(b)) + post, |pre|, KBool) == (Some(Bool(b)), |pre| + |Encoded(Bool(b))|)
  {
    var n := if b then 1 else 0;
    LayoutOne(Digits(n, 4));
    var payload := pre + Encoded(Bool(b)) + post;
    assert payload[|pre|] == n;
    assert payload[|pre|..|pre| + 1] == [n];
    assert Number([n]) == n by { assert [n][1..] == []; }
  }

  lemma {:induction false} LengthComesBack(pre: seq<Byte>, len: nat, post: seq<Byte>)
    requires len <= INT_MAX
    ensures ReadInt(pre + Padded(Digits(len, 4)) + post, |pre|) == (Some(len), |pre| + 4)
  {
    assert Pow256(4) == TWO_32;
    TakePadded(pre, Digits(len, 4), post);
    NumberOfDigits(len, 4);
  }

  lemma {:induction false} BlockComesBack(s: seq<Byte>, pre: seq<Byte>, post: seq<Byte>, make: seq<Byte> -> Field)
    requires |s| <= INT_MAX
    ensures var code := Padded(Digits(|s|, 4)) + Padded(s);
      ReadBlock(pre + code + post, |pre|, make) == (Some(make(s)), |pre| + |code|)
  {
    var head := Padded(Digits(|s|, 4));
    assert pre + (head + Padded(s)) + post == pre + head + (Padded(s) + post);
    LengthComesBack(pre, |s|, Padded(s) + post);
    assert pre + (head + Padded(s)) + post == (pre + head) + Padded(s) + post;
    TakePadded(pre + head, s, post);
  }

  lemma {:induction false} UnitsComeBack(u: seq<nat>, pre: seq<Byte>, post: seq<Byte>)
    requires 2 * |u| <= INT_MAX && Units(UnitBytes(u)) == u
    ensures var code := Layout([Digits(|u|, 4), UnitBytes(u)]);
      ReadUnits(pre + code + post, |pre|) == (Some(Str16(u)), |pre| + |code|)
  {
    LayoutTwo(Digits(|u|, 4), UnitBytes(u));
    UnitBlockComesBack(|u|, UnitBytes(u), pre, post);
  }

  lemma {:induction false} UnitBlockComesBack(n: nat, b: seq<Byte>, pre: seq<Byte>, post: seq<Byte>)
    requires |b| == 2 * n <= INT_MAX
    ensures var code := Padded(Digits(n, 4)) + Padded(b);
      ReadUnits(pre + code + post, |pre|) == (Some(Str16(Units(b))), |pre| + |code|)
  {
    var head, tail := Padded(Digits(n, 4)), Padded(b);
    assert pre + (head + tail) + post == pre + head + (tail + post);
    LengthComesBack(pre, n, tail + post);
    assert pre + (head + tail) + post == (pre + head) + tail + post;
    TakePadded(pre + head, b, post);
  }

  lemma {:induction false} SignedComesBack(f: Field, pre: seq<Byte>, post: seq<Byte>)
    requires Fits(f) && (f.Int? || f.Long? || f.Int64?)
    ensures ReadField(pre + Encoded(f) + post, |pre|, KindOf(f)) == (Some(f), |pre| + |Encoded(f)|)
  {
    if f.Int? {
      SignedRoundTrip(f.i, 4);
      NumberComesBack(f, pre, post, Unsigned(f.i, 4), 4, (n: nat) => Int(Signed(n, 4)));
    } else if f.Long? {
      SignedRoundTrip(f.i, 8);
      NumberComesBack(f, pre, post, Unsigned(f.i, 8), 8, (n: nat) => Long(Signed(n, 8)));
    } else if f.Int64? {
      SignedRoundTrip(f.i, 8);
      NumberComesBack(f, pre, post, Unsigned(f.i, 8), 8, (n: nat) => Int64(Signed(n, 8)));
    }
  }

  lemma {:induction false} UnsignedComesBack(f: Field, pre: seq<Byte>, post: seq<Byte>)
    requires Fits(f) && (f.UInt16? || f.UInt32? || f.UInt64?)
    ensures ReadField(pre + Encoded(f) + post, |pre|, KindOf(f)) == (Some(f), |pre| + |Encoded(f)|)
  {
    if f.UInt16? {
      NumberComesBack(f, pre, post, f.n, 2, (n: nat) => UInt16(n));
    } else if f.UInt32? {
      NumberComesBack(f, pre, post, f.n, 4, (n: nat) => UInt32(n));
    } else if f.UInt64? {
      NumberComesBack(f, pre, post, f.n, 8, (n: nat) => UInt64(n));
    }
  }

  lemma {:induction false} FloatComesBack(f: Field, pre: seq<Byte>, post: seq<Byte>)
    requires Fits(f) && (f.Float? || f.Double?)
    ensures ReadField(pre + Encoded(f) + post, |pre|, KindOf(f)) == (Some(f), |pre| + |Encoded(f)|)
  {
    if f.Float? {
      NumberComesBack(f, pre, post, f.n, 4, (n: nat) => Float(n));
    } else if f.Double? {
      NumberComesBack(f, pre, post, f.n, 8, (n: nat) => Double(n));
    }
  }

  lemma {:induction false} BytesComeBack(f: Field, pre: seq<Byte>, post: seq<Byte>)
    requires Fits(f) && (f.Str? || f.Data? || f.Raw?)
    ensures ReadField(pre + Encoded(f) + post, |pre|, KindOf(f)) == (Some(f), |pre| + |Encoded(f)|)
  {
    if f.Str? {
      LayoutTwo(Digits(|f.s|, 4), f.s);
      BlockComesBack(f.s, pre, post, (b: seq<Byte>) => Str(b));
    } else if f.Data? {
      LayoutTwo(Digits(|f.s|, 4), f.s);
      BlockComesBack(f.s, pre, post, (b: seq<Byte>) => Data(b));
    } else {
      LayoutOne(f.s);
      TakePadded(pre, f.s, post);
    }
  }

  /** Any typed write, wherever it stands in the payload, is undone by the matching read. */
  lemma {:induction false} FieldComesBack(f: Field, pre: seq<Byte>, post: seq<Byte>)
    requires Fits(f)
    ensures ReadField(pre + Encoded(f) + post, |pre|, KindOf(f)) == (Some(f), |pre| + |Encoded(f)|)
  {
    match f {
      case Bool(b) => BoolComesBack(b, pre, post);
      case Int(_) => SignedComesBack(f, pre, post);
      case Long(_) => SignedComesBack(f, pre, post);
      case Int64(_) => SignedComesBack(f, pre, post);
      case UInt16(_) => UnsignedComesBack(f, pre, post);
      case UInt32(_) => UnsignedComesBack(f, pre, post);
      case UInt64(_) => UnsignedComesBack(f, pre, post);
      case Float(_) => FloatComesBack(f, pre, post);
      case Double(_) => FloatComesBack(f, pre, post);
      case Str(_) => BytesComeBack(f, pre, post);
      case Str16(u) => UnitsRoundTrip(u); UnitsComeBack(u, pre, post);
      case Data(_) => BytesComeBack(f, pre, post);
      case Raw(_) => BytesComeBack(f, pre, post);
    }
  }

  function Mapped<A, B>(f: A -> B, xs: seq<A>): (r: seq<B>)
    ensures |r| == |xs|
  {
    seq(|xs|, i requires 0 <= i < |xs| => f(xs[i]))
  }

  function Kinds(fs: seq<Field>): seq<Kind> {
    Mapped(KindOf, fs)
  }

  /** The reader undoes the encoding at one place of the payload. */
  ghost predicate Undoes<K, V(!new)>(
      read: Reader<K, V>, payload: seq<Byte>, kind: V -> K, code: V -> seq<Byte>, fits: V -> bool)
  {
    forall f, pre, post {:trigger pre + code(f) + post} :: fits(f) ==>
      UndoesAt(read, payload, kind, code, f, pre, post)
  }

  ghost predicate UndoesAt<K, V>(
      read: Reader<K, V>, payload: seq<Byte>, kind: V -> K, code: V -> seq<Byte>, f: V, pre: seq<Byte>, post: seq<Byte>)
  {
    payload == pre + code(f) + post ==> read(|pre|, kind(f)) == (Some(f), |pre| + |code(f)|)
  }

  lemma {:induction false} EachComesBack<K, V(!new)>(
      read: Reader<K, V>, payload: seq<Byte>, kind: V -> K, code: V -> seq<Byte>, fits: V -> bool,
      fs: seq<V>, pre: seq<Byte>, post: seq<Byte>)
    requires Undoes(read, payload, kind, code, fits) && forall i :: 0 <= i < |fs| ==> fits(fs[i])
    requires payload == pre + Concat(code, fs) + post
    ensures ReadEach(read, |pre|, Mapped(kind, fs)) == (Some(fs), |pre| + |Concat(code, fs)|)
    decreases |fs|
  {
    if fs != [] {
      var first, rest := code(fs[0]), Concat(code, fs[1..]);
      ConcatFirst(code, fs);
      assert payload == pre + first + (rest + post) && payload == (pre + first) + rest + post;
      EachComesBack(read, payload, kind, code, fits, fs[1..], pre + first, post);
      assert Mapped(kind, fs)[1..] == Mapped(kind, fs[1..]);
      assert fs == [fs[0]] + fs[1..];
    }
  }

  lemma {:induction false} FieldReaderReads(payload: seq<Byte>, index: nat, kind: Kind)
    requires index <= |payload|
    ensures FieldReader(payload)(index, kind) == ReadField(payload, index, kind)
  {
  }

  lemma {:induction false} ReaderUndoesOne(payload: seq<Byte>, f: Field, pre: seq<Byte>, post: seq<Byte>)
    requires Fits(f)
    ensures UndoesAt(FieldReader(payload), payload, KindOf, Encoded, f, pre, post)
  {
    if payload == pre + Encoded(f) + post {
      calc {
        FieldReader(payload)(|pre|, KindOf(f));
      == { FieldReaderReads(payload, |pre|, KindOf(f)); }
        ReadField(payload, |pre|, KindOf(f));
      == { FieldComesBack(f, pre, post); }
        (Some(f), |pre| + |Encoded(f)|);
      }
    }
  }

  lemma {:induction false} ReaderUndoes(payload: seq<Byte>)
    ensures Undoes(FieldReader(payload), payload, KindOf, Encoded, Fits)
  {
    forall f: Field, pre, post | Fits(f)
      ensures UndoesAt(FieldReader(payload), payload, KindOf, Encoded, f, pre, post)
    {
      ReaderUndoesOne(payload, f, pre, post);
    }
  }

  /** Every sequence of typed writes is read back by the matching reads, which consume exactly its bytes. */
  lemma {:induction false} FieldsComeBack(fs: seq<Field>, pre: seq<Byte>, post: seq<Byte>)
    requires forall i :: 0 <= i < |fs| ==> Fits(fs[i])
    ensures ReadAll(pre + EncodedAll(fs) + post, |pre|, Kinds(fs)) == (Some(fs), |pre| + |EncodedAll(fs)|)
  {
    var payload := pre + EncodedAll(fs) + post;
    ReaderUndoes(payload);
    EachComesBack(FieldReader(payload), payload, KindOf, Encoded, Fits, fs, pre, post);
  }

  // ---------------------------------------------------------------- reading arbitrary bytes

  predicate AlignedOrEnd(end: nat, index: nat) {
    index <= end && (index % 4 == 0 || index == end)
  }

  /** Whatever the bytes are, a read keeps the index aligned or at the end. */
  lemma {:induction false} TakeKeepsAligned(payload: seq<Byte>, index: nat, n: int)
    requires AlignedOrEnd(|payload|, index)
    ensures AlignedOrEnd(|payload|, Take(payload, index, n).1)
  {
  }

  lemma {:induction false} BlockKeepsAligned(payload: seq<Byte>, index: nat, make: seq<Byte> -> Field)
    requires AlignedOrEnd(|payload|, index)
    ensures AlignedOrEnd(|payload|, ReadBlock(payload, index, make).1)
    ensures AlignedOrEnd(|payload|, ReadUnits(payload, index).1)
  {
    TakeKeepsAligned(payload, index, 4);
    var (len, start) := ReadInt(payload, index);
    if len.Some? {
      TakeKeepsAligned(payload, start, len.value);
      TakeKeepsAligned(payload, start, 2 * len.value);
    }
  }

  lemma {:induction false} ReadKeepsAligned(payload: seq<Byte>, index: nat, kind: Kind)
    requires AlignedOrEnd(|payload|, index)
    ensures AlignedOrEnd(|payload|, ReadField(payload, index, kind).1)
  {
    match kind {
      case KStr => BlockKeepsAligned(payload, index, (b: seq<Byte>) => Str(b));
      case KStr16 => BlockKeepsAligned(payload, index, (b: seq<Byte>) => Str(b));
      case KData => BlockKeepsAligned(payload, index, (b: seq<Byte>) => Data(b));
      case KBool => TakeKeepsAligned(payload, index, 1);
      case KUInt16 => TakeKeepsAligned(payload, index, 2);
      case KRaw(n) => TakeKeepsAligned(payload, index, n);
      case _ =>
        TakeKeepsAligned(payload, index, 4);
        TakeKeepsAligned(payload, index, 8);
    }
  }

  /** So from the start of the payload every run of reads, failed or not, stays at multiples of four or at the end. */
  lemma {:induction false} ReadsStayAligned(payload: seq<Byte>, kinds: seq<Kind>)
    ensures ReadAll(payload, 0, kinds).1 % 4 == 0 || ReadAll(payload, 0, kinds).1 == |payload|
  {
    ReadsFromAligned(payload, 0, kinds);
  }

  lemma {:induction false} ReadsFromAligned(payload: seq<Byte>, index: nat, kinds: seq<Kind>)
    requires AlignedOrEnd(|payload|, index)
    ensures AlignedOrEnd(|payload|, ReadAll(payload, index, kinds).1)
    decreases |kinds|
  {
    if kinds != [] {
      ReadKeepsAligned(payload, index, kinds[0]);
      ReadsFromAligned(payload, ReadField(payload, index, kinds[0]).1, kinds[1..]);
    }
  }

  /** The length field of a 16-bit string asks for more bytes than an int counts. */
  predicate CountOverflows(payload: seq<Byte>, index: nat, kind: Kind)
    requires index <= |payload|
  {
    kind.KStr16? && ReadInt(payload, index).0.Some? && !Int32(2 * ReadInt(payload, index).0.value)
  }

  /** A failed read leaves the iterator at the end, except behind an overflowing count that is not the last thing. */
  lemma {:induction false} FailedReadEnds(payload: seq<Byte>, index: nat, kind: Kind)
    requires index <= |payload| && ReadField(payload, index, kind).0.None?
    ensures ReadField(payload, index, kind).1 == |payload|
      <==> !CountOverflows(payload, index, kind) || |payload| == index + 4
    ensures CountOverflows(payload, index, kind) ==> ReadField(payload, index, kind).1 == index + 4
  {
  }

  /** At the end nothing can be read any more but an empty stretch, and nothing leads away from it. */
  lemma {:induction false} ReadAtEnd(payload: seq<Byte>, kind: Kind)
    ensures ReadField(payload, |payload|, kind).0.Some? <==> kind == KRaw(0)
    ensures ReadField(payload, |payload|, kind).1 == |payload|
  {
  }

  lemma {:induction false} OneByteCanBeRead(payload: seq<Byte>, index: nat)
    requires index < |payload|
    ensures ReadField(payload, index, KRaw(1)).0.Some?
  {
  }

  /** After a failed read every other one fails too, but for empty stretches, under the same condition. */
  lemma {:induction false} FailedReadIsLast(payload: seq<Byte>, index: nat, kind: Kind)
    requires index <= |payload| && ReadField(payload, index, kind).0.None?
    ensures (forall next: Kind :: next != KRaw(0) ==>
        ReadField(payload, ReadField(payload, index, kind).1, next).0.None?)
      <==> !CountOverflows(payload, index, kind) || |payload| == index + 4
  {
    FailedReadEnds(payload, index, kind);
    var after := ReadField(payload, index, kind).1;
    if after == |payload| {
      forall next: Kind | next != KRaw(0) ensures ReadField(payload, after, next).0.None? {
        ReadAtEnd(payload, next);
      }
    } else {
      OneByteCanBeRead(payload, after);
      assert KRaw(1) != KRaw(0);
    }
  }

  lemma {:induction false} TwoBytes(n: nat, low: Byte, high: Byte)
    requires n == low + 256 * high
    ensures Digits(n, 2) == [low, high]
  {
    assert Digits(n / 256, 1) == [high] by { assert Digits(high, 1) == [high] + Digits(0, 0); }
  }

  lemma {:induction false} FourBytes(n: nat, a: Byte, b: Byte, c: Byte, d: Byte)
    requires n == a + 256 * (b + 256 * (c + 256 * d))
    ensures Digits(n, 4) == [a, b, c, d]
  {
    TwoBytes(c + 256 * d, c, d);
    assert Digits(b + 256 * (c + 256 * d), 3) == [b] + Digits(c + 256 * d, 2);
    assert Digits(n, 4) == [a] + Digits(b + 256 * (c + 256 * d), 3);
  }

  /** The first exception is real: a length of 2^30 with bytes behind it. */
  lemma {:induction false} FailedReadCanGoOn()
    ensures var payload := [0, 0, 0, 64, 7, 0, 0, 0];
      && ReadField(payload, 0, KStr16) == (None, 4)
      && ReadField(payload, 4, KInt) == (Some(Int(7)), 8)
  {
    var payload: seq<Byte> := [0, 0, 0, 64, 7, 0, 0, 0];
    FourBytes(0x4000_0000, 0, 0, 0, 64);
    FourBytes(7, 7, 0, 0, 0);
    assert payload[0..4] == [0, 0, 0, 64] && payload[4..8] == [7, 0, 0, 0];
    assert Pow256(4) == TWO_32;
    NumberOfDigits(0x4000_0000, 4);
    NumberOfDigits(7, 4);
  }

  /** And so is the second: two bytes are no int, but behind them an empty stretch is read. */
  lemma {:induction false} FailedReadLeavesEmptyReads()
    ensures ReadField([1, 2], 0, KInt) == (None, 2) && ReadField([1, 2], 2, KRaw(0)) == (Some(Raw([])), 2)
  {
    var payload: seq<Byte> := [1, 2];
    assert payload[2..2] == [];
  }

  /** In numbers: a count of at least 2^30 characters, or below -2^30. */
  lemma {:induction false} OverflowingCounts(payload: seq<Byte>, index: nat)
    requires index <= |payload|
    ensures var count := ReadInt(payload, index).0;
      CountOverflows(payload, index, KStr16) <==>
        count.Some? && (count.value >= 0x4000_0000 || count.value < -0x4000_0000)
  {
  }

  /** The values that fit are those of the C++ types. */
  lemma {:induction false} FitsByType(i: int, n: nat)
    ensures Fits(Int(i)) <==> -0x8000_0000 <= i < 0x8000_0000
    ensures Fits(Int64(i)) <==> -0x8000_0000_0000_0000 <= i < 0x8000_0000_0000_0000
    ensures Fits(Long(i)) <==> Fits(Int64(i))
    ensures (Fits(UInt16(n)) <==> n < 0x1_0000) && (Fits(UInt32(n)) <==> n < 0x1_0000_0000)
    ensures (Fits(Float(n)) <==> n < 0x1_0000_0000) && (Fits(UInt64(n)) <==> n < 0x1_0000_0000_0000_0000)
    ensures Fits(Double(n)) <==> Fits(UInt64(n))
  {
    PowersOfTwoAndFour();
    PowerOfEight();
  }

  /** And texts and data of less than 2^31 bytes. */
  lemma {:induction false} TextsFit(s: seq<Byte>, u: seq<nat>)
    ensures (Fits(Str(s)) <==> |s| < 0x8000_0000) && (Fits(Data(s)) <==> Fits(Str(s)))
    ensures Fits(Raw(s)) <==> Fits(Str(s))
    ensures Fits(Str16(u)) <==> |u| < 0x4000_0000 && forall k :: 0 <= k < |u| ==> u[k] < 0x1_0000
  {
    PowersOfTwoAndFour();
  }

  lemma {:induction false} PowersOfTwoAndFour()
    ensures Pow256(2) == 0x1_0000 && Pow256(4) == 0x1_0000_0000
  {
  }

  lemma {:induction false} PowerOfEight()
    ensures Pow256(8) == 0x1_0000_0000_0000_0000
  {
    assert Pow256(4) == 0x1_0000_0000;
    assert Pow256(6) == 256 * Pow256(5) && Pow256(5) == 256 * Pow256(4);
    assert Pow256(8) == 256 * Pow256(7) && Pow256(7) == 256 * Pow256(6);
  }

  // ---------------------------------------------------------------- the format by example

  lemma {:induction false} OnePiece(f: Field, piece: seq<Byte>)
    requires Pieces(f) == [piece]
    ensures Encoded(f) == piece + Zeros(Pad(|piece|))
  {
    LayoutOne(piece);
  }

  lemma {:induction false} TwoPieces(f: Field, count: seq<Byte>, text: seq<Byte>)
    requires Pieces(f) == [count, text] && |count| == 4
    ensures Encoded(f) == count + text + Zeros(Pad(|text|))
  {
    LayoutTwo(count, text);
  }

  /** Numbers are low-order byte first, negative ones in two's complement, and padded with zeros to four bytes. */
  lemma {:induction false} NumbersByExample()
    ensures Encoded(Int(-2)) == [254, 255, 255, 255] && Encoded(UInt32(0x0403_0201)) == [1, 2, 3, 4]
    ensures Encoded(Bool(true)) == [1, 0, 0, 0] && Encoded(Bool(false)) == [0, 0, 0, 0]
    ensures Encoded(UInt16(0x0201)) == [1, 2, 0, 0]
  {
    assert Pow256(4) == TWO_32;
    FourBytes(0xFFFF_FFFE, 254, 255, 255, 255);
    OnePiece(Int(-2), [254, 255, 255, 255]);
    FourBytes(0x0403_0201, 1, 2, 3, 4);
    OnePiece(UInt32(0x0403_0201), [1, 2, 3, 4]);
    FourBytes(1, 1, 0, 0, 0);
    OnePiece(Bool(true), [1, 0, 0, 0]);
    FourBytes(0, 0, 0, 0, 0);
    OnePiece(Bool(false), [0, 0, 0, 0]);
    TwoBytes(0x0201, 1, 2);
    OnePiece(UInt16(0x0201), [1, 2]);
  }

  /** Texts and data have their length in front, in characters, and are padded with zeros. */
  lemma {:induction false} TextsByExample()
    ensures Encoded(Str([104, 105, 33])) == [3, 0, 0, 0, 104, 105, 33, 0]
    ensures Encoded(Str16([0x0201])) == [1, 0, 0, 0, 1, 2, 0, 0]
    ensures Encoded(Data([7])) == [1, 0, 0, 0, 7, 0, 0, 0] && Encoded(Raw([7])) == [7, 0, 0, 0]
  {
    FourBytes(3, 3, 0, 0, 0);
    TwoPieces(Str([104, 105, 33]), [3, 0, 0, 0], [104, 105, 33]);
    FourBytes(1, 1, 0, 0, 0);
    TwoBytes(0x0201, 1, 2);
    assert UnitBytes([0x0201]) == [1, 2] by { assert UnitBytes([]) == []; }
    TwoPieces(Str16([0x0201]), [1, 0, 0, 0], [1, 2]);
    TwoPieces(Data([7]), [1, 0, 0, 0], [7]);
    OnePiece(Raw([7]), [7]);
  }
}
