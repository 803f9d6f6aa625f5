/** PickleIterator and PickleSizer of src/base/pickle.cc as they run, and the three classes put together. */
module PickleReaders {
  import opened Options
  import opened Bits
  import opened PickleFormat
  import opened Pickles

  lemma {:induction false} SliceOfSlice(b: seq<Byte>, from: nat, to: nat, i: nat, n: nat)
    requires from + i + n <= to <= |b|
    ensures b[from..to][i..i + n] == b[from + i..from + i + n]
  {
    var x, y := b[from..to][i..i + n], b[from + i..from + i + n];
    forall k | 0 <= k < n ensures x[k] == y[k] {
      assert x[k] == b[from..to][i + k] == b[from + (i + k)];
    }
  }

  // ---------------------------------------------------------------- the reader

  class PickleIterator {
    /** The block payload_ points into, null where payload_ is NULL, and payload_'s place in it. */
    const block: array?<Byte>
    const start: nat
    const endIndex: nat
    var readIndex: nat

    /** Kept by every read, whatever the bytes say. */
    ghost predicate Valid()
      reads this
    {
      && (block == null ==> endIndex == 0)
      && (block != null ==> start + endIndex <= block.Length)
      && AlignedOrEnd(endIndex, readIndex)
    }

    ghost function Payload(): seq<Byte>
      reads this, block
      requires Valid()
    {
      if block == null then [] else block[start..start + endIndex]
    }

    /** What a read of this kind has to return, and the index it has to leave. */
    ghost function Next(kind: Kind): (Option<Field>, nat)
      reads this, block
      requires Valid()
    {
      if block == null then (None, 0) else ReadField(Payload(), readIndex, kind)
    }

    /** The same for a plain stretch of n bytes. */
    ghost function NextBytes(n: int): (Option<seq<Byte>>, nat)
      reads this, block
      requires Valid()
    {
      if block == null then (None, 0) else Take(Payload(), readIndex, n)
    }

    /** A returned pointer and its length lie inside the payload. */
    ghost predicate Inside(at: Option<nat>, n: int)
      reads this
    {
      at.Some? ==> block != null && n >= 0 && start <= at.value && at.value + n <= start + endIndex
    }

    /** The bytes behind a pointer. */
    ghost function BytesAt(at: Option<nat>, n: int): Option<seq<Byte>>
      reads this, block
      requires Valid() && Inside(at, n)
    {
      if at.None? then None else Some(block[at.value..at.value + n])
    }

    constructor (pickle: Pickle)
      requires pickle.header == null || pickle.Readable()
      ensures Valid() && readIndex == 0 && block == pickle.header
      ensures Payload() == if pickle.header == null then [] else pickle.Payload()
    {
      block := pickle.header;
      start := pickle.headerSize;
      readIndex := 0;
      endIndex := if pickle.header == null then 0 else pickle.StoredSize();
    }

    method Advance(size: nat)
      requires readIndex + size <= endIndex && size <= INT_MAX
      modifies this`readIndex
      ensures readIndex == PickleFormat.Advance(endIndex, old(readIndex), size)
    {
      AlignAddsPad(size);
      var alignedSize := Align(size, 4);
      if endIndex - readIndex < alignedSize {
        readIndex := endIndex;
      } else {
        readIndex := readIndex + alignedSize;
      }
    }

    /** GetReadPointerAndAdvance of a type of the given size. */
    method GetTypePointerAndAdvance(size: nat) returns (at: Option<nat>)
      requires Valid() && 1 <= size <= 8
      modifies this`readIndex
      ensures Valid() && Inside(at, size)
      ensures (BytesAt(at, size), readIndex) == old(NextBytes(size))
    {
      TakeKeepsAligned(Payload(), readIndex, size);
      if size > endIndex - readIndex {
        readIndex := endIndex;
        return None;
      }
      at := Some(start + readIndex);
      SliceOfSlice(block[..], start, start + endIndex, readIndex, size);
      Advance(size);
    }

    /** A payload at NULL has no byte to point to, so there even an empty stretch counts as a failure. */
    method GetReadPointerAndAdvance(numBytes: int) returns (at: Option<nat>)
      requires Valid() && numBytes <= INT_MAX
      modifies this`readIndex
      ensures Valid() && Inside(at, numBytes)
      ensures (BytesAt(at, numBytes), readIndex) == old(NextBytes(numBytes))
    {
      TakeKeepsAligned(Payload(), readIndex, numBytes);
      if numBytes < 0 || endIndex - readIndex < numBytes {
        readIndex := endIndex;
        return None;
      }
      at := None;
      if block != null {
        at := Some(start + readIndex);
        SliceOfSlice(block[..], start, start + endIndex, readIndex, numBytes);
      }
      Advance(numBytes);
    }

    /** The overload for elements of two bytes; the one failure that does not move to the end. */
    method GetUnitsPointerAndAdvance(numElements: int) returns (at: Option<nat>)
      requires Valid() && Int32(numElements)
      modifies this`readIndex
      ensures Valid() && Inside(at, 2 * numElements)
      ensures block != null ==>
        (BytesAt(at, 2 * numElements), readIndex) == old(TakeUnits(Payload(), readIndex, numElements))
      ensures block == null ==> at == None && readIndex == 0
    {
      if !Int32(2 * numElements) {
        return None;
      }
      at := GetReadPointerAndAdvance(2 * numElements);
    }

    /** The number a type of the given size holds. */
    method ReadBuiltinType(size: nat) returns (result: Option<nat>)
      requires Valid() && 1 <= size <= 8
      modifies this`readIndex
      ensures Valid()
      ensures readIndex == old(NextBytes(size)).1 && result.Some? == old(NextBytes(size)).0.Some?
      ensures result.Some? ==> result.value == Number(old(NextBytes(size)).0.value)
    {
      var at := GetTypePointerAndAdvance(size);
      result := if at.None? then None else Some(Number(block[at.value..at.value + size]));
    }

    method ReadBool() returns (result: Option<bool>)
      requires Valid()
      modifies this`readIndex
      ensures Valid()
      ensures (if result.Some? then Some(Bool(result.value)) else None, readIndex) == old(Next(KBool))
    {
      var n := ReadBuiltinType(1);
      result := if n.None? then None else Some(n.value != 0);
    }

    method ReadInt() returns (result: Option<int>)
      requires Valid()
      modifies this`readIndex
      ensures Valid()
      ensures (if result.Some? then Some(Int(result.value)) else None, readIndex) == old(Next(KInt))
    {
      var n := ReadBuiltinType(4);
      result := if n.None? then None else Some(Signed(n.value, 4));
    }

    method ReadLong() returns (result: Option<int>)
      requires Valid()
      modifies this`readIndex
      ensures Valid()
      ensures (if result.Some? then Some(Long(result.value)) else None, readIndex) == old(Next(KLong))
    {
      var n := ReadBuiltinType(8);
      result := if n.None? then None else Some(Signed(n.value, 8));
    }

    method ReadUInt16() returns (result: Option<nat>)
      requires Valid()
      modifies this`readIndex
      ensures Valid()
      ensures (if result.Some? then Some(UInt16(result.value)) else None, readIndex) == old(Next(KUInt16))
    {
      var n := ReadBuiltinType(2);
      result := n;
    }

    method ReadUInt32() returns (result: Option<nat>)
      requires Valid()
      modifies this`readIndex
      ensures Valid()
      ensures (if result.Some? then Some(UInt32(result.value)) else None, readIndex) == old(Next(KUInt32))
    {
      var n := ReadBuiltinType(4);
      result := n;
    }

    method ReadInt64() returns (result: Option<int>)
      requires Valid()
      modifies this`readIndex
      ensures Valid()
      ensures (if result.Some? then Some(Int64(result.value)) else None, readIndex) == old(Next(KInt64))
    {
      var n := ReadBuiltinType(8);
      result := if n.None? then None else Some(Signed(n.value, 8));
    }

    method ReadUInt64() returns (result: Option<nat>)
      requires Valid()
      modifies this`readIndex
      ensures Valid()
      ensures (if result.Some? then Some(UInt64(result.value)) else None, readIndex) == old(Next(KUInt64))
    {
      var n := ReadBuiltinType(8);
      result := n;
    }

    method ReadFloat() returns (result: Option<nat>)
      requires Valid()
      modifies this`readIndex
      ensures Valid()
      ensures (if result.Some? then Some(Float(result.value)) else None, readIndex) == old(Next(KFloat))
    {
      var n := ReadBuiltinType(4);
      result := n;
    }

    method ReadDouble() returns (result: Option<nat>)
      requires Valid()
      modifies this`readIndex
      ensures Valid()
      ensures (if result.Some? then Some(Double(result.value)) else None, readIndex) == old(Next(KDouble))
    {
      var n := ReadBuiltinType(8);
      result := n;
    }

    /** A length and as many bytes: what ReadString and ReadData have in common. */
    method ReadBlockPointer(ghost make: seq<Byte> -> Field) returns (at: Option<nat>, length: int)
      requires Valid()
      modifies this`readIndex
      ensures Valid() && Inside(at, length)
      ensures block == null ==> at == None && readIndex == 0
      ensures block != null ==>
        (if at.Some? then Some(make(BytesAt(at, length).value)) else None, readIndex)
          == old(ReadBlock(Payload(), readIndex, make))
    {
      LengthIsInt32();
      var len := ReadInt();
      if len.None? { return None, 0; }
      length := len.value;
      at := GetReadPointerAndAdvance(length);
    }

    method ReadString() returns (result: Option<seq<Byte>>)
      requires Valid()
      modifies this`readIndex
      ensures Valid()
      ensures (if result.Some? then Some(Str(result.value)) else None, readIndex) == old(Next(KStr))
    {
      var at, length := ReadBlockPointer((b: seq<Byte>) => Str(b));
      if at.None? { return None; }
      result := Some(block[at.value..at.value + length]);
    }

    method ReadString16() returns (result: Option<seq<nat>>)
      requires Valid()
      modifies this`readIndex
      ensures Valid()
      ensures (if result.Some? then Some(Str16(result.value)) else None, readIndex) == old(Next(KStr16))
    {
      LengthIsInt32();
      var len := ReadInt();
      if len.None? { return None; }
      var at := GetUnitsPointerAndAdvance(len.value);
      if at.None? { return None; }
      result := Some(Units(block[at.value..at.value + 2 * len.value]));
    }

    /** A pointer into the payload instead of a copy. */
    method ReadData() returns (data: Option<nat>, length: int)
      requires Valid()
      modifies this`readIndex
      ensures Valid() && Inside(data, length)
      ensures (if data.Some? then Some(Data(BytesAt(data, length).value)) else None, readIndex) == old(Next(KData))
    {
      data, length := ReadBlockPointer((b: seq<Byte>) => Data(b));
    }

    method ReadBytes(length: int) returns (data: Option<nat>)
      requires Valid() && length <= INT_MAX
      modifies this`readIndex
      ensures Valid() && Inside(data, length)
      ensures (if data.Some? then Some(Raw(BytesAt(data, length).value)) else None, readIndex)
        == old(Next(KRaw(length)))
    {
      data := GetReadPointerAndAdvance(length);
    }

    lemma {:induction false} LengthIsInt32()
      requires Valid()
      ensures var (len, _) := PickleFormat.ReadInt(Payload(), readIndex); len.Some? ==> Int32(len.value)
    {
      var (b, _) := Take(Payload(), readIndex, 4);
      if b.Some? {
        assert Pow256(4) == TWO_32;
        NumberBelow(b.value);
      }
    }

    /** Any read of a number. */
    method ReadNumber(kind: Kind) returns (f: Option<Field>)
      requires Valid() && !kind.KStr? && !kind.KStr16? && !kind.KData? && !kind.KRaw?
      modifies this`readIndex
      ensures Valid() && (f, readIndex) == old(Next(kind))
    {
      match kind {
        case KBool => var v := ReadBool(); f := if v.None? then None else Some(Bool(v.value));
        case KInt => var v := ReadInt(); f := if v.None? then None else Some(Int(v.value));
        case KLong => var v := ReadLong(); f := if v.None? then None else Some(Long(v.value));
        case KUInt16 => var v := ReadUInt16(); f := if v.None? then None else Some(UInt16(v.value));
        case KUInt32 => var v := ReadUInt32(); f := if v.None? then None else Some(UInt32(v.value));
        case KInt64 => var v := ReadInt64(); f := if v.None? then None else Some(Int64(v.value));
        case KUInt64 => var v := ReadUInt64(); f := if v.None? then None else Some(UInt64(v.value));
        case KFloat => var v := ReadFloat(); f := if v.None? then None else Some(Float(v.value));
        case KDouble => var v := ReadDouble(); f := if v.None? then None else Some(Double(v.value));
      }
    }

    /** Any typed read. */
    method Read(kind: Kind) returns (f: Option<Field>)
      requires Valid() && (kind.KRaw? ==> kind.length <= INT_MAX)
      modifies this`readIndex
      ensures Valid() && (f, readIndex) == old(Next(kind))
    {
      match kind {
        case KStr => var v := ReadString(); f := if v.None? then None else Some(Str(v.value));
        case KStr16 => var v := ReadString16(); f := if v.None? then None else Some(Str16(v.value));
        case KData =>
          var at, n := ReadData();
          f := if at.None? then None else Some(Data(block[at.value..at.value + n]));
        case KRaw(n) =>
          var at := ReadBytes(n);
          f := if at.None? then None else Some(Raw(block[at.value..at.value + n]));
        case _ => f := ReadNumber(kind);
      }
    }

    /** A run of reads, given up at the first failure. */
    method ReadAll(kinds: seq<Kind>) returns (fs: Option<seq<Field>>)
      requires Valid() && block != null
      requires forall i :: 0 <= i < |kinds| && kinds[i].KRaw? ==> kinds[i].length <= INT_MAX
      modifies this`readIndex
      ensures Valid() && (fs, readIndex) == old(PickleFormat.ReadAll(Payload(), readIndex, kinds))
      decreases |kinds|
    {
      if kinds == [] { return Some([]); }
      var f := Read(kinds[0]);
      if f.None? { return None; }
      var rest := ReadAll(kinds[1..]);
      fs := if rest.None? then None else Some([f.value] + rest.value);
    }
  }

  // ---------------------------------------------------------------- the sizer

  /** Addition of a size_t. */
  function Sum(a: nat, b: nat): (r: nat)
    ensures r < TWO_64 && (a + b < TWO_64 ==> r == a + b)
  {
    (a + b) % TWO_64
  }

  lemma {:induction false} SumTwice(a: nat, b: nat, c: nat)
    ensures Sum(Sum(a, b), c) == Sum(a, b + c)
  {
  }

  /** What bits::Align makes of an int length: a negative one is converted to a huge size. */
  function Aligned(length: int): (size: nat)
    requires Int32(length)
    ensures size == if length >= 0 then length + Pad(length) else if length > -4 then 0 else TWO_64 - (-length) / 4 * 4
  {
    Align(if length < 0 then length + TWO_64 else length, 4)
  }

  class PickleSizer {
    /** A size_t: the sums are taken mod 2^64. */
    var payloadSize: nat

    constructor ()
      ensures payloadSize == 0
    {
      payloadSize := 0;
    }

    /** A negative length makes the size smaller, by its magnitude rounded down to a multiple of four. */
    method AddBytes(length: int)
      requires Int32(length)
      modifies this
      ensures payloadSize == Sum(old(payloadSize), Aligned(length))
    {
      payloadSize := Sum(payloadSize, Aligned(length));
    }

    method AddInt()
      modifies this
      ensures payloadSize == Sum(old(payloadSize), 4)
    {
      AddBytes(4);
    }

    method AddBool()
      modifies this
      ensures payloadSize == Sum(old(payloadSize), 4)
    {
      AddInt();
    }

    method AddString(length: nat)
      requires length <= INT_MAX
      modifies this
      ensures payloadSize == Sum(old(payloadSize), 4 + (length + Pad(length)))
    {
      SumTwice(payloadSize, 4, length + Pad(length));
      AddInt();
      AddBytes(length);
    }

    method AddString16(length: nat)
      requires 2 * length <= INT_MAX
      modifies this
      ensures payloadSize == Sum(old(payloadSize), 4 + (2 * length + Pad(2 * length)))
    {
      SumTwice(payloadSize, 4, 2 * length + Pad(2 * length));
      AddInt();
      AddBytes(2 * length);
    }

    method AddData(length: nat)
      requires length <= INT_MAX
      modifies this
      ensures payloadSize == Sum(old(payloadSize), 4 + (length + Pad(length)))
    {
      SumTwice(payloadSize, 4, length + Pad(length));
      AddInt();
      AddBytes(length);
    }

    /** The addition that goes with a typed write: exactly the bytes the write appends. */
    method Add(f: Field)
      requires Fits(f)
      modifies this
      ensures payloadSize == Sum(old(payloadSize), |Encoded(f)|)
    {
      SizeOf(f);
      match f {
        case Bool(_) => AddBool();
        case Int(_) => AddInt();
        case Long(_) => AddBytes(8);
        case UInt16(_) => AddBytes(2);
        case UInt32(_) => AddBytes(4);
        case Int64(_) => AddBytes(8);
        case UInt64(_) => AddBytes(8);
        case Float(_) => AddBytes(4);
        case Double(_) => AddBytes(8);
        case Str(s) => AddString(|s|);
        case Str16(u) => AddString16(|u|);
        case Data(s) => AddData(|s|);
        case Raw(s) => AddBytes(|s|);
      }
    }
  }

  /** The length of what a write appends: its one or two blocks, each with its padding. */
  lemma {:induction false} SizeOf(f: Field)
    ensures |Encoded(f)| == var pieces := Pieces(f);
      if |pieces| == 1 then |pieces[0]| + Pad(|pieces[0]|) else 4 + |pieces[1]| + Pad(|pieces[1]|)
  {
    var pieces := Pieces(f);
    if |pieces| == 1 {
      LayoutOne(pieces[0]);
      assert pieces == [pieces[0]];
    } else {
      LayoutTwo(pieces[0], pieces[1]);
      assert pieces == [pieces[0], pieces[1]];
    }
  }

  // ---------------------------------------------------------------- together

  /** The data of a pickle, handed to the read-only constructor, is a pickle with the same payload. */
  method Reopen(p: Pickle) returns (q: Pickle)
    requires p.Writable() && p.headerSize + p.writeOffset <= INT_MAX
    ensures fresh(q) && q.Readable() && q.header == p.header && q.headerSize == p.headerSize
    ensures q.Payload() == p.Payload()
  {
    q := new Pickle.ReadOnly(p.header, p.headerSize + p.writeOffset);
  }

  /** The sizer's answer, for any operations; it is a number of 64 bits. */
  method PredictSize(fs: seq<Field>) returns (size: nat)
    requires forall i :: 0 <= i < |fs| ==> Fits(fs[i])
    ensures size == Sum(0, |EncodedAll(fs)|)
  {
    var sizer := new PickleSizer();
    for k := 0 to |fs|
      invariant sizer.payloadSize == Sum(0, |EncodedAll(fs[..k])|)
    {
      AllUpTo(fs, k);
      SumTwice(0, |EncodedAll(fs[..k])|, |Encoded(fs[k])|);
      sizer.Add(fs[k]);
    }
    assert fs[..|fs|] == fs;
    size := sizer.payloadSize;
  }

  lemma {:induction false} KindsOfFitting(fs: seq<Field>)
    requires forall i :: 0 <= i < |fs| ==> Fits(fs[i])
    ensures forall i :: 0 <= i < |fs| && Kinds(fs)[i].KRaw? ==> Kinds(fs)[i].length <= INT_MAX
  {
    forall i | 0 <= i < |fs| && Kinds(fs)[i].KRaw? ensures Kinds(fs)[i].length <= INT_MAX {
      assert Kinds(fs)[i] == KindOf(fs[i]);
      assert fs[i].Raw?;
    }
  }

  /** From whatever pickle holds the bytes, the matching reads return the values and end at the payload's end. */
  method ReadBack(p: Pickle, ghost fs: seq<Field>, kinds: seq<Kind>) returns (back: Option<seq<Field>>, atEnd: bool)
    requires forall i :: 0 <= i < |fs| ==> Fits(fs[i])
    requires p.Readable() && p.Payload() == EncodedAll(fs) && kinds == Kinds(fs)
    ensures back == Some(fs) && atEnd
  {
    var iter := new PickleIterator(p);
    KindsOfFitting(fs);
    FieldsComeBack(fs, [], []);
    assert [] + EncodedAll(fs) + [] == iter.Payload();
    back := iter.ReadAll(kinds);
    atEnd := iter.readIndex == iter.endIndex;
  }

  /** Predict the size, write, read back: the sizes agree and the values return, across every reallocation. */
  method RoundTrip(fs: seq<Field>, headerSize: nat)
    returns (size: nat, p: Pickle, back: Option<seq<Field>>, atEnd: bool)
    requires 4 <= headerSize <= PAYLOAD_UNIT
    requires (forall i :: 0 <= i < |fs| ==> Fits(fs[i])) && |EncodedAll(fs)| < TWO_32
    ensures fresh(p) && p.Writable() && p.Tight()
    ensures size == p.writeOffset == |EncodedAll(fs)|
    ensures back == Some(fs) && atEnd
  {
    size := PredictSize(fs);
    p := new Pickle(headerSize);
    p.WriteAll(fs);
    assert [] + EncodedAll(fs) == EncodedAll(fs);
    back, atEnd := ReadBack(p, fs, Kinds(fs));
  }
}
