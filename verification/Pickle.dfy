/**
  The writer of src/base/pickle.cc as it runs: a Pickle grows its block where the source calls realloc. What it appends
  is stated by the functions of PickleFormat.
*/
module Pickles {
  import opened Bits
  import opened PickleFormat
  import opened PickleFraming

  const PAYLOAD_UNIT: nat := 64
  const HEAP_ALIGN: nat := 4096
  const READ_ONLY: nat := SIZE_MAX

  // ---------------------------------------------------------------- growth

  function Max(x: nat, y: nat): nat {
    if x < y then y else x
  }

  /** What ClaimUninitializedBytesInternal asks Resize for, when newSize exceeds the capacity. */
  function Wanted(capacity: nat, newSize: nat): nat
    requires capacity <= 4 * TWO_32
  {
    AlignIsLeastMultiple(2 * capacity, HEAP_ALIGN);
    Max(if 2 * capacity > HEAP_ALIGN then Align(2 * capacity, HEAP_ALIGN) - PAYLOAD_UNIT else 2 * capacity, newSize)
  }

  /**
    The growth policy: twice the capacity, but beyond a heap page one unit less than a whole number of pages, the least
    that leaves room for twice the capacity with that unit; or what is needed, if that is more.
  */
  lemma {:induction false} WantedIs(capacity: nat, newSize: nat) returns (doubled: nat)
    requires capacity <= 4 * TWO_32
    ensures 2 * capacity <= 4096 ==> doubled == 2 * capacity
    ensures 2 * capacity > 4096 ==> (doubled + 64) % 4096 == 0 && 2 * capacity <= doubled + 64 < 2 * capacity + 4096
    ensures Wanted(capacity, newSize) == if newSize <= doubled then doubled else newSize
  {
    AlignIsLeastMultiple(2 * capacity, HEAP_ALIGN);
    doubled := if 2 * capacity > HEAP_ALIGN then Align(2 * capacity, HEAP_ALIGN) - PAYLOAD_UNIT else 2 * capacity;
  }

  lemma {:induction false} AlignUnit(size: nat, unit: nat)
    requires size < 0x10_0000_0000 && (unit == PAYLOAD_UNIT || unit == HEAP_ALIGN)
    ensures Align(size, unit) % PAYLOAD_UNIT == 0 && size <= Align(size, unit) < size + unit
    ensures size % PAYLOAD_UNIT == 0 ==> Align(size, PAYLOAD_UNIT) == size
  {
    AlignIsLeastMultiple(size, unit);
    AlignIsLeastMultiple(size, PAYLOAD_UNIT);
  }

  /** The growth policy at least doubles, but for one unit, and never goes beyond twice the need plus a heap page. */
  lemma {:induction false} GrowthBounds(capacity: nat, newSize: nat)
    requires capacity % PAYLOAD_UNIT == 0 && capacity < newSize < TWO_32
    ensures var grown := Align(Wanted(capacity, newSize), PAYLOAD_UNIT);
      && newSize <= grown <= 2 * newSize + HEAP_ALIGN && 3 * capacity <= 2 * grown
  {
    AlignUnit(2 * capacity, HEAP_ALIGN);
    AlignUnit(Wanted(capacity, newSize), PAYLOAD_UNIT);
  }

  // ---------------------------------------------------------------- sizes and bytes

  /** What the uint32_t subtraction of the read-only constructor and its two checks leave; 0 is a refusal. */
  function DeducedHeaderSize(stored: nat, dataLen: nat): (size: nat)
    requires stored < TWO_32 && dataLen <= INT_MAX
    ensures size == if dataLen > stored && (dataLen - stored) % 4 == 0 then dataLen - stored else 0
  {
    var wrapped := (dataLen - stored) % TWO_32;
    if wrapped > dataLen then 0
    else if wrapped != Align(wrapped, 4) then 0
    else wrapped
  }

  lemma {:induction false} AllUpTo(fs: seq<Field>, k: nat)
    requires k < |fs|
    ensures EncodedAll(fs[..k + 1]) == EncodedAll(fs[..k]) + Encoded(fs[k])
    ensures |EncodedAll(fs[..k + 1])| <= |EncodedAll(fs)|
    decreases |fs| - k
  {
    assert fs[..k + 1][..k] == fs[..k];
    if k + 1 < |fs| {
      AllUpTo(fs, k + 1);
    } else {
      assert fs[..k + 1] == fs;
    }
  }

  lemma {:induction false} Associative(x: seq<Byte>, y: seq<Byte>, z: seq<Byte>)
    ensures (x + y) + z == x + (y + z)
  {
  }

  lemma {:induction false} AppendedBytes(kept: seq<Byte>, now: seq<Byte>, data: seq<Byte>, pad: nat)
    requires |now| == |kept| + |data| + pad
    requires forall i :: 0 <= i < |kept| ==> now[i] == kept[i]
    requires forall i :: |kept| <= i < |kept| + |data| ==> now[i] == data[i - |kept|]
    requires forall i :: |kept| + |data| <= i < |now| ==> now[i] == 0
    ensures now == kept + (data + Zeros(pad))
  {
  }

  // ---------------------------------------------------------------- the writer

  class Pickle {
    var header: array?<Byte>
    var headerSize: nat
    var capacityAfterHeader: nat
    var writeOffset: nat
    /** The bytes behind the header that reallocations have moved since the contents were last set as a whole. */
    ghost var moved: nat

    /** The size stored in the header's first four bytes. */
    function StoredSize(): nat
      reads this`header, header
      requires header != null && header.Length >= 4
    {
      Number(header[..4])
    }

    /** There is a block, and it holds the header and the stored number of bytes. */
    ghost predicate Readable()
      reads this`header, this`headerSize, header
    {
      header != null && 4 <= headerSize && headerSize + StoredSizeOr0() <= header.Length
    }

    ghost function StoredSizeOr0(): nat
      reads this`header, header
    {
      if header == null || header.Length < 4 then 0 else StoredSize()
    }

    ghost function Payload(): (p: seq<Byte>)
      requires Readable()
      reads this`header, this`headerSize, header
    {
      header[headerSize..headerSize + StoredSize()]
    }

    /** What every run of writes and reservations on a fresh pickle keeps. */
    ghost predicate Writable()
      reads this, header
    {
      && header != null && HeaderOk(headerSize) && header.Length == headerSize + capacityAfterHeader
      && StoredSize() == writeOffset && writeOffset % 4 == 0 && writeOffset < TWO_32
      && writeOffset <= capacityAfterHeader && capacityAfterHeader % PAYLOAD_UNIT == 0
      && capacityAfterHeader <= 4 * TWO_32 && moved <= 2 * capacityAfterHeader
    }

    /** The block is this pickle's own, and as long as header and capacity say. */
    ghost predicate Owned()
      reads this
    {
      capacityAfterHeader != READ_ONLY && header != null && header.Length == headerSize + capacityAfterHeader
    }

    /** Exactly what makes a copy of this pickle writable; a read-only pickle with a payload lacks the second. */
    ghost predicate CopiesWritable()
      requires Readable()
      reads this, header
    {
      HeaderOk(headerSize) && writeOffset == |Payload()| && writeOffset % 4 == 0
    }

    /** What a run of writes keeps besides, as long as nothing was reserved. */
    ghost predicate Tight()
      reads this
    {
      capacityAfterHeader <= 2 * writeOffset + HEAP_ALIGN
    }

    constructor (size: nat)
      requires 4 <= size <= PAYLOAD_UNIT
      ensures Writable() && Tight() && fresh(header) && Payload() == []
      ensures headerSize == size + Pad(size) && capacityAfterHeader == PAYLOAD_UNIT && moved == 0
    {
      header := null;
      headerSize := Align(size, 4);
      capacityAfterHeader := 0;
      writeOffset := 0;
      moved := 0;
      new;
      AlignAddsPad(size);
      AlignUnit(PAYLOAD_UNIT, PAYLOAD_UNIT);
      Resize(PAYLOAD_UNIT);
      SetStoredSize(0);
    }

    /** Refers to a caller's block; the header size is whatever the stored payload size leaves of it. */
    constructor ReadOnly(data: array<Byte>, dataLen: int)
      requires dataLen <= data.Length && dataLen <= INT_MAX
      ensures header == null || (header == data && Readable())
      ensures header != null <==>
        dataLen >= 4 && dataLen > Number(data[..4]) && (dataLen - Number(data[..4])) % 4 == 0
      ensures header != null ==> headerSize == dataLen - StoredSize() && Payload() == data[headerSize..dataLen]
      ensures header == null ==> headerSize == 0
      ensures capacityAfterHeader == READ_ONLY && writeOffset == 0
    {
      header := data;
      headerSize := 0;
      capacityAfterHeader := READ_ONLY;
      writeOffset := 0;
      moved := 0;
      new;
      if dataLen >= 4 {
        assert Pow256(4) == TWO_32;
        NumberBelow(data[..4]);
        headerSize := DeducedHeaderSize(Number(data[..4]), dataLen);
      }
      if headerSize == 0 {
        header := null;
      }
    }

    /** The block has not been reallocated. */
    twostate predicate Stays()
      reads this
    {
      header == old(header) && capacityAfterHeader == old(capacityAfterHeader) && moved == old(moved)
    }

    /** realloc: the bytes that fit keep their value. */
    method Resize(newCapacity: nat)
      requires capacityAfterHeader != READ_ONLY
      requires header != null ==> header.Length == headerSize + capacityAfterHeader
      modifies this`header, this`capacityAfterHeader, this`moved
      ensures header != null && fresh(header)
      ensures capacityAfterHeader == Align(newCapacity, PAYLOAD_UNIT)
      ensures header.Length == headerSize + capacityAfterHeader
      ensures moved == old(if header == null then moved else moved + capacityAfterHeader)
      ensures old(header) != null ==>
        forall i :: 0 <= i < header.Length && i < old(header.Length) ==> header[i] == old(header[i])
    {
      moved := if header == null then moved else moved + capacityAfterHeader;
      capacityAfterHeader := Align(newCapacity, PAYLOAD_UNIT);
      var p := new Byte[headerSize + capacityAfterHeader];
      if header != null {
        var kept := if header.Length < p.Length then header.Length else p.Length;
        forall i | 0 <= i < kept {
          p[i] := header[i];
        }
      }
      header := p;
    }

    /** memcpy into the block. */
    method CopyIn(at: nat, data: seq<Byte>)
      requires header != null && 4 <= at && at + |data| <= header.Length
      modifies header
      ensures forall i :: at <= i < at + |data| ==> header[i] == data[i - at]
      ensures forall i :: 4 <= i < at || at + |data| <= i < header.Length ==> header[i] == old(header[i])
      ensures StoredSize() == old(StoredSize())
    {
      forall i | 0 <= i < |data| {
        header[at + i] := data[i];
      }
      assert header[..4] == old(header[..4]);
    }

    method SetStoredSize(n: nat)
      requires header != null && header.Length >= 4 && n < TWO_32
      modifies header
      ensures forall i :: 4 <= i < header.Length ==> header[i] == old(header[i])
      ensures StoredSize() == n
    {
      var d := Digits(n, 4);
      header[0], header[1], header[2], header[3] := d[0], d[1], d[2], d[3];
      assert header[..4] == d;
      assert Pow256(4) == TWO_32;
      NumberOfDigits(n, 4);
    }

    /** Grows the block, where it must, so that the payload may be newSize bytes long. */
    method MakeRoom(newSize: nat)
      requires Writable() && writeOffset <= newSize < TWO_32 && newSize % 4 == 0
      modifies this`header, this`capacityAfterHeader, this`moved
      ensures Writable() && newSize <= capacityAfterHeader
      ensures capacityAfterHeader == old(capacityAfterHeader) || capacityAfterHeader <= 2 * newSize + HEAP_ALIGN
      ensures header == old(header) || fresh(header)
      ensures newSize <= old(capacityAfterHeader) ==> Stays()
      ensures forall i :: 4 <= i < headerSize + writeOffset ==> header[i] == old(header[i])
    {
      if newSize > capacityAfterHeader {
        GrowthBounds(capacityAfterHeader, newSize);
        AlignUnit(Wanted(capacityAfterHeader, newSize), PAYLOAD_UNIT);
        Resize(Wanted(capacityAfterHeader, newSize));
        assert header[..4] == old(header[..4]);
      }
    }

    /** Makes room for length bytes and zeroes their padding; the claimed bytes start at the result. */
    method ClaimUninitializedBytesInternal(length: nat) returns (write: nat)
      requires Writable() && writeOffset + length + Pad(length) < TWO_32
      modifies this`header, this`capacityAfterHeader, this`moved, this`writeOffset, header
      ensures Writable() && (old(Tight()) ==> Tight())
      ensures header == old(header) || fresh(header)
      ensures writeOffset <= old(capacityAfterHeader) ==> Stays()
      ensures writeOffset == old(writeOffset) + length + Pad(length)
      ensures write == headerSize + old(writeOffset)
      ensures forall i :: 4 <= i < write ==> header[i] == old(header[i])
      ensures forall i :: write + length <= i < write + length + Pad(length) ==> header[i] == 0
    {
      AlignAddsPad(length);
      var dataLen := Align(length, 4);
      var newSize := writeOffset + dataLen;
      MakeRoom(newSize);
      write := headerSize + writeOffset;
      CopyIn(write + length, Zeros(dataLen - length));
      SetStoredSize(newSize);
      writeOffset := newSize;
    }

    /** The DCHECKs of a claim: the payload stays below 2^32 bytes. */
    predicate HasRoom(data: seq<Byte>)
      reads this
    {
      writeOffset + |data| < TWO_32
    }

    /**
      The whole effect of a write: data is appended, nothing in the header but the size changes, and the block is
      reallocated only if data does not fit.
    */
    twostate predicate Appended(data: seq<Byte>)
      requires old(Readable())
      reads this, header
    {
      && Writable() && (old(Tight()) ==> Tight())
      && (header == old(header) || fresh(header)) && headerSize == old(headerSize)
      && (writeOffset <= old(capacityAfterHeader) ==> Stays())
      && writeOffset == old(writeOffset) + |data| && Payload() == old(Payload()) + data
      && forall i :: 4 <= i < headerSize && i < old(header.Length) ==> header[i] == old(header[i])
    }

    /** The claim and the copy, byte by byte. */
    method ClaimAndCopy(data: seq<Byte>)
      requires Writable() && HasRoom(Padded(data))
      modifies this`header, this`capacityAfterHeader, this`moved, this`writeOffset, header
      ensures Writable() && (old(Tight()) ==> Tight())
      ensures header == old(header) || fresh(header)
      ensures writeOffset <= old(capacityAfterHeader) ==> Stays()
      ensures writeOffset == old(writeOffset) + |Padded(data)|
      ensures forall i :: 4 <= i < headerSize + old(writeOffset) ==> header[i] == old(header[i])
      ensures var at := headerSize + old(writeOffset);
        && (forall i :: at <= i < at + |data| ==> header[i] == data[i - at])
        && forall i :: at + |data| <= i < headerSize + writeOffset ==> header[i] == 0
    {
      var write := ClaimUninitializedBytesInternal(|data|);
      CopyIn(write, data);
    }

    method WriteBytesCommon(data: seq<Byte>)
      requires Writable() && HasRoom(Padded(data))
      modifies this`header, this`capacityAfterHeader, this`moved, this`writeOffset, header
      ensures Appended(Padded(data))
    {
      ClaimAndCopy(data);
      AppendedBytes(old(Payload()), Payload(), data, Pad(|data|));
    }

    /** The bytes of a number, or any other plain data. */
    method WritePOD(data: seq<Byte>) returns (ok: bool)
      requires Writable() && HasRoom(Padded(data))
      modifies this`header, this`capacityAfterHeader, this`moved, this`writeOffset, header
      ensures ok && Appended(Padded(data))
    {
      WriteBytesCommon(data);
      ok := true;
    }

    method WriteBool(value: bool) returns (ok: bool)
      requires Writable() && HasRoom(Encoded(Bool(value)))
      modifies this`header, this`capacityAfterHeader, this`moved, this`writeOffset, header
      ensures ok && Appended(Encoded(Bool(value)))
    {
      ok := WriteInt(if value then 1 else 0);
      assert Pieces(Bool(value)) == Pieces(Int(if value then 1 else 0));
    }

    method WriteInt(value: int) returns (ok: bool)
      requires Writable() && Fits(Int(value)) && HasRoom(Encoded(Int(value)))
      modifies this`header, this`capacityAfterHeader, this`moved, this`writeOffset, header
      ensures ok && Appended(Encoded(Int(value)))
    {
      ok := WritePOD(Digits(Unsigned(value, 4), 4));
      LayoutOne(Digits(Unsigned(value, 4), 4));
    }

    method WriteLong(value: int) returns (ok: bool)
      requires Writable() && Fits(Long(value)) && HasRoom(Encoded(Long(value)))
      modifies this`header, this`capacityAfterHeader, this`moved, this`writeOffset, header
      ensures ok && Appended(Encoded(Long(value)))
    {
      ok := WritePOD(Digits(Unsigned(value, 8), 8));
      LayoutOne(Digits(Unsigned(value, 8), 8));
    }

    method WriteUInt16(value: nat) returns (ok: bool)
      requires Writable() && Fits(UInt16(value)) && HasRoom(Encoded(UInt16(value)))
      modifies this`header, this`capacityAfterHeader, this`moved, this`writeOffset, header
      ensures ok && Appended(Encoded(UInt16(value)))
    {
      ok := WritePOD(Digits(value, 2));
      LayoutOne(Digits(value, 2));
    }

    method WriteUInt32(value: nat) returns (ok: bool)
      requires Writable() && Fits(UInt32(value)) && HasRoom(Encoded(UInt32(value)))
      modifies this`header, this`capacityAfterHeader, this`moved, this`writeOffset, header
      ensures ok && Appended(Encoded(UInt32(value)))
    {
      ok := WritePOD(Digits(value, 4));
      LayoutOne(Digits(value, 4));
    }

    method WriteInt64(value: int) returns (ok: bool)
      requires Writable() && Fits(Int64(value)) && HasRoom(Encoded(Int64(value)))
      modifies this`header, this`capacityAfterHeader, this`moved, this`writeOffset, header
      ensures ok && Appended(Encoded(Int64(value)))
    {
      ok := WritePOD(Digits(Unsigned(value, 8), 8));
      LayoutOne(Digits(Unsigned(value, 8), 8));
    }

    method WriteUInt64(value: nat) returns (ok: bool)
      requires Writable() && Fits(UInt64(value)) && HasRoom(Encoded(UInt64(value)))
      modifies this`header, this`capacityAfterHeader, this`moved, this`writeOffset, header
      ensures ok && Appended(Encoded(UInt64(value)))
    {
      ok := WritePOD(Digits(value, 8));
      LayoutOne(Digits(value, 8));
    }

    method WriteFloat(bits: nat) returns (ok: bool)
      requires Writable() && Fits(Float(bits)) && HasRoom(Encoded(Float(bits)))
      modifies this`header, this`capacityAfterHeader, this`moved, this`writeOffset, header
      ensures ok && Appended(Encoded(Float(bits)))
    {
      ok := WritePOD(Digits(bits, 4));
      LayoutOne(Digits(bits, 4));
    }

    method WriteDouble(bits: nat) returns (ok: bool)
      requires Writable() && Fits(Double(bits)) && HasRoom(Encoded(Double(bits)))
      modifies this`header, this`capacityAfterHeader, this`moved, this`writeOffset, header
      ensures ok && Appended(Encoded(Double(bits)))
    {
      ok := WritePOD(Digits(bits, 8));
      LayoutOne(Digits(bits, 8));
    }

    /** The two steps that WriteString, WriteString16 and WriteData share. */
    method WriteSized(count: nat, bytes: seq<Byte>) returns (ok: bool)
      requires Writable() && count <= INT_MAX && |bytes| <= INT_MAX
      requires HasRoom(Layout([Digits(count, 4), bytes]))
      modifies this`header, this`capacityAfterHeader, this`moved, this`writeOffset, header
      ensures ok && Appended(Layout([Digits(count, 4), bytes]))
    {
      ghost var first, second := Layout([Digits(count, 4)]), Layout([bytes]);
      LayoutOne(Digits(count, 4));
      LayoutOne(bytes);
      LayoutTwo(Digits(count, 4), bytes);
      ok := WriteInt(count);
      if !ok { return; }
      ok := WriteBytes(bytes, |bytes|);
      assert bytes[..|bytes|] == bytes;
      Associative(old(Payload()), first, second);
    }

    method WriteString(value: seq<Byte>) returns (ok: bool)
      requires Writable() && Fits(Str(value)) && HasRoom(Encoded(Str(value)))
      modifies this`header, this`capacityAfterHeader, this`moved, this`writeOffset, header
      ensures ok && Appended(Encoded(Str(value)))
    {
      ok := WriteSized(|value|, value);
    }

    method WriteString16(value: seq<nat>) returns (ok: bool)
      requires Writable() && Fits(Str16(value)) && HasRoom(Encoded(Str16(value)))
      modifies this`header, this`capacityAfterHeader, this`moved, this`writeOffset, header
      ensures ok && Appended(Encoded(Str16(value)))
    {
      ok := WriteSized(|value|, UnitBytes(value));
    }

    method WriteData(data: seq<Byte>, length: int) returns (ok: bool)
      requires Writable() && length <= |data| && length <= INT_MAX
      requires length >= 0 ==> HasRoom(Encoded(Data(data[..length])))
      modifies this`header, this`capacityAfterHeader, this`moved, this`writeOffset, header
      ensures ok <==> length >= 0
      ensures ok ==> Appended(Encoded(Data(data[..length])))
      ensures !ok ==> Appended([]) && header == old(header)
    {
      if length < 0 { return false; }
      ok := WriteSized(length, data[..length]);
    }

    method WriteBytes(data: seq<Byte>, length: nat) returns (ok: bool)
      requires Writable() && length <= |data| && length <= INT_MAX && HasRoom(Encoded(Raw(data[..length])))
      modifies this`header, this`capacityAfterHeader, this`moved, this`writeOffset, header
      ensures ok && Appended(Encoded(Raw(data[..length])))
    {
      LayoutOne(data[..length]);
      WriteBytesCommon(data[..length]);
      ok := true;
    }

    /** Any typed write. */
    method Write(f: Field) returns (ok: bool)
      requires Writable() && Fits(f) && HasRoom(Encoded(f))
      modifies this`header, this`capacityAfterHeader, this`moved, this`writeOffset, header
      ensures ok && Appended(Encoded(f))
    {
      match f {
        case Bool(b) => ok := WriteBool(b);
        case Int(i) => ok := WriteInt(i);
        case Long(i) => ok := WriteLong(i);
        case UInt16(n) => ok := WriteUInt16(n);
        case UInt32(n) => ok := WriteUInt32(n);
        case Int64(i) => ok := WriteInt64(i);
        case UInt64(n) => ok := WriteUInt64(n);
        case Float(n) => ok := WriteFloat(n);
        case Double(n) => ok := WriteDouble(n);
        case Str(s) => ok := WriteString(s);
        case Str16(u) => ok := WriteString16(u);
        case Data(s) => assert s[..|s|] == s; ok := WriteData(s, |s|);
        case Raw(s) => assert s[..|s|] == s; ok := WriteBytes(s, |s|);
      }
    }

    /** Makes room ahead of writes; see WriteInPlace for what that is good for. */
    method Reserve(length: nat)
      requires Writable() && writeOffset + length + Pad(length) < TWO_32
      modifies this`header, this`capacityAfterHeader, this`moved
      ensures Writable() && Payload() == old(Payload()) && writeOffset + length + Pad(length) <= capacityAfterHeader
      ensures header == old(header) || fresh(header)
      ensures forall i :: 4 <= i < headerSize + writeOffset ==> header[i] == old(header[i])
    {
      AlignAddsPad(length);
      var newSize := writeOffset + Align(length, 4);
      if newSize > capacityAfterHeader {
        AlignUnit(2 * capacityAfterHeader + newSize, PAYLOAD_UNIT);
        Resize(2 * capacityAfterHeader + newSize);
        assert header[..4] == old(header[..4]);
      }
    }

    /** The header and the payload of another pickle, in a block of this one's own. */
    constructor Copy(other: Pickle)
      requires other.Readable() && other.StoredSize() < TWO_32
      ensures Owned() && fresh(header) && headerSize == other.headerSize && writeOffset == other.writeOffset
      ensures Readable() && Payload() == other.Payload() && header[4..headerSize] == other.header[4..headerSize]
      ensures Writable() <==> other.CopiesWritable()
      ensures Writable() ==> Tight()
    {
      header := null;
      headerSize := other.headerSize;
      capacityAfterHeader := 0;
      writeOffset := other.writeOffset;
      moved := 0;
      new;
      TakeOver(other);
    }

    /** memcpy of the first n bytes of another block. */
    method CopyFrom(other: array<Byte>, n: nat)
      requires header != null && header != other && n <= header.Length && n <= other.Length
      modifies header
      ensures forall i :: 0 <= i < n ==> header[i] == other[i]
    {
      forall i | 0 <= i < n {
        header[i] := other[i];
      }
    }

    /** The end of the copy constructor and of the assignment: Resize and memcpy. */
    method TakeOver(other: Pickle)
      requires this != other && other.Readable() && other.StoredSize() < TWO_32 && headerSize == other.headerSize
      requires capacityAfterHeader != READ_ONLY
      requires header != null ==> header.Length == headerSize + capacityAfterHeader
      modifies this`header, this`capacityAfterHeader, this`moved
      ensures header != null && fresh(header) && header.Length == headerSize + capacityAfterHeader
      ensures capacityAfterHeader == Align(other.StoredSize(), PAYLOAD_UNIT)
      ensures StoredSize() <= capacityAfterHeader < StoredSize() + PAYLOAD_UNIT
      ensures capacityAfterHeader % PAYLOAD_UNIT == 0
      ensures old(header) == null ==> moved == old(moved)
      ensures Readable() && Payload() == other.Payload() && header[4..headerSize] == other.header[4..headerSize]
    {
      AlignUnit(other.StoredSize(), PAYLOAD_UNIT);
      Resize(other.StoredSize());
      var n := headerSize + other.StoredSize();
      CopyFrom(other.header, n);
      assert header[..4] == other.header[..4];
      assert header[headerSize..n] == other.header[headerSize..n];
    }

    /** The beginning of the assignment: a block that is not this pickle's, or of another shape, is given up. */
    method GiveUpBlock(size: nat)
      requires Owned() || capacityAfterHeader == READ_ONLY
      modifies this`header, this`headerSize, this`capacityAfterHeader
      ensures headerSize == size && capacityAfterHeader != READ_ONLY
      ensures header != null ==> header.Length == headerSize + capacityAfterHeader
    {
      if capacityAfterHeader == READ_ONLY {
        header := null;
        capacityAfterHeader := 0;
      }
      if headerSize != size {
        header := null;
        headerSize := size;
      }
    }

    /**
      operator= from another pickle: whatever this pickle was, it becomes a copy. Its own block is freed or moved on
      the way, so the other one must not refer to it.
    */
    method Assign(other: Pickle)
      requires Owned() || capacityAfterHeader == READ_ONLY
      requires this != other && other.Readable() && other.StoredSize() < TWO_32
      requires Owned() ==> other.header != header
      modifies this
      ensures Owned() && fresh(header) && headerSize == other.headerSize && writeOffset == other.writeOffset
      ensures Readable() && Payload() == other.Payload() && header[4..headerSize] == other.header[4..headerSize]
      ensures Writable() <==> other.CopiesWritable()
      ensures Writable() ==> Tight()
    {
      GiveUpBlock(other.headerSize);
      TakeOver(other);
      writeOffset := other.writeOffset;
      moved := 0;
    }

    /** A run of typed writes. */
    method WriteAll(fs: seq<Field>)
      requires Writable() && (forall i :: 0 <= i < |fs| ==> Fits(fs[i])) && HasRoom(EncodedAll(fs))
      modifies this`header, this`capacityAfterHeader, this`moved, this`writeOffset, header
      ensures Appended(EncodedAll(fs))
    {
      for k := 0 to |fs|
        invariant header == old(header) || fresh(header)
        invariant Appended(EncodedAll(fs[..k]))
      {
        AllUpTo(fs, k);
        Associative(old(Payload()), EncodedAll(fs[..k]), Encoded(fs[k]));
        var ok := Write(fs[k]);
      }
      assert fs[..|fs|] == fs;
    }
  }

  /** Writes that fit in the capacity, such as one that Reserve has left, do not move the block. */
  method WriteInPlace(p: Pickle, fs: seq<Field>)
    requires p.Writable() && (forall i :: 0 <= i < |fs| ==> Fits(fs[i])) && p.HasRoom(EncodedAll(fs))
    requires p.writeOffset + |EncodedAll(fs)| <= p.capacityAfterHeader
    modifies p, p.header
    ensures p.header == old(p.header) && p.capacityAfterHeader == old(p.capacityAfterHeader)
    ensures p.Writable() && p.Payload() == old(p.Payload()) + EncodedAll(fs)
  {
    p.WriteAll(fs);
  }

  /** A read-only pickle with a payload whose copy is not writable. */
  method CopyOfReadOnly() returns (original: Pickle, copy: Pickle)
    ensures original.Readable() && original.capacityAfterHeader == READ_ONLY
    ensures original.Payload() == [7, 0, 0, 0]
    ensures copy.Readable() && copy.Payload() == original.Payload() && !copy.Writable()
  {
    var data := new Byte[] [4, 0, 0, 0, 7, 0, 0, 0];
    assert data[..4] == Digits(4, 4);
    NumberOfDigits(4, 4);
    original := new Pickle.ReadOnly(data, 8);
    assert data[4..8] == [7, 0, 0, 0];
    copy := new Pickle.Copy(original);
  }
}
