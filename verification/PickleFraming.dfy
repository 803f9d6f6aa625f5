/** Pickle::PeekNext and Pickle::FindNext (src/base/pickle.cc): finding the pickles in a stretch of bytes. */
module PickleFraming {
  import opened Options
  import opened Bits
  import opened PickleFormat

  const SIZE_MAX: nat := TWO_64 - 1

  predicate HeaderOk(headerSize: nat) {
    4 <= headerSize <= 64 && headerSize % 4 == 0
  }

  /** The total size the header announces, or None while the header is incomplete. */
  function PeekNext(headerSize: nat, region: seq<Byte>): Option<nat>
    requires HeaderOk(headerSize)
  {
    if |region| < 4 then None
    else if |region| < headerSize then None
    else
      var payloadSize := Number(region[..4]);
      if payloadSize > SIZE_MAX - headerSize then Some(SIZE_MAX) else Some(headerSize + payloadSize)
  }

  /** The end of the first pickle; never beyond the region. */
  function FindNext(headerSize: nat, region: seq<Byte>): (end: Option<nat>)
    requires HeaderOk(headerSize)
    ensures end.Some? ==> 0 < end.value <= |region|
  {
    var size := PeekNext(headerSize, region);
    if size.None? || size.value > |region| then None else size
  }

  /** Repeated FindNext: what it cuts off, and the bytes on which it gives up. */
  function Walk(headerSize: nat, region: seq<Byte>): (r: (seq<seq<Byte>>, seq<Byte>))
    requires HeaderOk(headerSize)
    decreases |region|
  {
    var end := FindNext(headerSize, region);
    if end.None? then ([], region)
    else
      var (pickles, rest) := Walk(headerSize, region[end.value..]);
      ([region[..end.value]] + pickles, rest)
  }

  /** A complete pickle: a header of the given size that announces exactly the bytes behind it. */
  predicate IsPickle(headerSize: nat, p: seq<Byte>) {
    4 <= headerSize <= |p| && Number(p[..4]) == |p| - headerSize
  }

  function Flatten(pickles: seq<seq<Byte>>): seq<Byte> {
    if pickles == [] then [] else pickles[0] + Flatten(pickles[1..])
  }

  /** The bytes are the beginning of a pickle that is not all there (possibly nothing of it). */
  ghost predicate Truncated(headerSize: nat, tail: seq<Byte>) {
    exists p :: IsPickle(headerSize, p) && |p| < TWO_64 && tail < p
  }

  lemma {:induction false} FindsWholePickle(headerSize: nat, p: seq<Byte>, rest: seq<Byte>)
    requires HeaderOk(headerSize) && IsPickle(headerSize, p)
    ensures FindNext(headerSize, p + rest) == Some(|p|)
  {
    assert (p + rest)[..4] == p[..4];
    assert Pow256(4) == TWO_32;
    NumberBelow(p[..4]);
  }

  /** Of a pickle that is all there or only begun, PeekNext tells the whole size as soon as the header is there. */
  lemma {:induction false} PeekAnnounces(headerSize: nat, p: seq<Byte>, n: nat, rest: seq<Byte>)
    requires HeaderOk(headerSize) && IsPickle(headerSize, p) && n <= |p| && (n < |p| ==> rest == [])
    ensures PeekNext(headerSize, p[..n] + rest) == if n < headerSize then None else Some(|p|)
  {
    var region := p[..n] + rest;
    if n >= headerSize {
      assert region[..4] == p[..4];
      assert Pow256(4) == TWO_32;
      NumberBelow(p[..4]);
    }
  }

  lemma {:induction false} StopsAtTruncated(headerSize: nat, tail: seq<Byte>)
    requires HeaderOk(headerSize) && Truncated(headerSize, tail)
    ensures FindNext(headerSize, tail) == None
  {
    var p :| IsPickle(headerSize, p) && |p| < TWO_64 && tail < p;
    if |tail| >= 4 { assert tail[..4] == p[..4]; }
  }

  /** Over any pickles in a row with one header size, FindNext stops at exactly their ends, and on a truncated one. */
  lemma {:induction false} WalkFindsBoundaries(headerSize: nat, pickles: seq<seq<Byte>>, tail: seq<Byte>)
    requires HeaderOk(headerSize) && Truncated(headerSize, tail)
    requires forall i :: 0 <= i < |pickles| ==> IsPickle(headerSize, pickles[i])
    ensures Walk(headerSize, Flatten(pickles) + tail) == (pickles, tail)
    decreases |pickles|
  {
    var region := Flatten(pickles) + tail;
    if pickles == [] {
      assert region == tail;
      StopsAtTruncated(headerSize, tail);
    } else {
      var first, rest := pickles[0], Flatten(pickles[1..]) + tail;
      assert region == first + rest;
      WalkFirst(headerSize, first, rest);
      WalkFindsBoundaries(headerSize, pickles[1..], tail);
      assert pickles == [first] + pickles[1..];
    }
  }

  lemma {:induction false} WalkFirst(headerSize: nat, first: seq<Byte>, rest: seq<Byte>)
    requires HeaderOk(headerSize) && IsPickle(headerSize, first)
    ensures Walk(headerSize, first + rest) == ([first] + Walk(headerSize, rest).0, Walk(headerSize, rest).1)
  {
    var region := first + rest;
    FindsWholePickle(headerSize, first, rest);
    assert region[..|first|] == first && region[|first|..] == rest;
  }

  lemma {:induction false} CutsOffAPickle(headerSize: nat, region: seq<Byte>)
    requires HeaderOk(headerSize) && FindNext(headerSize, region).Some?
    ensures IsPickle(headerSize, region[..FindNext(headerSize, region).value])
  {
    assert Pow256(4) == TWO_32;
    NumberBelow(region[..4]);
    assert region[..FindNext(headerSize, region).value][..4] == region[..4];
  }

  lemma {:induction false} FlattenFirst(first: seq<Byte>, pickles: seq<seq<Byte>>, rest: seq<Byte>)
    ensures Flatten([first] + pickles) + rest == first + (Flatten(pickles) + rest)
  {
    assert ([first] + pickles)[1..] == pickles;
  }

  lemma {:induction false} WalkRejoins(headerSize: nat, region: seq<Byte>)
    requires HeaderOk(headerSize)
    ensures Flatten(Walk(headerSize, region).0) + Walk(headerSize, region).1 == region
    decreases |region|
  {
    var end := FindNext(headerSize, region);
    if end.Some? {
      var r := Walk(headerSize, region[end.value..]);
      WalkRejoins(headerSize, region[end.value..]);
      FlattenFirst(region[..end.value], r.0, r.1);
    }
  }

  lemma {:induction false} WalkCutsPickles(headerSize: nat, region: seq<Byte>, i: nat)
    requires HeaderOk(headerSize) && i < |Walk(headerSize, region).0|
    ensures IsPickle(headerSize, Walk(headerSize, region).0[i])
    decreases |region|
  {
    var end := FindNext(headerSize, region);
    if i == 0 {
      CutsOffAPickle(headerSize, region);
    } else {
      WalkCutsPickles(headerSize, region[end.value..], i - 1);
    }
  }

  lemma {:induction false} WalkGivesUp(headerSize: nat, region: seq<Byte>)
    requires HeaderOk(headerSize)
    ensures FindNext(headerSize, Walk(headerSize, region).1) == None
    decreases |region|
  {
    var end := FindNext(headerSize, region);
    if end.Some? { WalkGivesUp(headerSize, region[end.value..]); }
  }

  /** Over any bytes at all, what was cut off and what is left are the region, and only pickles are cut off. */
  lemma {:induction false} WalkLosesNothing(headerSize: nat, region: seq<Byte>)
    requires HeaderOk(headerSize)
    ensures var r := Walk(headerSize, region);
      && Flatten(r.0) + r.1 == region && FindNext(headerSize, r.1) == None
      && forall i :: 0 <= i < |r.0| ==> IsPickle(headerSize, r.0[i])
  {
    WalkRejoins(headerSize, region);
    WalkGivesUp(headerSize, region);
    forall i | 0 <= i < |Walk(headerSize, region).0| ensures IsPickle(headerSize, Walk(headerSize, region).0[i]) {
      WalkCutsPickles(headerSize, region, i);
    }
  }
}
